/** The transcript parser of app/billing.js (`parseItemsAndPrices`): it splits
    a dictated or typed utterance into lines, merges a price spoken after a
    pause into the line before it, drops repeated lines, and turns each line
    into one `{ item, price }` row. Every stage is a function; the loops of
    the source are the methods at the end, each proved to compute its
    function. */
module Parser {
  import opened Strings
  import opened HindiNumbers

  /** One row of the bill, `{ item, price }`. */
  datatype Entry = Entry(item: string, price: string)

  /** A number as `Number` reads `\d+(\.\d+)?`: the integer part, and the
      fraction digits with trailing zeros dropped (`Number('12.50')` is 12.5). */
  datatype Amount = Amount(whole: nat, frac: string)

  /** The last token that reads as a price, scanning from the end, with its
      index among the line's tokens (`priceIdx`, `priceValue`), or none
      (`priceIdx === -1`). */
  datatype PriceToken = NoPriceToken | PriceToken(index: nat, value: Amount)

  const RupeeSign: char := '\U{20B9}'

  /** The currency words the source matches as whole words or at the end of
      a line (its regular expressions at lines 72, 79 and 184), lower-case. */
  const CurrencyWords: seq<string> := ["rupees", "rs", "rupaye", "रुपये", "रुपया", "रुपय", "₹"]

  /** The alternatives stripped from a token before reading it as a number,
      in the order the source's regular expression lists them. */
  const NumberCurrencyAlts: seq<string> := ["₹", "rs", "rupees", "rupaye", "रुपये", "रुपया", "रुपय"]

  /** The alternatives stripped from the finished item name, in order. */
  const CleanupAlts: seq<string> := ["₹", "रुपये", "रुपया", "rs", "rupees", "rupaye"]

  /** A token that is a currency word on its own, ignoring ASCII case. */
  predicate IsCurrencyWord(t: string) {
    Lower(t) in CurrencyWords
  }

  // ---------------------------------------------------------------------
  // numerals written in ASCII digits

  /** Length of the leading run of ASCII digits. */
  function DigitRun(s: string): (n: nat)
    ensures n <= |s| && AllDigits(s[..n])
    ensures n == |s| || !IsDigit(s[n])
    decreases |s|
  {
    if s == [] || !IsDigit(s[0]) then 0
    else
      var n := 1 + DigitRun(s[1..]);
      assert s[..n] == [s[0]] + s[1..][..n - 1];
      n
  }

  /** `/^\d+(\.\d+)?$/`. */
  predicate IsNumeral(s: string) {
    var n := DigitRun(s);
    n >= 1 && (n == |s| || (s[n] == '.' && n + 1 < |s| && AllDigits(s[n + 1..])))
  }

  function StripTrailingZeros(s: string): (r: string)
    ensures |r| <= |s|
    decreases |s|
  {
    if s != [] && s[|s| - 1] == '0' then StripTrailingZeros(s[..|s| - 1]) else s
  }

  /** `Number(s)` for a numeral. */
  function NumeralValue(s: string): Amount
    requires IsNumeral(s)
  {
    var n := DigitRun(s);
    Amount(DigitsValue(s[..n]), if n == |s| then [] else StripTrailingZeros(s[n + 1..]))
  }

  /** How `'₹' + value` writes a number read from a numeral. */
  function RenderAmount(a: Amount): string {
    NatToString(a.whole) + (if a.frac == [] then [] else "." + a.frac)
  }

  // ---------------------------------------------------------------------
  // line splitting

  /** Trim every piece and drop the empty ones, keeping their order. */
  function CleanLines(pieces: seq<string>): (r: seq<string>)
    decreases |pieces|
  {
    if pieces == [] then []
    else
      var t := Trim(pieces[0]);
      (if t == [] then [] else [t]) + CleanLines(pieces[1..])
  }

  /** `text.split(/\n/).map(l => l.trim()).filter(Boolean)`. */
  function InputLines(text: string): seq<string> {
    CleanLines(Split(text, '\n'))
  }

  // ---------------------------------------------------------------------
  // line merging

  /** Whitespace, then optionally one currency word, then the end:
      `\s*(rupees|rs|rupaye|रुपये|रुपया|रुपय|₹)?$` with the `i` flag. */
  predicate CurrencyTail(s: string) {
    var r := TrimStart(s);
    r == [] || IsCurrencyWord(r)
  }

  /** What may follow the integer digits of a price: an optional `.digits`
      fraction, then a currency tail. The digit runs are taken whole, since
      a shorter run would leave a digit that nothing after it can match. */
  predicate NumeralTail(s: string) {
    if |s| >= 2 && s[0] == '.' && IsDigit(s[1]) then CurrencyTail(s[1 + DigitRun(s[1..])..])
    else CurrencyTail(s)
  }

  /** `/^₹?\d+(\.\d+)?\s*(rupees|rs|rupaye|रुपये|रुपया|रुपय|₹)?$/i`. */
  predicate PriceOnlyPattern(line: string) {
    var p := if line != [] && line[0] == RupeeSign then line[1..] else line;
    var n := DigitRun(p);
    n >= 1 && NumeralTail(p[n..])
  }

  /** `isPriceOnly`: the line is a number with an optional currency, or is
      exactly one of the price words. */
  predicate IsPriceOnly(line: string) {
    PriceOnlyPattern(line) || IsKey(line)
  }

  /** `/(\d{1,6}(?:\.\d+)?\s*(rupees|...|₹)?$)/i`, which is not anchored at
      the start: some digit is followed by a numeral tail. A longer run of
      up to six digits matches exactly when its last digit does. */
  predicate EndsWithPrice(s: string) {
    exists p :: 0 <= p < |s| && IsDigit(s[p]) && NumeralTail(s[p + 1..])
  }

  /** The previous line "already has a price": it ends in a number with an
      optional currency word, or some price word occurs anywhere in it. */
  predicate HasPrice(s: string) {
    EndsWithPrice(s) || SomeKeyContained(s)
  }

  /** The merge appends `line` to the last merged line `last` exactly when
      the line is price-only and `last` has no price. */
  predicate JoinsOnto(last: string, line: string) {
    IsPriceOnly(line) && !HasPrice(last)
  }

  /** One turn of the merge loop, for a rule `joins` on the last merged line
      and the new one: a line the rule accepts is appended, after one space,
      to the last merged line; every other line, and the first, is pushed
      unchanged. */
  function MergeStep(merged: seq<string>, line: string, joins: (string, string) -> bool): (r: seq<string>)
    ensures |r| == if merged != [] && joins(merged[|merged| - 1], line) then |merged| else |merged| + 1
  {
    if merged != [] && joins(merged[|merged| - 1], line) then
      merged[..|merged| - 1] + [merged[|merged| - 1] + " " + line]
    else
      merged + [line]
  }

  /** The merged list after the loop has seen every line, under `joins`. */
  function MergedBy(lines: seq<string>, joins: (string, string) -> bool): seq<string>
    decreases |lines|
  {
    if lines == [] then [] else MergeStep(MergedBy(lines[..|lines| - 1], joins), lines[|lines| - 1], joins)
  }

  /** The merged list of the source's loop. */
  function Merged(lines: seq<string>): seq<string> {
    MergedBy(lines, JoinsOnto)
  }

  /** `merged.filter((l, i, arr) => l && arr.indexOf(l) === i)`: a line is
      kept when it is non-empty and does not occur earlier. */
  function Dedup(s: seq<string>): seq<string>
    decreases |s|
  {
    if s == [] then []
    else
      var init, x := s[..|s| - 1], s[|s| - 1];
      Dedup(init) + (if x != [] && x !in init then [x] else [])
  }

  // ---------------------------------------------------------------------
  // price and quantity tokens

  /** `matchedWord`: the value of the token as a price word, looked up
      exactly, or else through the key the fuzzy matcher returns. */
  function WordPrice(t: string): Option<nat> {
    match Lookup(t)
    case Some(v) => Some(v)
    case None =>
      match KeyOf(FuzzyMatch(t))
      case Some(w) => Lookup(w)
      case None => None
  }

  /** The token with the currency alternatives removed (`numMatch`). */
  function StripCurrency(t: string): string {
    RemoveAll(t, NumberCurrencyAlts)
  }

  /** The price a token stands for, checked in the source's order: a price
      word (exact or fuzzy), then Devanagari digits, then an ASCII numeral
      once currency is stripped. */
  function TokenPrice(t: string): Option<Amount> {
    match WordPrice(t)
    case Some(v) => Some(Amount(v, []))
    case None =>
      if IsDevanagariNumeral(t) then Some(Amount(DevanagariValue(t), []))
      else
        var n := StripCurrency(t);
        if IsNumeral(n) then Some(NumeralValue(n)) else None
  }

  /** The backward scan over `tokens[..k]`: the last token that `price`
      reads as a price. */
  function LastPricedFrom(tokens: seq<string>, k: nat, price: string -> Option<Amount>): (r: PriceToken)
    requires k <= |tokens|
    ensures r.PriceToken? ==> r.index < k
    decreases k
  {
    if k == 0 then NoPriceToken
    else
      match price(tokens[k - 1])
      case Some(v) => PriceToken(k - 1, v)
      case None => LastPricedFrom(tokens, k - 1, price)
  }

  function PriceScan(tokens: seq<string>): (r: PriceToken)
    ensures r.PriceToken? ==> r.index < |tokens|
  {
    LastPricedFrom(tokens, |tokens|, TokenPrice)
  }

  /** A token the quantity check accepts: Devanagari digits, or an ASCII
      numeral once currency is stripped. */
  predicate IsQuantityToken(t: string) {
    IsDevanagariNumeral(t) || IsNumeral(StripCurrency(t))
  }

  /** `quantityIdx === 0`: the first token is a quantity. */
  predicate HasLeadingQuantity(tokens: seq<string>) {
    tokens != [] && IsQuantityToken(tokens[0])
  }

  // ---------------------------------------------------------------------
  // item name and price text

  /** `itemTokens`: the tokens before the price token, or all of them when
      there is none. The source writes the first two cases separately; they
      take the same slice. */
  function ItemTokens(tokens: seq<string>, quantity: bool, p: PriceToken): seq<string>
    requires p.PriceToken? ==> p.index <= |tokens|
  {
    if quantity && p.PriceToken? && p.index > 0 then tokens[..p.index]
    else if p.PriceToken? then tokens[..p.index]
    else tokens
  }

  /** A token stays in the item unless it is a currency word on its own or
      exactly a price word. */
  predicate KeptInItem(t: string) {
    !IsCurrencyWord(t) && !IsKey(t)
  }

  function KeepItemWords(ts: seq<string>): (r: seq<string>)
    ensures |r| <= |ts|
    decreases |ts|
  {
    if ts == [] then []
    else (if KeptInItem(ts[0]) then [ts[0]] else []) + KeepItemWords(ts[1..])
  }

  /** The item before the quantity check and the final clean-up: the kept
      tokens joined by single spaces, trimmed. */
  function RawItem(itemTokens: seq<string>): string {
    Trim(JoinSpaces(KeepItemWords(itemTokens)))
  }

  /** The quantity check of the source: a leading quantity missing from the
      front of a non-empty item is put back in front of it. */
  function WithQuantity(item: string, tokens: seq<string>, quantity: bool): string
    requires quantity ==> tokens != []
  {
    if quantity && item != [] && !IsPrefix(tokens[0], item) then tokens[0] + " " + item else item
  }

  /** `price`: the rupee sign and the value of the price token, or `₹0`. */
  function PriceText(p: PriceToken): string {
    match p
    case PriceToken(_, v) => [RupeeSign] + RenderAmount(v)
    case NoPriceToken => [RupeeSign, '0']
  }

  /** A line is dropped when its item is empty and the price token is its
      first or its last token. */
  predicate IsBarePrice(item: string, tokens: seq<string>, p: PriceToken) {
    item == [] && p.PriceToken? && (p.index == 0 || p.index == |tokens| - 1)
  }

  /** The final clean-up: currency text removed, even inside words, and the
      result trimmed. */
  function CleanItem(item: string): string {
    Trim(RemoveAll(item, CleanupAlts))
  }

  /** The item text of a line of tokens, before the final clean-up. */
  function ItemOf(tokens: seq<string>, p: PriceToken, quantity: bool): string
    requires p.PriceToken? ==> p.index < |tokens|
    requires quantity ==> tokens != []
  {
    WithQuantity(RawItem(ItemTokens(tokens, quantity, p)), tokens, quantity)
  }

  /** The row made from an item and a price, unless the line is skipped. */
  function RowFrom(item: string, price: string, tokens: seq<string>, p: PriceToken): Option<Entry> {
    if IsBarePrice(item, tokens, p) then None
    else
      var cleaned := CleanItem(item);
      if cleaned != [] || price != [] then Some(Entry(cleaned, price)) else None
  }

  /** The row one line of tokens yields, if any. */
  function TokensRow(tokens: seq<string>): Option<Entry> {
    var p := PriceScan(tokens);
    RowFrom(ItemOf(tokens, p, HasLeadingQuantity(tokens)), PriceText(p), tokens, p)
  }

  /** The row one merged line yields, if any. */
  function ParseLine(line: string): Option<Entry> {
    TokensRow(Words(line))
  }

  /** The rows that `row` makes of a list of lines, in order. */
  function Rows(lines: seq<string>, row: string -> Option<Entry>): seq<Entry>
    decreases |lines|
  {
    if lines == [] then []
    else Rows(lines[..|lines| - 1], row) + RowOf(row(lines[|lines| - 1]))
  }

  function RowOf(row: Option<Entry>): seq<Entry> {
    match row
    case Some(e) => [e]
    case None => []
  }

  /** One more line of a prefix adds that line's row. */
  lemma RowsStep(lines: seq<string>, i: nat, row: string -> Option<Entry>, r: Option<Entry>)
    requires i < |lines| && r == row(lines[i])
    ensures Rows(lines[..i + 1], row) == Rows(lines[..i], row) + RowOf(r)
  {
    assert lines[..i + 1][..i] == lines[..i];
  }

  /** The rows of a list of merged lines. */
  function ParseLines(lines: seq<string>): seq<Entry> {
    Rows(lines, ParseLine)
  }

  /** `parseItemsAndPrices(text)`. */
  function Parse(text: string): seq<Entry> {
    ParseLines(Dedup(Merged(InputLines(text))))
  }

  // ---------------------------------------------------------------------
  // the loops of the source

  /** The merge loop: `merged` grows by a push or by `+=` on its last line. */
  method MergeLines(lines: seq<string>) returns (merged: seq<string>)
    ensures merged == Merged(lines)
  {
    merged := [];
    for i := 0 to |lines|
      invariant merged == MergedBy(lines[..i], JoinsOnto)
    {
      var line := lines[i];
      if IsPriceOnly(line) {
        if |merged| > 0 && !(EndsWithPrice(merged[|merged| - 1]) || SomeKeyContained(merged[|merged| - 1])) {
          merged := merged[..|merged| - 1] + [merged[|merged| - 1] + " " + line];
        } else {
          merged := merged + [line];
        }
      } else {
        merged := merged + [line];
      }
      assert lines[..i + 1][..i] == lines[..i];
    }
    assert lines[..|lines|] == lines;
  }

  /** Devanagari digits read the same through `hindiWordToNumber`. */
  lemma HindiWordToNumberOfNumeral(t: string)
    requires IsDevanagariNumeral(t)
    ensures HindiWordToNumber(t) == Some(DevanagariValue(t))
  {
    assert IsTrimmed(t);
    TrimOfTrimmed(t);
    NumeralIsNotKey(t);
  }

  /** The backward price scan, breaking at the first token from the end
      that reads as a price. */
  method FindPrice(tokens: seq<string>) returns (p: PriceToken)
    ensures p == PriceScan(tokens)
  {
    p := NoPriceToken;
    var i := |tokens| - 1;
    while i >= 0
      invariant -1 <= i < |tokens|
      invariant PriceScan(tokens) == LastPricedFrom(tokens, i + 1, TokenPrice)
    {
      var t := tokens[i];
      var matched := Lookup(t);
      if matched.None? {
        var fuzzy := FuzzyMatchHindiWord(t);
        if fuzzy.Some? {
          matched := Lookup(fuzzy.value);
        }
      }
      if matched.Some? {
        return PriceToken(i, Amount(matched.value, []));
      }
      if IsDevanagariNumeral(t) {
        HindiWordToNumberOfNumeral(t);
        return PriceToken(i, Amount(HindiWordToNumber(t).value, []));
      }
      var numMatch := StripCurrency(t);
      if IsNumeral(numMatch) {
        return PriceToken(i, NumeralValue(numMatch));
      }
      i := i - 1;
    }
  }

  /** The quantity loop: only index 0 is ever examined. */
  method FindQuantity(tokens: seq<string>) returns (quantity: bool)
    ensures quantity == HasLeadingQuantity(tokens)
  {
    quantity := false;
    for i := 0 to |tokens|
      invariant !quantity
      invariant i > 0 ==> !IsQuantityToken(tokens[0])
    {
      if i == 0 {
        if IsDevanagariNumeral(tokens[i]) {
          return true;
        }
        var numMatch := StripCurrency(tokens[i]);
        if IsNumeral(numMatch) {
          return true;
        }
      }
    }
  }

  /** The body of the source's loop over the merged lines: the row one line
      yields, or none where the source skips the line with `continue` or
      does not push. */
  method ParseMergedLine(line: string) returns (row: Option<Entry>)
    ensures row == ParseLine(line)
  {
    var tokens := Words(line);
    var p := FindPrice(tokens);
    var quantity := FindQuantity(tokens);
    var item := RawItem(ItemTokens(tokens, quantity, p));
    if quantity && item != [] && !IsPrefix(tokens[0], item) {
      item := tokens[0] + " " + item;
    }
    var price := PriceText(p);
    if item == [] && p.PriceToken? && (p.index == 0 || p.index == |tokens| - 1) {
      return None;
    }
    item := CleanItem(item);
    if item != [] || price != [] {
      return Some(Entry(item, price));
    }
    return None;
  }

  /** The source's loop over the merged lines, pushing each line's row. */
  method ParseMergedLines(merged: seq<string>) returns (results: seq<Entry>)
    ensures results == ParseLines(merged)
  {
    results := [];
    for i := 0 to |merged|
      invariant results == Rows(merged[..i], ParseLine)
    {
      var row := ParseMergedLine(merged[i]);
      RowsStep(merged, i, ParseLine, row);
      results := results + RowOf(row);
    }
    assert merged[..|merged|] == merged;
  }

  /** `parseItemsAndPrices`: split, merge, drop repeats, then the rows of
      the merged lines in order. */
  method ParseItemsAndPrices(text: string) returns (results: seq<Entry>)
    ensures results == Parse(text)
  {
    var lines := InputLines(text);
    var merged := MergeLines(lines);
    merged := Dedup(merged);
    results := ParseMergedLines(merged);
  }
}
