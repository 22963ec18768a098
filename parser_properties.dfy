/** What the transcript parser promises, stage by stage: the lines it
    reads, the merge of a price spoken after a pause, the removal of
    repeated lines, the price of a token, the row of a line, and the rows
    of a whole utterance. */
module ParserProperties {
  import opened Strings
  import opened HindiNumbers
  import opened Parser
  import opened Lists

  // ---------------------------------------------------------------------
  // lines

  /** What the merge receives: a non-empty trimmed line without line breaks. */
  predicate IsCleanLine(l: string) {
    l != [] && IsTrimmed(l) && '\n' !in l
  }

  /** The pieces' lines are the first piece's line, if any, then the rest's. */
  lemma CleanLinesCons(x: string, rest: seq<string>)
    ensures CleanLines([x] + rest) == CleanLines([x]) + CleanLines(rest)
  {
    assert ([x] + rest)[1..] == rest;
    assert [x][1..] == [];
  }

  lemma {:induction false} CleanLinesConcat(a: seq<string>, b: seq<string>)
    ensures CleanLines(a + b) == CleanLines(a) + CleanLines(b)
    decreases |a|
  {
    if a != [] {
      assert a == [a[0]] + a[1..];
      assert a + b == [a[0]] + (a[1..] + b);
      CleanLinesCons(a[0], a[1..] + b);
      CleanLinesCons(a[0], a[1..]);
      CleanLinesConcat(a[1..], b);
    } else {
      assert a + b == b;
    }
  }

  lemma {:induction false} CleanLinesShape(pieces: seq<string>)
    requires forall k :: 0 <= k < |pieces| ==> '\n' !in pieces[k]
    ensures forall l :: l in CleanLines(pieces) ==> IsCleanLine(l)
    decreases |pieces|
  {
    if pieces != [] {
      CleanLinesShape(pieces[1..]);
      TrimIsTrimmed(pieces[0]);
      TrimChars(pieces[0]);
    }
  }

  lemma {:induction false} CleanLinesOfBlank(pieces: seq<string>)
    requires forall k :: 0 <= k < |pieces| ==> AllSpace(pieces[k])
    ensures CleanLines(pieces) == []
    decreases |pieces|
  {
    if pieces != [] {
      TrimEmptyIff(pieces[0]);
      CleanLinesOfBlank(pieces[1..]);
    }
  }

  /** Every line is non-empty, trimmed and free of line breaks. */
  lemma InputLinesShape(text: string)
    ensures forall l :: l in InputLines(text) ==> IsCleanLine(l)
  {
    SplitPiecesHaveNoSeparator(text, '\n');
    CleanLinesShape(Split(text, '\n'));
  }

  /** Blank input has no lines. */
  lemma InputLinesOfBlank(text: string)
    requires AllSpace(text)
    ensures InputLines(text) == []
  {
    SplitOfAllSpace(text, '\n');
    CleanLinesOfBlank(Split(text, '\n'));
  }

  /** The lines of two texts joined by a line break are the lines of the
      first followed by the lines of the second. */
  lemma InputLinesConcat(a: string, b: string)
    requires '\n' !in a
    ensures InputLines(a + "\n" + b) == InputLines(a) + InputLines(b)
  {
    SplitConcat(a, b, '\n');
    CleanLinesConcat(Split(a, '\n'), Split(b, '\n'));
  }

  /** Text without a line break is one line, trimmed, unless it is blank. */
  lemma InputLinesOfOneLine(s: string)
    requires '\n' !in s
    ensures InputLines(s) == if AllSpace(s) then [] else [Trim(s)]
  {
    SplitWithoutSeparator(s, '\n');
    TrimEmptyIff(s);
    assert [s][1..] == [];
    assert CleanLines([s]) == (if Trim(s) == [] then [] else [Trim(s)]) + CleanLines([]);
  }

  // ---------------------------------------------------------------------
  // merging

  /** Merging never adds lines, and keeps at least one. */
  lemma {:induction false} MergedSize(lines: seq<string>, joins: (string, string) -> bool)
    ensures |MergedBy(lines, joins)| <= |lines|
    ensures lines != [] ==> MergedBy(lines, joins) != []
    decreases |lines|
  {
    if lines != [] {
      MergedSize(lines[..|lines| - 1], joins);
    }
  }

  /** One step of the merge reads the same as appending the line. */
  lemma MergeStepKeepsText(m: seq<string>, line: string, joins: (string, string) -> bool)
    ensures JoinSpaces(MergeStep(m, line, joins)) == JoinSpaces(m + [line])
  {
    JoinSnoc(m, line, " ");
    if m != [] && joins(m[|m| - 1], line) {
      var front, last := m[..|m| - 1], m[|m| - 1];
      assert m == front + [last];
      JoinSnoc(front, last, " ");
      JoinSnoc(front, last + " " + line, " ");
    }
  }

  /** Merging only turns some line breaks into single spaces: the lines
      joined by spaces read the same before and after. */
  lemma {:induction false} MergedKeepsText(lines: seq<string>, joins: (string, string) -> bool)
    ensures JoinSpaces(MergedBy(lines, joins)) == JoinSpaces(lines)
    decreases |lines|
  {
    if lines != [] {
      var init, line := lines[..|lines| - 1], lines[|lines| - 1];
      var m := MergedBy(init, joins);
      MergedKeepsText(init, joins);
      MergedSize(init, joins);
      MergeStepKeepsText(m, line, joins);
      assert lines == init + [line];
      JoinSnoc(init, line, " ");
      JoinSnoc(m, line, " ");
    }
  }

  /** A list no line of which the rule joins onto anything is not merged. */
  lemma {:induction false} MergedByWithoutJoins(lines: seq<string>, joins: (string, string) -> bool)
    requires forall k, last :: 0 <= k < |lines| ==> !joins(last, lines[k])
    ensures MergedBy(lines, joins) == lines
    decreases |lines|
  {
    if lines != [] {
      MergedByWithoutJoins(lines[..|lines| - 1], joins);
      assert lines == lines[..|lines| - 1] + [lines[|lines| - 1]];
    }
  }

  /** Without price-only lines nothing is merged. */
  lemma MergedWithoutPriceOnly(lines: seq<string>)
    requires forall k :: 0 <= k < |lines| ==> !IsPriceOnly(lines[k])
    ensures Merged(lines) == lines
  {
    MergedByWithoutJoins(lines, JoinsOnto);
  }

  /** Merged lines are still non-empty, trimmed and free of line breaks. */
  lemma {:induction false} MergedLinesClean(lines: seq<string>, joins: (string, string) -> bool)
    requires forall l :: l in lines ==> IsCleanLine(l)
    ensures forall l :: l in MergedBy(lines, joins) ==> IsCleanLine(l)
    decreases |lines|
  {
    if lines != [] {
      var init, line := lines[..|lines| - 1], lines[|lines| - 1];
      assert forall l :: l in init ==> l in lines;
      assert line in lines;
      MergedLinesClean(init, joins);
      var m := MergedBy(init, joins);
      if m != [] && joins(m[|m| - 1], line) {
        var last := m[|m| - 1];
        assert last in m;
        JoinedCleanLine(last, line);
        assert forall l :: l in m[..|m| - 1] ==> l in m;
      }
    }
  }

  lemma JoinedCleanLine(a: string, b: string)
    requires IsCleanLine(a) && IsCleanLine(b)
    ensures IsCleanLine(a + " " + b)
  {
    var j := a + " " + b;
    assert j[0] == a[0] && j[|j| - 1] == b[|b| - 1];
    assert forall c :: c in j ==> c in a || c == ' ' || c in b;
  }

  // ---------------------------------------------------------------------
  // dropping repeated lines

  /** The kept lines are exactly the distinct non-empty lines, and each is
      kept once. */
  lemma {:induction false} DedupMembers(s: seq<string>)
    ensures forall x :: x in Dedup(s) <==> x in s && x != []
    ensures NoDuplicates(Dedup(s))
    ensures |Dedup(s)| <= |s|
    decreases |s|
  {
    if s != [] {
      var init, x := s[..|s| - 1], s[|s| - 1];
      DedupMembers(init);
      assert s == init + [x];
    }
  }

  /** The kept lines appear in the order of their first occurrence. */
  lemma {:induction false} DedupOrder(s: seq<string>)
    ensures forall i, j :: 0 <= i < j < |Dedup(s)| ==>
      Dedup(s)[i] in s && Dedup(s)[j] in s && FirstIndex(s, Dedup(s)[i]) < FirstIndex(s, Dedup(s)[j])
    decreases |s|
  {
    if s != [] {
      var init, x := s[..|s| - 1], s[|s| - 1];
      var d := Dedup(init);
      DedupOrder(init);
      DedupMembers(init);
      DedupMembers(s);
      assert s == init + [x];
      forall y | y in d ensures FirstIndex(s, y) == FirstIndex(init, y) {
        FirstIndexSnoc(init, x, y);
      }
      if x != [] && x !in init {
        assert FirstIndex(s, x) == |init| by {
          forall k | 0 <= k < |init| ensures s[k] != x {
            assert init[k] in init;
          }
          FirstIndexNotBefore(s, x, |init|);
        }
        var r := Dedup(s);
        assert r == d + [x];
        forall i, j | 0 <= i < j < |r|
          ensures r[i] in s && r[j] in s && FirstIndex(s, r[i]) < FirstIndex(s, r[j])
        {
          assert r[i] == d[i] && r[i] in d;
          assert FirstIndex(s, r[i]) == FirstIndex(init, r[i]);
          if j < |d| {
            assert r[j] == d[j] && r[j] in d;
            assert FirstIndex(s, r[j]) == FirstIndex(init, r[j]);
            assert FirstIndex(init, d[i]) < FirstIndex(init, d[j]);
          } else {
            assert FirstIndex(init, r[i]) < |init|;
          }
        }
      } else {
        assert Dedup(s) == d;
        forall i, j | 0 <= i < j < |d|
          ensures d[i] in s && d[j] in s && FirstIndex(s, d[i]) < FirstIndex(s, d[j])
        {
          assert d[i] in d && d[j] in d;
          assert FirstIndex(init, d[i]) < FirstIndex(init, d[j]);
        }
      }
    } else {
      assert Dedup(s) == [];
    }
  }

  /** Lines that are already distinct and non-empty are all kept. */
  lemma {:induction false} DedupOfDistinct(s: seq<string>)
    requires NoDuplicates(s)
    requires forall k :: 0 <= k < |s| ==> s[k] != []
    ensures Dedup(s) == s
    decreases |s|
  {
    if s != [] {
      var init, x := s[..|s| - 1], s[|s| - 1];
      assert NoDuplicates(init);
      DedupOfDistinct(init);
      assert x !in init by {
        forall k | 0 <= k < |init| ensures init[k] != x {
          assert init[k] == s[k];
        }
      }
      assert s == init + [x];
    }
  }

  /** Dropping repeats a second time changes nothing. */
  lemma DedupIdempotent(s: seq<string>)
    ensures Dedup(Dedup(s)) == Dedup(s)
  {
    DedupMembers(s);
    var d := Dedup(s);
    assert forall k :: 0 <= k < |d| ==> d[k] in d;
    DedupOfDistinct(d);
  }

  // ---------------------------------------------------------------------
  // numbers

  predicate NoTrailingZero(s: string) {
    s == [] || s[|s| - 1] != '0'
  }

  /** The amounts a numeral can read as: digits after the point, and no
      trailing zero among them. */
  predicate IsReadAmount(a: Amount) {
    AllDigits(a.frac) && NoTrailingZero(a.frac)
  }

  lemma {:induction false} DigitRunOfDigits(s: string, rest: string)
    requires AllDigits(s)
    requires rest == [] || !IsDigit(rest[0])
    ensures DigitRun(s + rest) == |s|
    decreases |s|
  {
    if s != [] {
      assert (s + rest)[1..] == s[1..] + rest;
      DigitRunOfDigits(s[1..], rest);
    } else {
      assert s + rest == rest;
    }
  }

  lemma {:induction false} StripTrailingZerosMeaning(s: string)
    requires AllDigits(s)
    ensures AllDigits(StripTrailingZeros(s)) && NoTrailingZero(StripTrailingZeros(s))
    ensures NoTrailingZero(s) ==> StripTrailingZeros(s) == s
    decreases |s|
  {
    if s != [] && s[|s| - 1] == '0' {
      StripTrailingZerosMeaning(s[..|s| - 1]);
    }
  }

  /** Every numeral reads as a well-formed amount. */
  lemma NumeralValueIsReadAmount(s: string)
    requires IsNumeral(s)
    ensures IsReadAmount(NumeralValue(s))
  {
    var n := DigitRun(s);
    if n < |s| {
      StripTrailingZerosMeaning(s[n + 1..]);
    }
  }

  /** Writing an amount out and reading it back gives the same amount. */
  lemma RenderAmountRoundTrip(a: Amount)
    requires IsReadAmount(a)
    ensures IsNumeral(RenderAmount(a))
    ensures NumeralValue(RenderAmount(a)) == a
  {
    var w := NatToString(a.whole);
    var r := RenderAmount(a);
    DigitsValueOfNatToString(a.whole);
    if a.frac == [] {
      DigitRunOfDigits(w, []);
      assert r == w + [];
      assert r[..|w|] == w;
    } else {
      var tail := "." + a.frac;
      DigitRunOfDigits(w, tail);
      assert r == w + tail;
      assert r[..|w|] == w;
      assert r[|w| + 1..] == a.frac;
      StripTrailingZerosMeaning(a.frac);
    }
  }

  // ---------------------------------------------------------------------
  // tokens

  /** The constant lists hold no digits where it matters: no stripped
      alternative starts with a digit, and no currency word holds a digit of
      either script. */
  lemma CurrencyListFacts()
    ensures NonEmptyAlts(NumberCurrencyAlts)
    ensures forall k :: 0 <= k < |NumberCurrencyAlts| ==> !IsDigit(NumberCurrencyAlts[k][0])
    ensures forall w, c :: w in CurrencyWords && c in w ==> !IsDigit(c) && !IsDevanagariDigit(c)
  {
  }

  /** A string holding a digit of either script is not a price word. */
  lemma DigitTokenIsNotKey(t: string, i: nat)
    requires i < |t| && (IsDigit(t[i]) || IsDevanagariDigit(t[i]))
    ensures !IsKey(t)
  {
    DictKeysWellFormed();
    forall k | 0 <= k < |Dict| ensures Dict[k].0 != t {
      assert t[i] in t;
    }
  }

  /** ... nor a currency word, in any case. */
  lemma DigitTokenIsNotCurrency(t: string, i: nat)
    requires i < |t| && (IsDigit(t[i]) || IsDevanagariDigit(t[i]))
    ensures !IsCurrencyWord(t)
  {
    CurrencyListFacts();
    var l := Lower(t);
    assert l[i] == LowerChar(t[i]);
    assert IsDigit(l[i]) || IsDevanagariDigit(l[i]);
    assert l[i] in l;
  }

  /** A token with no character in common with the price words is not
      matched to one, exactly or fuzzily. */
  lemma NoWordPrice(t: string)
    requires forall c :: c in t ==> !KeyChar(LowerChar(c))
    ensures WordPrice(t).None?
  {
    DictKeysWellFormed();
    forall k | 0 <= k < |Dict| ensures Dict[k].0 != t {
      assert Dict[k].0[0] in Dict[k].0;
      assert KeyChar(Dict[k].0[0]);
      assert LowerChar(Dict[k].0[0]) == Dict[k].0[0];
    }
    NoFuzzyMatchWithoutKeyChars(t);
  }

  /** A price word is priced at its listed value. */
  lemma PriceWordPrice(i: nat)
    requires i < |Dict|
    ensures TokenPrice(Dict[i].0) == Some(Amount(Dict[i].1, []))
  {
    LookupOfKey(i);
  }

  /** A token of ASCII digits is priced at its decimal value. */
  lemma AsciiNumberPrice(t: string)
    requires t != [] && AllDigits(t)
    ensures TokenPrice(t) == Some(Amount(DigitsValue(t), []))
  {
    NoWordPrice(t);
    CurrencyListFacts();
    RemoveAllKeepsDigits(t, NumberCurrencyAlts);
    DigitRunOfDigits(t, []);
    assert t + [] == t;
    assert t[..|t|] == t;
  }

  /** A token of Devanagari digits is priced at its positional value. */
  lemma DevanagariNumberPrice(t: string)
    requires IsDevanagariNumeral(t)
    ensures TokenPrice(t) == Some(Amount(DevanagariValue(t), []))
  {
    NoWordPrice(t);
  }

  /** A whole number spoken as digits, in either script, is priced at that number. */
  lemma NumberPrice(n: nat)
    ensures TokenPrice(NatToString(n)) == Some(Amount(n, []))
    ensures TokenPrice(ToDevanagari(n)) == Some(Amount(n, []))
  {
    AsciiNumberPrice(NatToString(n));
    DigitsValueOfNatToString(n);
    DevanagariNumberPrice(ToDevanagari(n));
    DevanagariValueOfToDevanagari(n);
  }

  lemma {:induction false} LastPricedFromMeaning(tokens: seq<string>, k: nat, price: string -> Option<Amount>)
    requires k <= |tokens|
    ensures LastPricedFrom(tokens, k, price).NoPriceToken? <==> forall j :: 0 <= j < k ==> price(tokens[j]).None?
    ensures LastPricedFrom(tokens, k, price).PriceToken? ==>
      && price(tokens[LastPricedFrom(tokens, k, price).index]) == Some(LastPricedFrom(tokens, k, price).value)
      && forall j :: LastPricedFrom(tokens, k, price).index < j < k ==> price(tokens[j]).None?
    decreases k
  {
    if k > 0 && price(tokens[k - 1]).None? {
      LastPricedFromMeaning(tokens, k - 1, price);
    }
  }

  /** The price token is the last token that reads as a price; there is
      none exactly when no token does. */
  lemma PriceScanMeaning(tokens: seq<string>)
    ensures PriceScan(tokens).NoPriceToken? <==> forall j :: 0 <= j < |tokens| ==> TokenPrice(tokens[j]).None?
    ensures PriceScan(tokens).PriceToken? ==>
      && TokenPrice(tokens[PriceScan(tokens).index]) == Some(PriceScan(tokens).value)
      && forall j :: PriceScan(tokens).index < j < |tokens| ==> TokenPrice(tokens[j]).None?
  {
    LastPricedFromMeaning(tokens, |tokens|, TokenPrice);
  }

  /** The price text is the rupee sign and a numeral; reading that numeral
      back gives the price token's amount. */
  lemma PriceTextMeaning(p: PriceToken)
    requires p.PriceToken? ==> IsReadAmount(p.value)
    ensures |PriceText(p)| >= 2 && PriceText(p)[0] == RupeeSign
    ensures IsNumeral(PriceText(p)[1..])
    ensures p.PriceToken? ==> NumeralValue(PriceText(p)[1..]) == p.value
    ensures p.NoPriceToken? ==> NumeralValue(PriceText(p)[1..]) == Amount(0, [])
  {
    match p
    case PriceToken(_, v) =>
      RenderAmountRoundTrip(v);
      assert PriceText(p)[1..] == RenderAmount(v);
    case NoPriceToken =>
      assert PriceText(p)[1..] == "0";
      assert DigitRun("0") == 1;
      assert "0"[..1] == "0";
  }

  /** Every token priced by the scan reads as a well-formed amount. */
  lemma TokenPriceIsReadAmount(t: string)
    requires TokenPrice(t).Some?
    ensures IsReadAmount(TokenPrice(t).value)
  {
    if WordPrice(t).None? && !IsDevanagariNumeral(t) {
      NumeralValueIsReadAmount(StripCurrency(t));
    }
  }

  lemma PriceScanIsReadAmount(tokens: seq<string>)
    ensures PriceScan(tokens).PriceToken? ==> IsReadAmount(PriceScan(tokens).value)
  {
    PriceScanMeaning(tokens);
    if PriceScan(tokens).PriceToken? {
      TokenPriceIsReadAmount(tokens[PriceScan(tokens).index]);
    }
  }

  // ---------------------------------------------------------------------
  // the row of one line

  /** A quantity token is kept in the item: it is neither a currency word
      nor a price word. */
  lemma QuantityTokenIsKept(t: string)
    requires IsQuantityToken(t)
    ensures KeptInItem(t)
  {
    if IsDevanagariNumeral(t) {
      DigitTokenIsNotKey(t, 0);
      DigitTokenIsNotCurrency(t, 0);
    } else {
      var n := StripCurrency(t);
      CurrencyListFacts();
      RemoveAllChars(t, NumberCurrencyAlts);
      assert n[0] in n;
      var i :| 0 <= i < |t| && t[i] == n[0];
      DigitTokenIsNotKey(t, i);
      DigitTokenIsNotCurrency(t, i);
    }
  }

  lemma {:induction false} KeepItemWordsAreWords(ts: seq<string>)
    requires IsWordList(ts)
    ensures IsWordList(KeepItemWords(ts))
    ensures forall w :: w in KeepItemWords(ts) ==> w in ts && KeptInItem(w)
    decreases |ts|
  {
    if ts != [] {
      KeepItemWordsAreWords(ts[1..]);
    }
  }

  /** The item's words are exactly the tokens before the price token that
      are neither currency words nor price words, in order. */
  lemma RawItemWords(itemTokens: seq<string>)
    requires IsWordList(itemTokens)
    ensures Words(RawItem(itemTokens)) == KeepItemWords(itemTokens)
    ensures RawItem(itemTokens) == JoinSpaces(KeepItemWords(itemTokens))
  {
    var kept := KeepItemWords(itemTokens);
    KeepItemWordsAreWords(itemTokens);
    JoinOfWordsIsTrimmed(kept);
    TrimOfTrimmed(JoinSpaces(kept));
    WordsOfJoin(kept);
  }

  lemma {:induction false} JoinStartsWithFirst(ws: seq<string>, sep: string)
    requires ws != []
    ensures IsPrefix(ws[0], Join(ws, sep))
  {
    if |ws| > 1 {
      assert Join(ws, sep) == ws[0] + (sep + Join(ws[1..], sep));
    }
  }

  /** The source's rule that puts a leading quantity back in front of the
      item never changes it: whenever the item is non-empty it already
      starts with that token. */
  lemma QuantityPrefixNeverApplies(tokens: seq<string>, p: PriceToken)
    requires IsWordList(tokens)
    requires p.PriceToken? ==> p.index < |tokens|
    requires HasLeadingQuantity(tokens)
    ensures WithQuantity(RawItem(ItemTokens(tokens, true, p)), tokens, true) == RawItem(ItemTokens(tokens, true, p))
  {
    var its := ItemTokens(tokens, true, p);
    assert IsWordList(its);
    RawItemWords(its);
    var kept := KeepItemWords(its);
    if its != [] {
      assert its[0] == tokens[0];
      QuantityTokenIsKept(tokens[0]);
      assert kept == [its[0]] + KeepItemWords(its[1..]);
      JoinStartsWithFirst(kept, " ");
    }
  }

  /** The last step of `ParseLineMeaning`: given a non-empty price text, a
      row is skipped exactly for a bare price, and otherwise holds the
      cleaned item and that price. */
  lemma RowFromMeaning(item: string, price: string, tokens: seq<string>, p: PriceToken)
    requires price != []
    ensures RowFrom(item, price, tokens, p).None? <==> IsBarePrice(item, tokens, p)
    ensures RowFrom(item, price, tokens, p).Some? ==>
              RowFrom(item, price, tokens, p).value == Entry(CleanItem(item), price)
  {
  }

  /** The item of a line is its kept words joined: the quantity prefix never
      changes it. */
  lemma ItemOfLine(tokens: seq<string>, p: PriceToken)
    requires IsWordList(tokens)
    requires p.PriceToken? ==> p.index < |tokens|
    ensures ItemOf(tokens, p, HasLeadingQuantity(tokens)) ==
            RawItem(ItemTokens(tokens, HasLeadingQuantity(tokens), p))
  {
    if HasLeadingQuantity(tokens) {
      QuantityPrefixNeverApplies(tokens, p);
    }
  }

  /** A line yields no row exactly when its item is empty and its price
      token is its first or its last token; otherwise the row holds the
      cleaned item and the price text. */
  lemma ParseLineMeaning(line: string)
    ensures var tokens := Words(line);
            var p := PriceScan(tokens);
            var item := RawItem(ItemTokens(tokens, HasLeadingQuantity(tokens), p));
            && (ParseLine(line).None? <==> item == [] && p.PriceToken? && (p.index == 0 || p.index == |tokens| - 1))
            && (ParseLine(line).Some? ==> ParseLine(line).value == Entry(CleanItem(item), PriceText(p)))
  {
    var tokens := Words(line);
    var p := PriceScan(tokens);
    assert IsWordList(tokens);
    ItemOfLine(tokens, p);
    PriceScanIsReadAmount(tokens);
    PriceTextMeaning(p);
    RowFromMeaning(ItemOf(tokens, p, HasLeadingQuantity(tokens)), PriceText(p), tokens, p);
  }

  /** The price of every row is the rupee sign and a numeral. */
  lemma ParseLinePrice(line: string)
    requires ParseLine(line).Some?
    ensures var price := ParseLine(line).value.price;
            |price| >= 2 && price[0] == RupeeSign && IsNumeral(price[1..])
  {
    ParseLineMeaning(line);
    PriceScanIsReadAmount(Words(line));
    PriceTextMeaning(PriceScan(Words(line)));
  }

  /** A line whose only token is a price yields no row. */
  lemma LonePriceTokenDropped(t: string)
    requires t != [] && NoSpace(t) && TokenPrice(t).Some?
    ensures ParseLine(t) == None
  {
    WordsOfWord(t);
    ParseLineMeaning(t);
  }

  /** A line without any price token yields a row priced `₹0`. */
  lemma UnpricedLineCostsNothing(line: string)
    requires forall t :: t in Words(line) ==> TokenPrice(t).None?
    ensures ParseLine(line).Some?
    ensures ParseLine(line).value.price == [RupeeSign, '0']
  {
    var tokens := Words(line);
    PriceScanMeaning(tokens);
    assert forall j :: 0 <= j < |tokens| ==> tokens[j] in tokens;
    ParseLineMeaning(line);
  }

  // ---------------------------------------------------------------------
  // the rows of an utterance

  lemma {:induction false} ParseLinesShape(lines: seq<string>)
    ensures |ParseLines(lines)| <= |lines|
    ensures forall e :: e in ParseLines(lines) ==> |e.price| >= 2 && e.price[0] == RupeeSign && IsNumeral(e.price[1..])
    decreases |lines|
  {
    if lines != [] {
      ParseLinesShape(lines[..|lines| - 1]);
      if ParseLine(lines[|lines| - 1]).Some? {
        ParseLinePrice(lines[|lines| - 1]);
      }
    }
  }

  /** The rows of consecutive lines are the rows of each, in order. */
  lemma {:induction false} RowsConcat(a: seq<string>, b: seq<string>, row: string -> Option<Entry>)
    ensures Rows(a + b, row) == Rows(a, row) + Rows(b, row)
    decreases |b|
  {
    if b == [] {
      assert a + b == a;
      assert Rows(b, row) == [];
    } else {
      var init, last := b[..|b| - 1], b[|b| - 1];
      var ab := a + b;
      assert ab[..|ab| - 1] == a + init;
      assert ab[|ab| - 1] == last;
      RowsConcat(a, init, row);
      var r := RowOf(row(last));
      assert Rows(ab, row) == Rows(a + init, row) + r;
      assert Rows(b, row) == Rows(init, row) + r;
    }
  }

  /** No row per input line is ever exceeded, and every row is priced with
      the rupee sign and a numeral. */
  lemma ParseShape(text: string)
    ensures |Parse(text)| <= |InputLines(text)|
    ensures forall e :: e in Parse(text) ==> |e.price| >= 2 && e.price[0] == RupeeSign && IsNumeral(e.price[1..])
  {
    var lines := InputLines(text);
    MergedSize(lines, JoinsOnto);
    DedupMembers(Merged(lines));
    ParseLinesShape(Dedup(Merged(lines)));
  }

  /** Blank input yields no rows. */
  lemma ParseOfBlank(text: string)
    requires AllSpace(text)
    ensures Parse(text) == []
  {
    InputLinesOfBlank(text);
  }

  lemma MergedOfOne(l: string)
    ensures MergedBy([l], JoinsOnto) == [l]
  {
    assert [l][..0] == [];
  }

  lemma MergedOfTwo(a: string, b: string)
    ensures MergedBy([a, b], JoinsOnto) == MergeStep([a], b, JoinsOnto)
  {
    assert [a, b][..1] == [a];
    MergedOfOne(a);
  }

  lemma DedupOfOne(l: string)
    requires l != []
    ensures Dedup([l]) == [l]
  {
    assert [l][..0] == [];
  }

  lemma DedupOfTwo(a: string, b: string)
    requires a != [] && b != [] && a != b
    ensures Dedup([a, b]) == [a, b]
  {
    assert [a, b][..1] == [a];
    DedupOfOne(a);
  }

  lemma RowsOfOne(l: string, row: string -> Option<Entry>)
    ensures Rows([l], row) == RowOf(row(l))
  {
    assert [l][..0] == [];
  }

  /** One clean line goes through the merge and the removal of repeats
      unchanged. */
  lemma ParseOfCleanLine(line: string)
    requires IsCleanLine(line)
    ensures Parse(line) == ParseLines([line])
  {
    InputLinesOfOneLine(line);
    TrimOfTrimmed(line);
    MergedOfOne(line);
    DedupOfOne(line);
  }

  /** A clean line that yields no row makes an utterance with no rows. */
  lemma ParseOfDroppedLine(line: string)
    requires IsCleanLine(line) && ParseLine(line).None?
    ensures Parse(line) == []
  {
    ParseOfCleanLine(line);
    RowsOfOne(line, ParseLine);
  }

  /** A number said on its own is not a bill row. */
  lemma ParseOfLoneNumber(d: string)
    requires d != [] && AllDigits(d)
    ensures Parse(d) == []
  {
    assert IsCleanLine(d) && NoSpace(d);
    AsciiNumberPrice(d);
    LonePriceTokenDropped(d);
    ParseOfDroppedLine(d);
  }

  /** The two clean lines `a` and `b`, as the merge receives them. */
  lemma InputLinesOfTwo(a: string, b: string)
    requires IsCleanLine(a) && IsCleanLine(b)
    ensures InputLines(a + "\n" + b) == [a, b]
  {
    InputLinesConcat(a, b);
    InputLinesOfOneLine(a);
    InputLinesOfOneLine(b);
    TrimOfTrimmed(a);
    TrimOfTrimmed(b);
  }

  /** A price said after a pause, so that it arrives as its own line, is
      read as if it had been said on the line before it, when that line
      has no price yet. */
  lemma PauseSplitPriceIsRejoined(a: string, p: string)
    requires IsCleanLine(a) && IsCleanLine(p)
    requires IsPriceOnly(p) && !HasPrice(a)
    ensures Parse(a + "\n" + p) == Parse(a + " " + p)
  {
    InputLinesOfTwo(a, p);
    MergedOfTwo(a, p);
    JoinedCleanLine(a, p);
    DedupOfOne(a + " " + p);
    ParseOfCleanLine(a + " " + p);
  }

  /** A price-only line after a line that already has a price stays a
      line of its own. */
  lemma PricedLineKeepsNextLine(a: string, p: string)
    requires IsCleanLine(a) && IsCleanLine(p) && a != p
    requires HasPrice(a)
    ensures Parse(a + "\n" + p) == ParseLines([a, p])
  {
    InputLinesOfTwo(a, p);
    MergedOfTwo(a, p);
    DedupOfTwo(a, p);
  }
}
