/** The spoken price words of app/billing.js (`specialHindiNumbers`), the
    fuzzy matcher over them (`fuzzyMatchHindiWord`) and the reading of
    numbers written in Devanagari digits (`hindiWordToNumber`). */
module HindiNumbers {
  import opened Strings
  import opened Levenshtein

  /** The price words and their values, in declaration order; the order
      decides which key the fuzzy matcher returns. */
  const Dict: seq<(string, nat)> := [
    ("डाइशो", 250),
    ("डाईशो", 250),
    ("ढाई सौ", 250),
    ("ढाईसो", 250),
    ("ढाई सो", 250),
    ("ढईसो", 250),
    ("ढई सो", 250),
    ("ढई सौ", 250),
    ("dhaiso", 250),
    ("dhaiso rupee", 250),
    ("dhai sau", 250),
    ("dhai so", 250),
    ("dhaai sau", 250),
    ("dhaai so", 250),
    ("dhaai", 250),
    ("डेढ़ सौ", 150),
    ("डेड़ सौ", 150),
    ("डेढ़ सो", 150),
    ("डेड़ सो", 150),
    ("डेढ सौ", 150),
    ("डेढ सो", 150),
    ("darso", 150),
    ("darso rupee", 150),
    ("dedh sau", 150),
    ("dedh so", 150),
    ("derh sau", 150),
    ("derh so", 150),
    ("dedh", 150),
    ("dairso", 150),
    ("dairso rupee", 150),
    ("dair sau", 150),
    ("dair so", 150),
    ("dair", 150)
  ]

  /** Largest edit distance at which a fuzzy match is accepted. */
  const Threshold: nat := 2

  /** Initial value of the best distance seen, above any accepted one. */
  const NoMatchDist: nat := 99

  function Key(k: nat): string
    requires k < |Dict|
  {
    Dict[k].0
  }

  predicate IsKey(t: string) {
    exists k :: 0 <= k < |Dict| && Dict[k].0 == t
  }

  function LookupFrom(t: string, k: nat): (r: Option<nat>)
    ensures r.Some? <==> exists j :: k <= j < |Dict| && Dict[j].0 == t
    ensures r.Some? ==> exists j :: k <= j < |Dict| && Dict[j] == (t, r.value)
    decreases |Dict| - k
  {
    if k >= |Dict| then None
    else if Dict[k].0 == t then Some(Dict[k].1)
    else LookupFrom(t, k + 1)
  }

  /** `specialHindiNumbers[t]` for the dictionary's own keys: the value of
      the key equal to `t`, if there is one. */
  function Lookup(t: string): (r: Option<nat>)
    ensures r.Some? <==> IsKey(t)
  {
    LookupFrom(t, 0)
  }

  // ---------------------------------------------------------------------
  // facts about the dictionary

  /** The characters the keys are written in: a space, lower-case ASCII
      letters and Devanagari letters and signs (all below the digits). */
  predicate KeyChar(c: char) {
    c == ' ' || ('a' <= c <= 'z') || ('\U{0900}' <= c < '\U{0966}')
  }

  predicate WellFormedKey(k: string) {
    && |k| >= 4
    && (k[0] == 'd' || k[0] == '\U{0921}' || k[0] == '\U{0922}')
    && forall c :: c in k ==> KeyChar(c)
  }

  lemma DictKeysWellFormedBelow(n: nat)
    requires n <= 16
    ensures forall k :: 0 <= k < n ==> WellFormedKey(Dict[k].0)
  {
  }

  lemma DictKeysWellFormedFrom(n: nat)
    requires 16 <= n
    ensures forall k :: n <= k < |Dict| ==> WellFormedKey(Dict[k].0)
  {
  }

  /** Every key has at least four characters, starts with `d`, `ड` or `ढ`,
      and uses no digit of either script. */
  lemma DictKeysWellFormed()
    ensures forall k :: 0 <= k < |Dict| ==> WellFormedKey(Dict[k].0)
  {
    DictKeysWellFormedBelow(16);
    DictKeysWellFormedFrom(16);
  }

  /** The value a key's first two characters announce: keys for two and a
      half hundred begin with `ढ`, `डा` or `dh`; the others, for one and a
      half hundred, begin with `डे`, `da` or `de`. */
  function ValueOfShape(k: string): nat {
    if |k| >= 2 && (k[0] == '\U{0922}' || (k[0] == '\U{0921}' && k[1] == '\U{093E}') || (k[0] == 'd' && k[1] == 'h'))
    then 250 else 150
  }

  lemma ValuesByShapeBelow(n: nat)
    requires n <= 16
    ensures forall k :: 0 <= k < n ==> Dict[k].1 == ValueOfShape(Dict[k].0)
  {
  }

  lemma ValuesByShapeFrom(n: nat)
    requires 16 <= n
    ensures forall k :: n <= k < |Dict| ==> Dict[k].1 == ValueOfShape(Dict[k].0)
  {
  }

  /** Each value is fixed by its key, so keys listed twice could not
      disagree. */
  lemma DictValuesByShape()
    ensures forall k :: 0 <= k < |Dict| ==> Dict[k].1 == ValueOfShape(Dict[k].0)
  {
    ValuesByShapeBelow(16);
    ValuesByShapeFrom(16);
  }

  /** Looking up a key gives the value listed with it. */
  lemma LookupOfKey(i: nat)
    requires i < |Dict|
    ensures Lookup(Dict[i].0) == Some(Dict[i].1)
  {
    DictValuesByShape();
    assert IsKey(Dict[i].0);
    var j :| 0 <= j < |Dict| && Dict[j] == (Dict[i].0, Lookup(Dict[i].0).value);
    assert Dict[j].1 == ValueOfShape(Dict[i].0);
  }

  // ---------------------------------------------------------------------
  // fuzzy matching

  /** The distance the matcher compares: both sides lower-cased. */
  function KeyDist(t: string, k: nat): nat
    requires k < |Dict|
  {
    Distance(Lower(t), Lower(Dict[k].0))
  }

  /** The distance of `t` to every key, in declaration order. */
  function KeyDists(t: string): (ds: seq<nat>)
    ensures |ds| == |Dict|
    ensures forall k :: 0 <= k < |Dict| ==> ds[k] == KeyDist(t, k)
  {
    seq(|Dict|, k requires 0 <= k < |Dict| => KeyDist(t, k))
  }

  /** Whether each key, in declaration order, occurs inside `t`. */
  function KeysContained(t: string): (cs: seq<bool>)
    ensures |cs| == |Dict|
    ensures forall k :: 0 <= k < |Dict| ==> cs[k] == Contains(t, Dict[k].0)
  {
    seq(|Dict|, k requires 0 <= k < |Dict| => Contains(t, Dict[k].0))
  }

  /** The matcher's loop from key `k` on, given whether each key `j` occurs
      in the token (`cs[j]`), its distance to the token (`ds[j]`), and the
      best key and distance found so far: a key contained in the token is
      returned at once; otherwise a key strictly closer than the best so
      far, within the threshold, becomes the best. */
  function FuzzyFrom(cs: seq<bool>, ds: seq<nat>, k: nat, best: Option<nat>, bestDist: nat): (r: Option<nat>)
    requires |cs| == |ds| && k <= |ds|
    requires best.Some? ==> best.value < |ds|
    ensures r.Some? ==> r.value < |ds|
    decreases |ds| - k
  {
    if k == |ds| then best
    else if cs[k] then Some(k)
    else if ds[k] < bestDist && ds[k] <= Threshold then FuzzyFrom(cs, ds, k + 1, Some(k), ds[k])
    else FuzzyFrom(cs, ds, k + 1, best, bestDist)
  }

  /** `fuzzyMatchHindiWord(t)` for a single token `t`, as the index of the
      key it returns. */
  function FuzzyMatch(t: string): (r: Option<nat>)
    ensures r.Some? ==> r.value < |Dict|
  {
    FuzzyFrom(KeysContained(t), KeyDists(t), 0, None, NoMatchDist)
  }

  function KeyOf(r: Option<nat>): Option<string>
    requires r.Some? ==> r.value < |Dict|
  {
    match r
    case Some(k) => Some(Dict[k].0)
    case None => None
  }

  /** Entry `i` is the first true entry of `cs`. */
  predicate FirstTrue(cs: seq<bool>, i: nat) {
    i < |cs| && cs[i] && forall j :: 0 <= j < i ==> !cs[j]
  }

  /** Key `i` is the first key, in declaration order, contained in `t`. */
  predicate FirstContainedKey(t: string, i: nat) {
    && i < |Dict|
    && Contains(t, Dict[i].0)
    && forall j :: 0 <= j < i ==> !Contains(t, Dict[j].0)
  }

  /** Of the distances `ds`, entry `i` is within the threshold, no entry is
      smaller, and every earlier entry is strictly larger. */
  predicate Nearest(ds: seq<nat>, i: nat) {
    && i < |ds|
    && ds[i] <= Threshold
    && (forall j :: 0 <= j < |ds| ==> ds[j] >= ds[i])
    && (forall j :: 0 <= j < i ==> ds[j] > ds[i])
  }

  /** Key `i` is within the threshold of `t`, no key is closer, and every
      earlier key is strictly farther. */
  predicate NearestKey(t: string, i: nat) {
    Nearest(KeyDists(t), i)
  }

  /** What the matcher's variables satisfy before it looks at entry `k`: no
      earlier entry is contained; with no best entry yet, every earlier one
      is beyond the threshold; otherwise the best one is within it, no
      earlier one is closer and every one before the best is farther. */
  ghost predicate FuzzyInvariant(cs: seq<bool>, ds: seq<nat>, k: nat, best: Option<nat>, bestDist: nat) {
    && |cs| == |ds| && k <= |ds|
    && (forall j :: 0 <= j < k ==> !cs[j])
    && (best.None? ==> bestDist == NoMatchDist && forall j :: 0 <= j < k ==> ds[j] > Threshold)
    && (best.Some? ==> best.value < k && bestDist == ds[best.value] <= Threshold)
    && (best.Some? ==> forall j :: 0 <= j < k ==> ds[j] >= bestDist)
    && (best.Some? ==> forall j :: 0 <= j < best.value ==> ds[j] > bestDist)
  }

  predicate SomeKeyContained(t: string) {
    exists i :: 0 <= i < |Dict| && Contains(t, Dict[i].0)
  }

  /** The matcher's answer `r`, stated without its loop. */
  ghost predicate FuzzyAnswer(cs: seq<bool>, ds: seq<nat>, r: Option<nat>) {
    && ((exists i :: 0 <= i < |cs| && cs[i]) ==> r.Some? && FirstTrue(cs, r.value))
    && ((forall i :: 0 <= i < |cs| ==> !cs[i]) ==>
          && (r.Some? ==> Nearest(ds, r.value))
          && (r.None? <==> forall i :: 0 <= i < |ds| ==> ds[i] > Threshold))
  }

  lemma FuzzyFromEnd(cs: seq<bool>, ds: seq<nat>, best: Option<nat>, bestDist: nat)
    requires FuzzyInvariant(cs, ds, |ds|, best, bestDist)
    ensures FuzzyAnswer(cs, ds, best)
  {
  }

  lemma FuzzyFromFound(cs: seq<bool>, ds: seq<nat>, k: nat, best: Option<nat>, bestDist: nat)
    requires k < |ds| && FuzzyInvariant(cs, ds, k, best, bestDist)
    requires cs[k]
    ensures FuzzyAnswer(cs, ds, Some(k))
  {
    assert FirstTrue(cs, k);
  }

  lemma FuzzyFromStep(cs: seq<bool>, ds: seq<nat>, k: nat, best: Option<nat>, bestDist: nat)
    requires k < |ds| && FuzzyInvariant(cs, ds, k, best, bestDist)
    requires !cs[k]
    ensures ds[k] < bestDist && ds[k] <= Threshold ==>
      FuzzyInvariant(cs, ds, k + 1, Some(k), ds[k])
    ensures !(ds[k] < bestDist && ds[k] <= Threshold) ==>
      FuzzyInvariant(cs, ds, k + 1, best, bestDist)
  {
  }

  lemma {:induction false} FuzzyFromMeaning(cs: seq<bool>, ds: seq<nat>, k: nat, best: Option<nat>, bestDist: nat)
    requires FuzzyInvariant(cs, ds, k, best, bestDist)
    requires best.Some? ==> best.value < |ds|
    ensures FuzzyAnswer(cs, ds, FuzzyFrom(cs, ds, k, best, bestDist))
    decreases |ds| - k
  {
    if k == |ds| {
      FuzzyFromEnd(cs, ds, best, bestDist);
    } else if cs[k] {
      FuzzyFromFound(cs, ds, k, best, bestDist);
    } else {
      FuzzyFromStep(cs, ds, k, best, bestDist);
      if ds[k] < bestDist && ds[k] <= Threshold {
        FuzzyFromMeaning(cs, ds, k + 1, Some(k), ds[k]);
      } else {
        FuzzyFromMeaning(cs, ds, k + 1, best, bestDist);
      }
    }
  }

  /** What the matcher returns: when some key occurs inside the token, the
      first such key in declaration order; otherwise the earliest key at the
      smallest lower-cased edit distance, provided that distance is at most
      two, and nothing when every key is farther. */
  lemma FuzzyMatchMeaning(t: string)
    ensures SomeKeyContained(t) ==> FuzzyMatch(t).Some? && FirstContainedKey(t, FuzzyMatch(t).value)
    ensures !SomeKeyContained(t) ==>
      (FuzzyMatch(t).Some? ==> NearestKey(t, FuzzyMatch(t).value))
      && (FuzzyMatch(t).None? <==> forall i :: 0 <= i < |Dict| ==> KeyDist(t, i) > Threshold)
  {
    var cs, ds := KeysContained(t), KeyDists(t);
    FuzzyFromMeaning(cs, ds, 0, None, NoMatchDist);
    var r := FuzzyMatch(t);
    if SomeKeyContained(t) {
      var i :| 0 <= i < |Dict| && Contains(t, Dict[i].0);
      assert cs[i];
      assert FirstTrue(cs, r.value);
    } else {
      assert forall i :: 0 <= i < |cs| ==> !cs[i];
    }
  }

  /** The edit distance between `t` and key `k`, both lower-cased, as the
      matcher's loop computes it. */
  method KeyDistance(t: string, k: nat) returns (d: nat)
    requires k < |Dict|
    ensures d == KeyDists(t)[k]
  {
    d := ComputeDistance(Lower(t), Lower(Dict[k].0));
  }

  /** The loop of `fuzzyMatchHindiWord` over the keys in declaration order,
      with the edit distance computed by the table method. */
  method FuzzyMatchHindiWord(t: string) returns (r: Option<string>)
    ensures r == KeyOf(FuzzyMatch(t))
  {
    ghost var cs, ds := KeysContained(t), KeyDists(t);
    ghost var answer := FuzzyMatch(t);
    var best: Option<string> := None;
    ghost var bestKey: Option<nat> := None;
    var bestDist: nat := NoMatchDist;
    var k := 0;
    while k < |Dict|
      invariant k <= |Dict|
      invariant bestKey.Some? ==> bestKey.value < |Dict|
      invariant best == KeyOf(bestKey)
      invariant FuzzyFrom(cs, ds, k, bestKey, bestDist) == answer
    {
      var word := Dict[k].0;
      if Contains(t, word) {
        return Some(word);
      }
      var dist := KeyDistance(t, k);
      if dist < bestDist && dist <= Threshold {
        best, bestKey, bestDist := Some(word), Some(k), dist;
      }
      k := k + 1;
    }
    r := best;
  }

  /** A token with no character in common with any key is matched by no
      key: every key has at least four characters, so it is at least four
      edits away. */
  lemma NoFuzzyMatchWithoutKeyChars(t: string)
    requires forall c :: c in t ==> !KeyChar(LowerChar(c))
    ensures FuzzyMatch(t).None?
  {
    DictKeysWellFormed();
    forall i | 0 <= i < |Dict| ensures !Contains(t, Dict[i].0) {
      ContainedFirstCharOccurs(t, Dict[i].0);
      assert KeyChar(LowerChar(Dict[i].0[0]));
    }
    forall i | 0 <= i < |Dict| ensures KeyDist(t, i) > Threshold {
      var a, b := Lower(t), Lower(Dict[i].0);
      forall p, q | 0 <= p < |a| && 0 <= q < |b| ensures a[p] != b[q] {
        assert t[p] in t;
        assert Dict[i].0[q] in Dict[i].0;
        assert KeyChar(Dict[i].0[q]);
      }
      DistDisjoint(a, b, |a|, |b|, Distance(a, b));
    }
    FuzzyMatchMeaning(t);
  }

  // ---------------------------------------------------------------------
  // Devanagari digits

  /** One of the glyphs `०१२३४५६७८९`. */
  predicate IsDevanagariDigit(c: char) {
    '\U{0966}' <= c <= '\U{096F}'
  }

  predicate AllDevanagariDigits(s: string) {
    forall i :: 0 <= i < |s| ==> IsDevanagariDigit(s[i])
  }

  /** `/^[०१२३४५६७८९]+$/`. */
  predicate IsDevanagariNumeral(s: string) {
    s != [] && AllDevanagariDigits(s)
  }

  /** The positional value of a string of Devanagari digits (`Number` of the
      string of their indices); the empty string reads as 0. */
  function DevanagariValue(s: string): nat
    requires AllDevanagariDigits(s)
    decreases |s|
  {
    if s == [] then 0
    else DevanagariValue(s[..|s| - 1]) * 10 + (s[|s| - 1] as int - '\U{0966}' as int)
  }

  /** `hindiWordToNumber`: after trimming, a dictionary key gives its value,
      a string of Devanagari digits its positional value, anything else
      nothing. Blank input trims to the empty string, whose digits all
      qualify, and `Number('')` is 0. */
  function HindiWordToNumber(word: string): (r: Option<nat>)
    ensures r.Some? <==> IsKey(Trim(word)) || AllDevanagariDigits(Trim(word))
    ensures AllSpace(word) ==> r == Some(0)
  {
    TrimEmptyIff(word);
    DictKeysWellFormed();
    var w := Trim(word);
    match Lookup(w)
    case Some(v) => Some(v)
    case None => if AllDevanagariDigits(w) then Some(DevanagariValue(w)) else None
  }

  /** The number written in Devanagari digits. */
  function ToDevanagari(n: nat): (r: string)
    ensures IsDevanagariNumeral(r)
    decreases n
  {
    var d := ('\U{0966}' as int + n % 10) as char;
    if n < 10 then [d] else ToDevanagari(n / 10) + [d]
  }

  /** No key is written in Devanagari digits alone. */
  lemma NumeralIsNotKey(s: string)
    requires IsDevanagariNumeral(s)
    ensures !IsKey(s)
  {
    DictKeysWellFormed();
    forall k | 0 <= k < |Dict| ensures Dict[k].0 != s {
      assert Dict[k].0[0] in Dict[k].0;
    }
  }

  lemma {:induction false} DevanagariValueOfToDevanagari(n: nat)
    ensures DevanagariValue(ToDevanagari(n)) == n
    decreases n
  {
    if n >= 10 {
      var s := ToDevanagari(n);
      DevanagariValueOfToDevanagari(n / 10);
      assert s[..|s| - 1] == ToDevanagari(n / 10);
    }
  }

  /** Devanagari digits are read positionally: writing a number in them and
      reading it back gives the number. */
  lemma HindiWordToNumberRoundTrip(n: nat)
    ensures HindiWordToNumber(ToDevanagari(n)) == Some(n)
  {
    var s := ToDevanagari(n);
    assert IsTrimmed(s);
    TrimOfTrimmed(s);
    NumeralIsNotKey(s);
    DevanagariValueOfToDevanagari(n);
  }
}
