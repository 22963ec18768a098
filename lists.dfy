/** Array operations the screens use on their lists, as the JavaScript
    built-ins define them. */
module Lists {

  predicate NoDuplicates<T(==)>(s: seq<T>) {
    forall i, j :: 0 <= i < j < |s| ==> s[i] != s[j]
  }

  /** Where `x` first occurs in `s` (`s.indexOf(x)` for an element of `s`). */
  function FirstIndex<T(==)>(s: seq<T>, x: T): (i: nat)
    requires x in s
    ensures i < |s| && s[i] == x
    decreases |s|
  {
    if s[0] == x then 0 else 1 + FirstIndex(s[1..], x)
  }

  lemma {:induction false} FirstIndexSnoc<T>(s: seq<T>, y: T, x: T)
    requires x in s
    ensures FirstIndex(s + [y], x) == FirstIndex(s, x)
    decreases |s|
  {
    if s[0] != x {
      assert (s + [y])[1..] == s[1..] + [y];
      FirstIndexSnoc(s[1..], y, x);
    }
  }

  lemma {:induction false} FirstIndexNotBefore<T>(s: seq<T>, x: T, n: nat)
    requires n < |s| && s[n] == x
    requires forall k :: 0 <= k < n ==> s[k] != x
    ensures FirstIndex(s, x) == n
    decreases n
  {
    if n > 0 {
      FirstIndexNotBefore(s[1..], x, n - 1);
    }
  }

  /** `s.findIndex(x => x === y)`: the first position holding `y`, or -1. */
  function FindIndex<T(==)>(s: seq<T>, y: T): (i: int)
    ensures -1 <= i < |s|
    decreases |s|
  {
    if s == [] then -1
    else if s[0] == y then 0
    else
      var k := FindIndex(s[1..], y);
      if k < 0 then -1 else k + 1
  }

  /** `findIndex` finds exactly the elements of `s`, at their first position. */
  lemma {:induction false} FindIndexMeaning<T>(s: seq<T>, y: T)
    ensures FindIndex(s, y) >= 0 <==> y in s
    ensures y in s ==> FindIndex(s, y) == FirstIndex(s, y)
    decreases |s|
  {
    if s != [] && s[0] != y {
      FindIndexMeaning(s[1..], y);
      assert y in s <==> y in s[1..];
    }
  }

  /** `s.filter((_, j) => j !== i)`: every element except the one at
      position `i`, in order. */
  function Without<T>(s: seq<T>, i: int): seq<T>
    decreases |s|
  {
    if s == [] then []
    else Without(s[..|s| - 1], i) + (if |s| - 1 != i then [s[|s| - 1]] else [])
  }

  /** Filtering out a position removes exactly that element, and filtering
      out a position the list does not have changes nothing. */
  lemma {:induction false} WithoutMeaning<T>(s: seq<T>, i: int)
    ensures 0 <= i < |s| ==> Without(s, i) == s[..i] + s[i + 1..]
    ensures !(0 <= i < |s|) ==> Without(s, i) == s
    decreases |s|
  {
    if s != [] {
      var init, x := s[..|s| - 1], s[|s| - 1];
      WithoutMeaning(init, i);
      assert s == init + [x];
      if 0 <= i < |s| - 1 {
        assert init[..i] == s[..i];
        assert init[i + 1..] + [x] == s[i + 1..];
      } else if i == |s| - 1 {
        assert init[..i] == s[..i];
        assert s[i + 1..] == [];
      }
    }
  }

  /** The position `splice(index, 1)` starts at: a negative index counts
      from the end, and both ends are clamped. */
  function SpliceStart(len: nat, index: int): (start: nat)
    ensures start <= len
  {
    if index < 0 then (if len + index < 0 then 0 else len + index)
    else if index > len then len
    else index
  }

  /** `s.splice(index, 1)` on a copy of `s`: the element at the start
      position is removed, if there is one. */
  function Spliced<T>(s: seq<T>, index: int): seq<T> {
    var start := SpliceStart(|s|, index);
    if start < |s| then s[..start] + s[start + 1..] else s
  }

  /** For an index inside the list, splicing one element out agrees with
      filtering out that position; a negative index names a position from
      the end, so -1 removes the last element; an index before the start
      removes the first element, and one past the end removes nothing. */
  lemma SplicedMeaning<T>(s: seq<T>, index: int)
    ensures 0 <= index < |s| ==> Spliced(s, index) == Without(s, index)
    ensures -|s| <= index < 0 ==> Spliced(s, index) == Without(s, |s| + index)
    ensures s != [] && index < -|s| ==> Spliced(s, index) == s[1..]
    ensures index >= |s| || (s == [] && index < 0) ==> Spliced(s, index) == s
  {
    if 0 <= index < |s| {
      WithoutMeaning(s, index);
    } else if -|s| <= index < 0 {
      assert SpliceStart(|s|, index) == |s| + index;
      WithoutMeaning(s, |s| + index);
    }
  }

  /** `a` is `b` with some elements left out, the rest in order. */
  predicate IsSubsequence<T(==)>(a: seq<T>, b: seq<T>)
    decreases |b|
  {
    if a == [] then true
    else if b == [] then false
    else if a[0] == b[0] then IsSubsequence(a[1..], b[1..])
    else IsSubsequence(a, b[1..])
  }
}
