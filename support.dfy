/** Small value types and sequence/string helpers shared by the model:
    the Swift standard-library operations the app relies on
    (`Optional`, `filter`, `firstIndex`, `remove(at:)`, `prefix`,
    `lowercased`, `contains`, `joined`). */
module Support {

  datatype Option<+T> = None | Some(value: T) {
    /** Swift's `??` */
    function GetOr(default: T): T {
      match this
      case Some(v) => v
      case None => default
    }
  }

  // ---------------------------------------------------------------------
  // Sequences

  /** `r` is obtained from `s` by deleting elements; order is kept. */
  ghost predicate IsSubsequence<T>(r: seq<T>, s: seq<T>)
    decreases |s|
  {
    || r == []
    || (s != [] && ((r[0] == s[0] && IsSubsequence(r[1..], s[1..])) || IsSubsequence(r, s[1..])))
  }

  lemma SubsequenceOfTail<T>(r: seq<T>, s: seq<T>, x: T)
    requires IsSubsequence(r, s)
    ensures IsSubsequence(r, [x] + s)
  {
    assert ([x] + s)[1..] == s;
  }

  lemma {:induction false} SubsequenceReflexive<T>(s: seq<T>)
    ensures IsSubsequence(s, s)
    decreases |s|
  {
    if s != [] {
      SubsequenceReflexive(s[1..]);
    }
  }

  /** Elements of `s` satisfying `keep`, in their original order (Swift `filter`). */
  function Filter<T>(s: seq<T>, keep: T -> bool): (r: seq<T>)
    ensures |r| <= |s|
    ensures forall x :: x in r ==> x in s && keep(x)
    ensures forall x :: x in s && keep(x) ==> x in r
    ensures IsSubsequence(r, s)
    ensures (forall x :: x in s ==> keep(x)) ==> r == s
    decreases |s|
  {
    if s == [] then []
    else
      var rest := Filter(s[1..], keep);
      assert forall x :: x in s ==> x == s[0] || x in s[1..];
      if keep(s[0]) then
        assert ([s[0]] + rest)[1..] == rest;
        [s[0]] + rest
      else
        SubsequenceOfTail(rest, s[1..], s[0]);
        assert [s[0]] + s[1..] == s;
        rest
  }

  /** Swift `firstIndex(of:)`. */
  /** `Filter` keeps each kept value as often as it occurs, and drops every
      occurrence of the others. */
  lemma {:induction false} FilterCounts<T>(s: seq<T>, keep: T -> bool)
    ensures forall x :: x in s ==> multiset(Filter(s, keep))[x] == if keep(x) then multiset(s)[x] else 0
    decreases |s|
  {
    if s != [] {
      FilterCounts(s[1..], keep);
      assert s == [s[0]] + s[1..];
      assert multiset(s) == multiset{s[0]} + multiset(s[1..]);
      forall x | x in s
        ensures multiset(Filter(s, keep))[x] == if keep(x) then multiset(s)[x] else 0
      {
        if x !in s[1..] {
          assert x !in Filter(s[1..], keep);
        }
      }
    }
  }

  function FirstIndexOf<T(==)>(s: seq<T>, x: T): (r: Option<nat>)
    ensures r.Some? ==> r.value < |s| && s[r.value] == x && x !in s[..r.value]
    ensures r.None? <==> x !in s
    decreases |s|
  {
    if s == [] then None
    else if s[0] == x then Some(0)
    else
      var tail := FirstIndexOf(s[1..], x);
      if tail.Some? then
        assert s[..tail.value + 1] == [s[0]] + s[1..][..tail.value];
        Some(tail.value + 1)
      else None
  }

  /** Swift `remove(at:)` on a copy. */
  function RemoveAt<T>(s: seq<T>, i: nat): (r: seq<T>)
    requires i < |s|
    ensures |r| == |s| - 1
    ensures forall j :: 0 <= j < i ==> r[j] == s[j]
    ensures forall j :: i <= j < |r| ==> r[j] == s[j + 1]
  {
    s[..i] + s[i + 1..]
  }

  /** No element occurs twice. */
  predicate Distinct<T(==)>(s: seq<T>) {
    forall i, j :: 0 <= i < j < |s| ==> s[i] != s[j]
  }

  /** Smallest element of a non-empty set of offsets (the order in which an
      `IndexSet` is iterated). */
  ghost function MinOf(s: set<nat>): (m: nat)
    requires s != {}
    ensures m in s && forall x :: x in s ==> m <= x
    decreases s
  {
    var x :| x in s;
    if s - {x} == {} then
      assert forall y :: y in s && y != x ==> y in s - {x};
      x
    else
      var rest := MinOf(s - {x});
      assert forall y :: y in s ==> y == x || y in s - {x};
      if x < rest then x else rest
  }

  /** The elements of `s` whose offsets are not in `offsets`, in order
      (Swift `remove(atOffsets:)`). */
  function RemoveOffsets<T>(s: seq<T>, offsets: set<nat>): (r: seq<T>)
    decreases |s|
  {
    if s == [] then []
    else
      var last := |s| - 1;
      RemoveOffsets(s[..last], offsets) + (if last in offsets then [] else [s[last]])
  }

  /** Removing offsets from a prefix gives a prefix of the result. */
  lemma {:induction false} RemoveOffsetsPrefix<T>(s: seq<T>, offsets: set<nat>, k: nat)
    requires k <= |s|
    ensures RemoveOffsets(s[..k], offsets) <= RemoveOffsets(s, offsets)
    decreases |s| - k
  {
    if k < |s| {
      var last := |s| - 1;
      assert s[..last][..k] == s[..k];
      RemoveOffsetsPrefix(s[..last], offsets, k);
    } else {
      assert s[..k] == s;
    }
  }

  /** `remove(atOffsets:)` shortens the sequence by the number of named
      offsets that fall inside it. */
  lemma {:induction false} RemoveOffsetsLength<T>(s: seq<T>, offsets: set<nat>)
    ensures |RemoveOffsets(s, offsets)| == |s| - |(set i | i in offsets && i < |s|)|
    decreases |s|
  {
    var all := set i | i in offsets && i < |s|;
    if s == [] {
      assert all == {};
    } else {
      var last := |s| - 1;
      RemoveOffsetsLength(s[..last], offsets);
      var below := set i | i in offsets && i < last;
      if last in offsets {
        assert all == below + {last};
      } else {
        assert all == below;
      }
    }
  }

  /** Every element whose offset is not named survives `remove(atOffsets:)`,
      placed right after the survivors that preceded it. */
  lemma RemoveOffsetsKeeps<T>(s: seq<T>, offsets: set<nat>, k: nat)
    requires k < |s| && k !in offsets
    ensures |RemoveOffsets(s[..k], offsets)| < |RemoveOffsets(s, offsets)|
    ensures RemoveOffsets(s, offsets)[|RemoveOffsets(s[..k], offsets)|] == s[k]
  {
    assert s[..k + 1][..k] == s[..k];
    assert RemoveOffsets(s[..k + 1], offsets) == RemoveOffsets(s[..k], offsets) + [s[k]];
    RemoveOffsetsPrefix(s, offsets, k + 1);
  }

  // ---------------------------------------------------------------------
  // Strings

  /** ASCII lower-casing of one character. */
  function LowerChar(c: char): char {
    if 'A' <= c <= 'Z' then (c as int + 32) as char else c
  }

  /** `lowercased()`, restricted to ASCII letters. */
  function Lower(s: string): (r: string)
    ensures |r| == |s|
    ensures forall i :: 0 <= i < |s| ==> r[i] == LowerChar(s[i])
    decreases |s|
  {
    if s == [] then [] else [LowerChar(s[0])] + Lower(s[1..])
  }

  /** Substring containment, `hay.contains(needle)`. */
  predicate Contains(hay: string, needle: string)
    decreases |hay|
  {
    needle <= hay || (hay != [] && Contains(hay[1..], needle))
  }

  /** Swift `joined(separator:)`. */
  function Join(parts: seq<string>, sep: string): string
    decreases |parts|
  {
    if parts == [] then ""
    else if |parts| == 1 then parts[0]
    else parts[0] + sep + Join(parts[1..], sep)
  }

  /** Swift `compactMap { $0 }`: the present values, in order. */
  function Present<T>(xs: seq<Option<T>>): (r: seq<T>)
    ensures |r| <= |xs|
    decreases |xs|
  {
    if xs == [] then []
    else (if xs[0].Some? then [xs[0].value] else []) + Present(xs[1..])
  }
}
