/** Generic facts about sequences of optional values, used both for the
    price rows (null rows are dropped) and for the photo sources. */
module Sequences {
  import opened Wrappers

  /** Number of present (non-null) entries. */
  function CountSome<T>(s: seq<Option<T>>): (n: nat)
    ensures n <= |s|
  {
    if |s| == 0 then 0 else (if s[0].Some? then 1 else 0) + CountSome(s[1..])
  }

  /** Index `i` holds the first present entry of `s`. */
  predicate IsFirstPresent<T>(s: seq<Option<T>>, i: nat) {
    i < |s| && s[i].Some? && forall j :: 0 <= j < i ==> s[j].None?
  }

  /** A sequence of null entries has no present entry. */
  lemma {:induction false} CountSomeNone<T>(s: seq<Option<T>>)
    requires forall j :: 0 <= j < |s| ==> s[j].None?
    ensures CountSome(s) == 0
  {
    if |s| > 0 {
      CountSomeNone(s[1..]);
    }
  }

  /** A sequence of present entries has only present entries. */
  lemma {:induction false} CountSomeAll<T>(s: seq<Option<T>>)
    requires forall j :: 0 <= j < |s| ==> s[j].Some?
    ensures CountSome(s) == |s|
  {
    if |s| > 0 {
      CountSomeAll(s[1..]);
    }
  }

  /** Two sequences with null entries at the same places have as many
      present entries. */
  lemma {:induction false} CountSomeSameShape<T, U>(a: seq<Option<T>>, b: seq<Option<U>>)
    requires |a| == |b|
    requires forall j :: 0 <= j < |a| ==> a[j].Some? == b[j].Some?
    ensures CountSome(a) == CountSome(b)
  {
    if |a| > 0 {
      CountSomeSameShape(a[1..], b[1..]);
    }
  }

  /** The present values of `s`, in order: what
      `.filter(x => x !== null)` leaves of an array. Each present entry at
      index `i` lands at position `CountSome(s[..i])`, so the result is
      determined entry by entry. */
  function Compact<T>(s: seq<Option<T>>): (r: seq<T>)
    ensures |r| == CountSome(s)
    ensures forall i :: 0 <= i < |s| && s[i].Some? ==>
              CountSome(s[..i]) < |r| && r[CountSome(s[..i])] == s[i].value
  {
    if |s| == 0 then []
    else
      var rest := Compact(s[1..]);
      var r := (if s[0].Some? then [s[0].value] else []) + rest;
      assert forall i :: 0 < i < |s| ==> s[..i][1..] == s[1..][..i - 1];
      r
  }

  /** Every value `Compact` keeps comes from a present entry. */
  lemma {:induction false} CompactFrom<T>(s: seq<Option<T>>, k: nat)
    requires k < |Compact(s)|
    ensures Some(Compact(s)[k]) in s
  {
    if s[0].Some? && k == 0 {
      assert Compact(s)[0] == s[0].value;
    } else {
      var j := if s[0].Some? then k - 1 else k;
      assert Compact(s)[k] == Compact(s[1..])[j];
      CompactFrom(s[1..], j);
      assert s == [s[0]] + s[1..];
    }
  }

  /** Joining is associative. */
  lemma Regroup<T>(a: seq<T>, b: seq<T>, c: seq<T>)
    ensures a + (b + c) == (a + b) + c
  {
  }

  /** `a` is obtained from `b` by deleting entries, keeping the order. */
  ghost predicate IsSubsequence<T>(a: seq<T>, b: seq<T>)
    decreases |b|
  {
    if |a| == 0 then true
    else if |b| == 0 then false
    else (a[0] == b[0] && IsSubsequence(a[1..], b[1..])) || IsSubsequence(a, b[1..])
  }

  /** A subsequence stays one when an entry is put in front of the larger sequence. */
  lemma SubsequenceCons<T>(a: seq<T>, x: T, b: seq<T>)
    requires IsSubsequence(a, b)
    ensures IsSubsequence(a, [x] + b)
  {
    assert ([x] + b)[1..] == b;
  }

  /** Putting the same entry in front of both keeps the relation. */
  lemma SubsequenceConsBoth<T>(a: seq<T>, x: T, b: seq<T>)
    requires IsSubsequence(a, b)
    ensures IsSubsequence([x] + a, [x] + b)
  {
    assert ([x] + b)[1..] == b;
    assert ([x] + a)[1..] == a;
  }
}
