/** Order-preserving list operations that the Operator and the Registry both rely on. */
module Lists {

  datatype Option<+T> = None | Some(value: T)

  ghost predicate Distinct<T>(s: seq<T>) {
    forall i, j :: 0 <= i < j < |s| ==> s[i] != s[j]
  }

  /** Concatenates f over the elements of s, left to right. */
  function FlatMap<S, T>(s: seq<S>, f: S -> seq<T>): seq<T> {
    if s == [] then [] else FlatMap(s[..|s| - 1], f) + f(s[|s| - 1])
  }

  lemma FlatMapSnoc<S, T>(s: seq<S>, x: S, f: S -> seq<T>)
    ensures FlatMap(s + [x], f) == FlatMap(s, f) + f(x)
  {
  }

  lemma FlatMapPrefix<S, T>(s: seq<S>, i: nat, f: S -> seq<T>)
    requires i < |s|
    ensures FlatMap(s[..i + 1], f) == FlatMap(s[..i], f) + f(s[i])
  {
    assert s[..i + 1] == s[..i] + [s[i]];
    FlatMapSnoc(s[..i], s[i], f);
  }

  lemma {:induction false} FlatMapConcat<S, T>(a: seq<S>, b: seq<S>, f: S -> seq<T>)
    ensures FlatMap(a + b, f) == FlatMap(a, f) + FlatMap(b, f)
  {
    if b == [] {
      assert a + b == a;
    } else {
      var n := |b| - 1;
      FlatMapConcat(a, b[..n], f);
      assert (a + b)[..|a + b| - 1] == a + b[..n];
    }
  }

  /** Two functions that agree on the elements of s give the same concatenation. */
  lemma {:induction false} FlatMapAgree<S, T>(s: seq<S>, f: S -> seq<T>, g: S -> seq<T>)
    requires forall x :: x in s ==> f(x) == g(x)
    ensures FlatMap(s, f) == FlatMap(s, g)
  {
    if s != [] {
      FlatMapAgree(s[..|s| - 1], f, g);
    }
  }

  lemma {:induction false} FlatMapNone<S, T>(s: seq<S>, f: S -> seq<T>)
    requires forall x :: x in s ==> f(x) == []
    ensures FlatMap(s, f) == []
  {
    if s != [] {
      FlatMapNone(s[..|s| - 1], f);
    }
  }

  lemma {:induction false} FlatMapMember<S, T>(s: seq<S>, f: S -> seq<T>, y: T)
    ensures y in FlatMap(s, f) <==> exists x :: x in s && y in f(x)
  {
    if s != [] {
      var n := |s| - 1;
      FlatMapMember(s[..n], f, y);
      assert s == s[..n] + [s[n]];
    }
  }

  lemma {:induction false} FlatMapEmpty<S, T>(s: seq<S>, f: S -> seq<T>)
    ensures FlatMap(s, f) == [] <==> forall x :: x in s ==> f(x) == []
  {
    if s != [] {
      var n := |s| - 1;
      FlatMapEmpty(s[..n], f);
      assert s == s[..n] + [s[n]];
    }
  }

  /** Keeps the elements that belong to `good`, in order. */
  function Keep<T(==,!new)>(s: seq<T>, good: set<T>): (r: seq<T>)
    ensures forall x :: x in r <==> x in s && x in good
  {
    if s == [] then []
    else
      var n := |s| - 1;
      var rest := Keep(s[..n], good);
      assert s == s[..n] + [s[n]];
      if s[n] in good then rest + [s[n]] else rest
  }

  lemma KeepPrefix<T(!new)>(s: seq<T>, i: nat, good: set<T>)
    requires i < |s|
    ensures Keep(s[..i + 1], good) == Keep(s[..i], good) + (if s[i] in good then [s[i]] else [])
  {
    assert s[..i + 1][..i] == s[..i];
  }

  /** Removes repeated elements, keeping first occurrences in order. */
  function Dedupe<T(==,!new)>(s: seq<T>): (r: seq<T>)
    ensures forall x :: x in r <==> x in s
    ensures Distinct(r)
  {
    if s == [] then []
    else
      var n := |s| - 1;
      var rest := Dedupe(s[..n]);
      assert s == s[..n] + [s[n]];
      if s[n] in rest then rest else rest + [s[n]]
  }

  lemma DedupePrefix<T(!new)>(s: seq<T>, i: nat)
    requires i < |s|
    ensures Dedupe(s[..i + 1]) == Dedupe(s[..i]) + (if s[i] in s[..i] then [] else [s[i]])
  {
    assert s[..i + 1][..i] == s[..i];
  }

  ghost function FirstIndex<T>(s: seq<T>, x: T): (i: nat)
    requires x in s
    ensures i < |s| && s[i] == x && x !in s[..i]
  {
    var n := |s| - 1;
    if x in s[..n] then
      var i := FirstIndex(s[..n], x);
      assert s[..n][..i] == s[..i];
      i
    else
      assert s == s[..n] + [s[n]];
      n
  }

  /** Together with Dedupe's contract this pins the result: elements appear in order of first occurrence. */
  lemma {:induction false} DedupeOrder<T(!new)>(s: seq<T>, i: nat, j: nat)
    requires i < j < |Dedupe(s)|
    ensures FirstIndex(s, Dedupe(s)[i]) < FirstIndex(s, Dedupe(s)[j])
  {
    var n := |s| - 1;
    var rest := Dedupe(s[..n]);
    assert rest[i] in s[..n];
    if j < |rest| {
      DedupeOrder(s[..n], i, j);
      assert rest[j] in s[..n];
    }
  }

  lemma DistinctConcat<T>(a: seq<T>, b: seq<T>)
    ensures Distinct(a + b) <==> Distinct(a) && Distinct(b) && forall x :: x in a ==> x !in b
  {
    var s := a + b;
    assert forall i :: 0 <= i < |a| ==> s[i] == a[i];
    assert forall j :: 0 <= j < |b| ==> s[|a| + j] == b[j];
    if Distinct(s) {
      forall x | x in a ensures x !in b {
        var i :| 0 <= i < |a| && a[i] == x;
        forall j | 0 <= j < |b| ensures b[j] != x {
          assert s[i] != s[|a| + j];
        }
      }
      forall i, j | 0 <= i < j < |b| ensures b[i] != b[j] {
        assert s[|a| + i] != s[|a| + j];
      }
    }
    if Distinct(a) && Distinct(b) && forall x :: x in a ==> x !in b {
      forall i, j | 0 <= i < j < |s| ensures s[i] != s[j] {
        if i < |a| <= j {
          assert a[i] in a && b[j - |a|] in b;
        }
      }
    }
  }

  /** The last entry that is there. */
  function LastSome<T>(s: seq<Option<T>>): (r: Option<T>)
    ensures r.None? <==> forall i :: 0 <= i < |s| ==> s[i].None?
    ensures r.Some? ==> exists i: nat :: IsLastSome(s, i) && r == s[i]
  {
    if s == [] then None
    else
      var n := |s| - 1;
      assert s == s[..n] + [s[n]];
      if s[n].Some? then assert IsLastSome(s, n); s[n]
      else
        var r := LastSome(s[..n]);
        assert forall i: nat :: IsLastSome(s[..n], i) ==> IsLastSome(s, i) && s[..n][i] == s[i];
        r
  }

  ghost predicate IsLastSome<T>(s: seq<Option<T>>, i: nat) {
    i < |s| && s[i].Some? && forall j :: i < j < |s| ==> s[j].None?
  }
}
