/** Options, results, concatenation and selection on sequences. */
module Sequences {

  datatype Option<+T> = None | Some(value: T)

  datatype Result<+T, +E> = Ok(value: T) | Err(error: E)

  /** The concatenation of a sequence of sequences. */
  function Flatten<T>(ss: seq<seq<T>>): seq<T> {
    if ss == [] then [] else Flatten(ss[..|ss| - 1]) + ss[|ss| - 1]
  }

  lemma FlattenSnoc<T>(ss: seq<seq<T>>, s: seq<T>)
    ensures Flatten(ss + [s]) == Flatten(ss) + s
  {
    assert (ss + [s])[..|ss|] == ss;
  }

  /** The elements of `xs` with key `k`, in order. */
  function Select<T, K(==)>(key: T -> Option<K>, xs: seq<T>, k: K): seq<T> {
    if xs == [] then []
    else
      var x := xs[|xs| - 1];
      Select(key, xs[..|xs| - 1], k) + (if key(x) == Some(k) then [x] else [])
  }

  lemma {:induction false} SelectAppend<T, K>(key: T -> Option<K>, xs: seq<T>, ys: seq<T>, k: K)
    ensures Select(key, xs + ys, k) == Select(key, xs, k) + Select(key, ys, k)
  {
    if ys == [] {
      assert xs + ys == xs;
    } else {
      var n := |ys| - 1;
      SelectAppend(key, xs, ys[..n], k);
      assert (xs + ys)[..|xs + ys| - 1] == xs + ys[..n];
    }
  }

  lemma {:induction false} SelectAll<T, K>(key: T -> Option<K>, xs: seq<T>, k: K)
    requires forall x | x in xs :: key(x) == Some(k)
    ensures Select(key, xs, k) == xs
  {
    if xs != [] {
      var front, x := xs[..|xs| - 1], xs[|xs| - 1];
      SelectAll(key, front, k);
      assert key(x) == Some(k);
      assert xs == front + [x];
    }
  }

  lemma {:induction false} SelectNone<T, K>(key: T -> Option<K>, xs: seq<T>, k: K)
    requires forall x | x in xs :: key(x) != Some(k)
    ensures Select(key, xs, k) == []
  {
    if xs != [] {
      SelectNone(key, xs[..|xs| - 1], k);
    }
  }

  lemma {:induction false} SelectSame<T, K, L>(key: T -> Option<K>, key': T -> Option<L>, xs: seq<T>, k: K, l: L)
    requires forall x | x in xs :: key(x) == Some(k) <==> key'(x) == Some(l)
    ensures Select(key, xs, k) == Select(key', xs, l)
  {
    if xs != [] {
      SelectSame(key, key', xs[..|xs| - 1], k, l);
    }
  }

  lemma {:induction false} SelectMember<T, K>(key: T -> Option<K>, xs: seq<T>, x: T, k: K)
    requires x in xs && key(x) == Some(k)
    ensures x in Select(key, xs, k)
  {
    var n := |xs| - 1;
    if xs[n] != x {
      assert x in xs[..n];
      SelectMember(key, xs[..n], x, k);
    }
  }

  lemma {:induction false} SelectedFrom<T, K>(key: T -> Option<K>, xs: seq<T>, k: K)
    ensures forall x | x in Select(key, xs, k) :: x in xs && key(x) == Some(k)
  {
    if xs != [] {
      SelectedFrom(key, xs[..|xs| - 1], k);
    }
  }

  lemma SelectOne<T, K>(key: T -> Option<K>, x: T, k: K)
    ensures Select(key, [x], k) == if key(x) == Some(k) then [x] else []
  {
    var none: seq<T> := [];
    assert [x][..0] == none;
    assert Select(key, none, k) == none;
  }

  /** What is selected is in the sequence and has the key, as often as it occurs. */
  lemma {:induction false} SelectCount<T, K>(key: T -> Option<K>, xs: seq<T>, k: K, x: T)
    ensures multiset(Select(key, xs, k))[x] == if key(x) == Some(k) then multiset(xs)[x] else 0
  {
    if xs != [] {
      var n := |xs| - 1;
      SelectCount(key, xs[..n], k, x);
      assert xs == xs[..n] + [xs[n]];
    }
  }

  lemma SelectSubset<T(!new), K>(key: T -> Option<K>, xs: seq<T>, ys: seq<T>, k: K)
    requires multiset(xs) <= multiset(ys)
    ensures multiset(Select(key, xs, k)) <= multiset(Select(key, ys, k))
  {
    forall x
      ensures multiset(Select(key, xs, k))[x] <= multiset(Select(key, ys, k))[x]
    {
      SelectCount(key, xs, k, x);
      SelectCount(key, ys, k, x);
    }
  }

  lemma TakeNext<T>(a: seq<T>, s: seq<T>, i: nat)
    requires i < |s|
    ensures a + s[..i + 1] == a + s[..i] + [s[i]]
  {
  }

  lemma AppendLast<T>(a: seq<T>, b: seq<T>, x: T)
    ensures a + (b + [x]) == (a + b) + [x]
  {
  }

  lemma FrontOfAppend<T>(a: seq<T>, b: seq<T>)
    requires b != []
    ensures (a + b)[..|a + b| - 1] == a + b[..|b| - 1] && (a + b)[|a + b| - 1] == b[|b| - 1]
  {
  }
}
