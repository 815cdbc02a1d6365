/** Machines that keep one independent state per key.

    The frame decoder (per stream), the session (per stream) and the response router
    (per request) are all of this kind: an input names at most one key, reads and replaces
    the state stored under it, and produces outputs that name the same key. */
module Lanes {
  import opened Sequences

  /** `step` handles an input with a key, given what is stored under the key (`None` for nothing)
      and returning what to store; `stray` handles an input without one. */
  datatype Machine<!K(==), !S, !I, !O> = Machine(
    inKey: I -> Option<K>,
    outKey: O -> Option<K>,
    step: (Option<S>, I) -> (Option<S>, seq<O>),
    stray: I -> seq<O>)

  function Get<K, S>(m: map<K, S>, k: K): Option<S> {
    if k in m then Some(m[k]) else None
  }

  function Put<K(!new), S>(m: map<K, S>, k: K, o: Option<S>): (r: map<K, S>)
    ensures Get(r, k) == o
    ensures forall j | j != k :: Get(r, j) == Get(m, j)
  {
    match o
    case Some(s) => m[k := s]
    case None => m - {k}
  }

  /** The machine on the whole map. */
  function Step<K(!new), S, I, O>(c: Machine<K, S, I, O>, m: map<K, S>, x: I): (map<K, S>, seq<O>) {
    match c.inKey(x)
    case None => (m, c.stray(x))
    case Some(k) =>
      var (o, out) := c.step(Get(m, k), x);
      (Put(m, k, o), out)
  }

  function Run<K(!new), S, I, O>(c: Machine<K, S, I, O>, m: map<K, S>, xs: seq<I>): (map<K, S>, seq<O>) {
    if xs == [] then (m, [])
    else
      var (m1, out1) := Run(c, m, xs[..|xs| - 1]);
      var (m2, out2) := Step(c, m1, xs[|xs| - 1]);
      (m2, out1 + out2)
  }

  /** The machine on one key alone. */
  function RunLane<K, S, I, O>(c: Machine<K, S, I, O>, o: Option<S>, xs: seq<I>): (Option<S>, seq<O>) {
    if xs == [] then (o, [])
    else
      var (o1, out1) := RunLane(c, o, xs[..|xs| - 1]);
      var (o2, out2) := c.step(o1, xs[|xs| - 1]);
      (o2, out1 + out2)
  }

  lemma RunSnoc<K(!new), S(!new), I(!new), O(!new)>(c: Machine<K, S, I, O>, m: map<K, S>, xs: seq<I>, x: I)
    ensures var (m1, out1) := Run(c, m, xs);
            var (m2, out2) := Step(c, m1, x);
            Run(c, m, xs + [x]) == (m2, out1 + out2)
  {
    assert (xs + [x])[..|xs|] == xs;
  }

  lemma RunLaneSnoc<K(!new), S(!new), I(!new), O(!new)>(c: Machine<K, S, I, O>, o: Option<S>, xs: seq<I>, x: I)
    ensures var (o1, out1) := RunLane(c, o, xs);
            var (o2, out2) := c.step(o1, x);
            RunLane(c, o, xs + [x]) == (o2, out1 + out2)
  {
    assert (xs + [x])[..|xs|] == xs;
  }

  lemma {:induction false} RunAppend<K(!new), S(!new), I(!new), O(!new)>(c: Machine<K, S, I, O>, m: map<K, S>, xs: seq<I>, ys: seq<I>)
    ensures var (m1, out1) := Run(c, m, xs);
            var (m2, out2) := Run(c, m1, ys);
            Run(c, m, xs + ys) == (m2, out1 + out2)
  {
    if ys == [] {
      assert xs + ys == xs;
      assert Run(c, m, xs).1 + [] == Run(c, m, xs).1;
    } else {
      var n := |ys| - 1;
      RunAppend(c, m, xs, ys[..n]);
      RunSnoc(c, m, xs + ys[..n], ys[n]);
      assert xs + ys == (xs + ys[..n]) + [ys[n]];
      var (m1, out1) := Run(c, m, xs);
      var (m2, out2) := Run(c, m1, ys[..n]);
      var out3 := Step(c, m2, ys[n]).1;
      assert (out1 + out2) + out3 == out1 + (out2 + out3);
    }
  }

  lemma {:induction false} RunLaneAppend<K(!new), S(!new), I(!new), O(!new)>(
    c: Machine<K, S, I, O>, o: Option<S>, xs: seq<I>, ys: seq<I>)
    ensures var (o1, out1) := RunLane(c, o, xs);
            var (o2, out2) := RunLane(c, o1, ys);
            RunLane(c, o, xs + ys) == (o2, out1 + out2)
  {
    var (o1, out1) := RunLane(c, o, xs);
    if ys == [] {
      assert xs + ys == xs && out1 + [] == out1;
    } else {
      var n := |ys| - 1;
      RunLaneAppend(c, o, xs, ys[..n]);
      RunLaneSnoc(c, o, xs + ys[..n], ys[n]);
      assert xs + ys == (xs + ys[..n]) + [ys[n]];
      var (o2, out2) := RunLane(c, o1, ys[..n]);
      var out3 := c.step(o2, ys[n]).1;
      assert (out1 + out2) + out3 == out1 + (out2 + out3);
    }
  }

  lemma RunLaneOne<K(!new), S(!new), I(!new), O(!new)>(c: Machine<K, S, I, O>, o: Option<S>, x: I)
    ensures RunLane(c, o, [x]) == c.step(o, x)
  {
    var none: seq<I> := [];
    RunLaneSnoc(c, o, none, x);
    assert none + [x] == [x];
    assert [] + c.step(o, x).1 == c.step(o, x).1;
  }

  /** `inv` describes the states a lane can be in; from such a state, and on an input with its
      key, a lane only produces outputs with its key. */
  ghost predicate KeepsKeys<K(!new), S(!new), I(!new), O(!new)>(
    c: Machine<K, S, I, O>, inv: (K, Option<S>) -> bool)
  {
    && (forall k, o, x | inv(k, o) && c.inKey(x) == Some(k) ::
          inv(k, c.step(o, x).0) && (forall y | y in c.step(o, x).1 :: c.outKey(y) == Some(k)))
    && (forall x, y | c.inKey(x) == None && y in c.stray(x) :: c.outKey(y) == None)
  }

  ghost predicate AllLanes<K(!new), S>(m: map<K, S>, inv: (K, Option<S>) -> bool) {
    forall k :: inv(k, Get(m, k))
  }

  lemma StepKeepsLanes<K(!new), S(!new), I(!new), O(!new)>(c: Machine<K, S, I, O>, inv: (K, Option<S>) -> bool, m: map<K, S>, x: I)
    requires KeepsKeys(c, inv) && AllLanes(m, inv)
    ensures AllLanes(Step(c, m, x).0, inv)
    ensures forall y | y in Step(c, m, x).1 :: c.outKey(y) == c.inKey(x)
  {
  }

  lemma {:induction false} RunKeepsLanes<K(!new), S(!new), I(!new), O(!new)>(
    c: Machine<K, S, I, O>, inv: (K, Option<S>) -> bool, m: map<K, S>, xs: seq<I>)
    requires KeepsKeys(c, inv) && AllLanes(m, inv)
    ensures AllLanes(Run(c, m, xs).0, inv)
    ensures forall y | y in Run(c, m, xs).1 && c.outKey(y).Some? ::
              exists x :: x in xs && c.inKey(x) == c.outKey(y)
  {
    if xs != [] {
      var n := |xs| - 1;
      RunKeepsLanes(c, inv, m, xs[..n]);
      StepKeepsLanes(c, inv, Run(c, m, xs[..n]).0, xs[n]);
    }
  }

  /** Non-interference: for every input sequence and every key, what the machine stores under the
      key and what it outputs for the key are what it does when fed the inputs of that key alone. */
  lemma {:induction false} NonInterference<K(!new), S(!new), I(!new), O(!new)>(
    c: Machine<K, S, I, O>, inv: (K, Option<S>) -> bool, m: map<K, S>, xs: seq<I>, k: K)
    requires KeepsKeys(c, inv) && AllLanes(m, inv)
    ensures Get(Run(c, m, xs).0, k) == RunLane(c, Get(m, k), Select(c.inKey, xs, k)).0
    ensures Select(c.outKey, Run(c, m, xs).1, k) == RunLane(c, Get(m, k), Select(c.inKey, xs, k)).1
  {
    if xs != [] {
      var n := |xs| - 1;
      var x := xs[n];
      NonInterference(c, inv, m, xs[..n], k);
      RunKeepsLanes(c, inv, m, xs[..n]);
      var m1 := Run(c, m, xs[..n]).0;
      var out2 := Step(c, m1, x).1;
      StepKeepsLanes(c, inv, m1, x);
      SelectAppend(c.outKey, Run(c, m, xs[..n]).1, out2, k);
      if c.inKey(x) == Some(k) {
        SelectAll(c.outKey, out2, k);
        RunLaneSnoc(c, Get(m, k), Select(c.inKey, xs[..n], k), x);
      } else {
        SelectNone(c.outKey, out2, k);
        assert Select(c.inKey, xs, k) == Select(c.inKey, xs[..n], k);
      }
    }
  }

  /** Inputs of one key alone only touch what is stored under it. */
  lemma {:induction false} RunOneKey<K(!new), S(!new), I(!new), O(!new)>(
    c: Machine<K, S, I, O>, m: map<K, S>, xs: seq<I>, k: K)
    requires forall i | 0 <= i < |xs| :: c.inKey(xs[i]) == Some(k)
    ensures Run(c, m, xs).0 == Put(m, k, RunLane(c, Get(m, k), xs).0) && Run(c, m, xs).1 == RunLane(c, Get(m, k), xs).1
  {
    if xs == [] {
      assert Put(m, k, Get(m, k)) == m;
    } else {
      var n := |xs| - 1;
      RunOneKey(c, m, xs[..n], k);
      var (o, o') := (RunLane(c, Get(m, k), xs[..n]).0, RunLane(c, Get(m, k), xs).0);
      assert Put(Put(m, k, o), k, o') == Put(m, k, o');
    }
  }
}
