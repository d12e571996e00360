/** Sequential models, histories and what it means for a history to be linearizable.
    This is the specification against which the checker is proved: it mentions no
    list, no memo and no search. */
module Linearizability {
  import opened Collections

  datatype Option<+T> = None | Some(value: T)

  /** The part of a sequential model that the checker runs: an initial state, a step that says
      whether an (input, output) pair is allowed in a state and what the next state is, and the
      equality it uses to recognise states it has met before. */
  datatype Model<!S, !I, !O> = Model(init: S, step: (S, I, O) -> (bool, S), equal: (S, S) -> bool)

  /** `equal` may identify different states, as long as it is reflexive and transitive and no
      sequence of steps can tell identified states apart. */
  ghost predicate EqualIsCongruence<S(!new), I(!new), O(!new)>(m: Model<S, I, O>) {
    && (forall s :: m.equal(s, s))
    && (forall s, t, u :: m.equal(s, t) && m.equal(t, u) ==> m.equal(s, u))
    && (forall s, t, i, o :: m.equal(s, t) && m.step(s, i, o).0 ==>
          m.step(t, i, o).0 && m.equal(m.step(s, i, o).1, m.step(t, i, o).1))
  }

  datatype Operation<I, O> = Operation(clientId: int, input: I, call: int, output: O, ret: int)

  /** The state reached by running the operations of `p` one after the other from the initial
      state, or `None` if the model rejects one of them. */
  ghost function Replay<S, I, O>(m: Model<S, I, O>, ops: seq<Operation<I, O>>, p: seq<nat>): Option<S>
    requires InRange(ops, p)
  {
    if p == [] then Some(m.init) else
    match Replay(m, ops, p[..|p| - 1])
    case None => None
    case Some(s) =>
      var op := ops[p[|p| - 1]];
      var (ok, t) := m.step(s, op.input, op.output);
      if ok then Some(t) else None
  }

  ghost predicate InRange<I, O>(ops: seq<Operation<I, O>>, p: seq<nat>) {
    forall i :: 0 <= i < |p| ==> p[i] < |ops|
  }

  ghost predicate Distinct(p: seq<nat>) {
    forall i, j :: 0 <= i < j < |p| ==> p[i] != p[j]
  }

  /** `p` orders all the operations, never puts an operation before one that had returned by the
      time it was called, and is accepted by the model. */
  ghost predicate IsLinearization<S, I, O>(m: Model<S, I, O>, ops: seq<Operation<I, O>>, p: seq<nat>) {
    && InRange(ops, p) && Distinct(p) && |p| == |ops|
    && (forall i, j :: 0 <= i < j < |p| ==> !(ops[p[j]].ret < ops[p[i]].call))
    && Replay(m, ops, p).Some?
  }

  ghost predicate Linearizable<S, I, O>(m: Model<S, I, O>, ops: seq<Operation<I, O>>) {
    exists p :: IsLinearization(m, ops, p)
  }

  /** A start of a linearization: an accepted order of some operations in which everything that
      returned before an operation was called comes before that operation. */
  ghost predicate IsPartial<S, I, O>(m: Model<S, I, O>, ops: seq<Operation<I, O>>, p: seq<nat>) {
    && InRange(ops, p) && Distinct(p)
    && (forall k, y :: 0 <= k < |p| && 0 <= y < |ops| && ops[y].ret < ops[p[k]].call ==> y in p[..k])
    && Replay(m, ops, p).Some?
  }

  ghost function Elems(p: seq<nat>): set<nat> { set x | x in p }

  /** Each operation returns no earlier than it is called. */
  ghost predicate CallsBeforeReturns<I, O>(ops: seq<Operation<I, O>>) {
    forall x :: 0 <= x < |ops| ==> ops[x].call <= ops[x].ret
  }

  lemma DistinctElems(p: seq<nat>)
    requires Distinct(p)
    ensures |Elems(p)| == |p|
  {
    if p != [] {
      var q := p[..|p| - 1];
      DistinctElems(q);
      assert Elems(p) == Elems(q) + {p[|p| - 1]};
    } else {
      assert Elems(p) == {};
    }
  }

  /** The two ways of reading "respects real time" agree on complete orders. */
  lemma CompleteIffPartial<S, I, O>(m: Model<S, I, O>, ops: seq<Operation<I, O>>, p: seq<nat>)
    requires CallsBeforeReturns(ops)
    ensures IsLinearization(m, ops, p) <==> IsPartial(m, ops, p) && |p| == |ops|
  {
    if IsLinearization(m, ops, p) {
      forall k, y | 0 <= k < |p| && 0 <= y < |ops| && ops[y].ret < ops[p[k]].call
        ensures y in p[..k]
      {
        DistinctElems(p);
        ElemsBound(|ops|, Elems(p));
        assert y in Elems(p);
        var j :| 0 <= j < |p| && p[j] == y;
        assert j < k;
        assert p[..k][j] == y;
      }
    }
  }

  /** Linearizability depends on time stamps only through which return comes before which call. */
  lemma OrderIsomorphic<S, I, O>(m: Model<S, I, O>, a: seq<Operation<I, O>>, b: seq<Operation<I, O>>)
    requires |a| == |b|
    requires forall x :: 0 <= x < |a| ==> a[x].input == b[x].input && a[x].output == b[x].output
    requires forall x, y :: 0 <= x < |a| && 0 <= y < |a| ==> (a[x].ret < a[y].call <==> b[x].ret < b[y].call)
    ensures Linearizable(m, a) <==> Linearizable(m, b)
  {
    forall p: seq<nat> | InRange(a, p)
      ensures IsLinearization(m, a, p) <==> IsLinearization(m, b, p)
    {
      SameReplay(m, a, b, p);
    }
    if Linearizable(m, a) {
      var p :| IsLinearization(m, a, p);
      assert IsLinearization(m, b, p);
    }
    if Linearizable(m, b) {
      var p :| IsLinearization(m, b, p);
      assert InRange(a, p);
      assert IsLinearization(m, a, p);
    }
  }

  lemma SameReplay<S, I, O>(m: Model<S, I, O>, a: seq<Operation<I, O>>, b: seq<Operation<I, O>>, p: seq<nat>)
    requires |a| == |b| && InRange(a, p)
    requires forall x :: 0 <= x < |a| ==> a[x].input == b[x].input && a[x].output == b[x].output
    ensures Replay(m, a, p) == Replay(m, b, p)
  {
  }

  lemma {:induction false} PrefixAccepted<S, I, O>(m: Model<S, I, O>, ops: seq<Operation<I, O>>, p: seq<nat>, k: nat)
    requires InRange(ops, p) && Replay(m, ops, p).Some? && k <= |p|
    ensures InRange(ops, p[..k]) && Replay(m, ops, p[..k]).Some?
    decreases |p|
  {
    if k < |p| {
      PrefixAccepted(m, ops, p[..|p| - 1], k);
      assert p[..|p| - 1][..k] == p[..k];
    } else {
      assert p[..k] == p;
    }
  }
}
