/** The reasoning behind the backtracking search, without the data structures it runs on: which
    configurations have been explored, why a memo hit may be skipped, and why running out of calls
    to try means that no linearization was missed. */
module Search {
  import opened Collections
  import opened Linearizability

  type Config<S> = (set<nat>, S)

  /** What is searched: an order of `ops` accepted by `m`. If `partial` is set, the longest partial
      linearizations are recorded too. */
  datatype Problem<!S, !I, !O> = Problem(m: Model<S, I, O>, ops: seq<Operation<I, O>>, partial: bool) {
    ghost predicate Valid() {
      forall x :: 0 <= x < |ops| ==> ops[x].call < ops[x].ret
    }

    ghost function StepTo(s: S, x: nat): (bool, S)
      requires x < |ops|
    {
      m.step(s, ops[x].input, ops[x].output)
    }

    /** Nothing outside `D` had returned when `x` was called, so `x` may be linearized right after `D`. */
    ghost predicate Ready(D: set<nat>, x: nat) {
      x < |ops| && x !in D && forall y :: 0 <= y < |ops| && y !in D ==> ops[x].call <= ops[y].ret
    }

    /** The first `k` operations of `p` are `D` and lead to a state that the model cannot tell from `s`. */
    ghost predicate PassesThrough(p: seq<nat>, k: nat, D: set<nat>, s: S) {
      && k <= |p| && IsPartial(m, ops, p) && Elems(p[..k]) == D
      && InRange(ops, p[..k])
      && Replay(m, ops, p[..k]).Some? && m.equal(Replay(m, ops, p[..k]).value, s)
    }

    /** `p` is not complete, and if partial results are wanted, each of its operations has a recorded
        sequence at least as long. */
    ghost predicate Covered(longest: seq<Option<seq<nat>>>, p: seq<nat>) {
      && |p| < |ops|
      && (partial ==> forall x :: x in p ==>
            x < |longest| && longest[x].Some? && |p| <= |longest[x].value|)
    }

    /** Nothing of interest is left below this configuration. */
    ghost predicate Explored(longest: seq<Option<seq<nat>>>, c: Config<S>) {
      forall p, k :: PassesThrough(p, k, c.0, c.1) ==> Covered(longest, p)
    }

    /** Every operation called before `bound` has been tried from this configuration. */
    ghost predicate Tried(longest: seq<Option<seq<nat>>>, D: set<nat>, s: S, bound: int) {
      forall x: nat :: Ready(D, x) && ops[x].call < bound && StepTo(s, x).0 ==>
        Explored(longest, (D + {x}, StepTo(s, x).1))
    }

    /** The undo stack: `path` lists the linearized operations and `states[k]` is the state after `k` of them. */
    ghost predicate OnStack(path: seq<nat>, states: seq<S>) {
      && IsPartial(m, ops, path) && |states| == |path| + 1
      && (forall k :: 0 <= k <= |path| ==> InRange(ops, path[..k]) && Replay(m, ops, path[..k]) == Some(states[k]))
    }

    ghost predicate IsStackConfig(path: seq<nat>, states: seq<S>, c: Config<S>)
      requires |states| == |path| + 1
    {
      exists k :: 1 <= k <= |path| && c == (Elems(path[..k]), states[k])
    }

    ghost predicate AllTried(longest: seq<Option<seq<nat>>>, path: seq<nat>, states: seq<S>)
      requires |states| == |path| + 1 && InRange(ops, path)
    {
      forall k :: 0 <= k < |path| ==> Tried(longest, Elems(path[..k]), states[k], ops[path[k]].call)
    }

    /** The loop invariant of the search, at an entry at position `pos`. */
    ghost predicate Inv(path: seq<nat>, states: seq<S>, pos: int, memo: set<Config<S>>, longest: seq<Option<seq<nat>>>)
    {
      && Valid() && OnStack(path, states)
      && AllTried(longest, path, states)
      && Tried(longest, Elems(path), states[|path|], pos)
      && (forall y :: 0 <= y < |ops| && y !in path ==> pos <= ops[y].ret)
      && (forall c :: c in memo ==> IsStackConfig(path, states, c) || Explored(longest, c))
      && SoundRecords(m, ops, longest)
    }
  }

  /** Every recorded sequence is a partial linearization that contains the operation it is recorded for. */
  ghost predicate SoundRecords<S, I, O>(m: Model<S, I, O>, ops: seq<Operation<I, O>>, longest: seq<Option<seq<nat>>>) {
    && |longest| == |ops|
    && (forall x :: 0 <= x < |longest| && longest[x].Some? ==>
          IsPartial(m, ops, longest[x].value) && x in longest[x].value)
  }

  /** A whole linearization is recorded for every operation. */
  ghost predicate CompleteRecords<S, I, O>(m: Model<S, I, O>, ops: seq<Operation<I, O>>, longest: seq<Option<seq<nat>>>)
  {
    && |longest| == |ops|
    && (forall x :: 0 <= x < |longest| ==> longest[x].Some? && IsLinearization(m, ops, longest[x].value))
  }

  ghost predicate NoRecords(longest: seq<Option<seq<nat>>>) {
    forall x :: 0 <= x < |longest| ==> longest[x] == None
  }

  ghost predicate NoShorter(longest: seq<Option<seq<nat>>>, later: seq<Option<seq<nat>>>) {
    && |longest| == |later|
    && (forall x :: 0 <= x < |longest| && longest[x].Some? ==>
          later[x].Some? && |longest[x].value| <= |later[x].value|)
  }

  lemma ExploredMono<S, I, O>(pb: Problem<S, I, O>, longest: seq<Option<seq<nat>>>, later: seq<Option<seq<nat>>>,
      c: Config<S>)
    requires NoShorter(longest, later) && pb.Explored(longest, c)
    ensures pb.Explored(later, c)
  {
  }

  lemma TriedMono<S, I, O>(pb: Problem<S, I, O>, longest: seq<Option<seq<nat>>>, later: seq<Option<seq<nat>>>,
      D: set<nat>, s: S, bound: int)
    requires NoShorter(longest, later) && pb.Tried(longest, D, s, bound)
    ensures pb.Tried(later, D, s, bound)
  {
  }

  /** Recording longer sequences cannot make an explored configuration unexplored. */
  lemma RecordsKeepInv<S, I, O>(pb: Problem<S, I, O>, path: seq<nat>, states: seq<S>, pos: int, memo: set<Config<S>>,
      longest: seq<Option<seq<nat>>>, later: seq<Option<seq<nat>>>)
    requires pb.Inv(path, states, pos, memo, longest) && NoShorter(longest, later) && SoundRecords(pb.m, pb.ops, later)
    ensures pb.Inv(path, states, pos, memo, later)
  {
    forall k | 0 <= k < |path|
      ensures pb.Tried(later, Elems(path[..k]), states[k], pb.ops[path[k]].call)
    {
      TriedMono(pb, longest, later, Elems(path[..k]), states[k], pb.ops[path[k]].call);
    }
    TriedMono(pb, longest, later, Elems(path), states[|path|], pos);
    forall c | c in memo
      ensures pb.IsStackConfig(path, states, c) || pb.Explored(later, c)
    {
      if pb.Explored(longest, c) {
        ExploredMono(pb, longest, later, c);
      }
    }
  }

  lemma PrefixElems(p: seq<nat>, k: nat)
    requires k < |p|
    ensures p[..k + 1][..k] == p[..k] && p[..k + 1] == p[..k] + [p[k]]
    ensures Elems(p[..k + 1]) == Elems(p[..k]) + {p[k]}
  {
  }

  /** A partial linearization that goes on past `(D, s)` does so by a ready operation that the model
      accepts from `s`, and passes through the configuration this leads to. */
  lemma PassesOn<S(!new), I(!new), O(!new)>(pb: Problem<S, I, O>, p: seq<nat>, k: nat, D: set<nat>, s: S)
    requires EqualIsCongruence(pb.m) && pb.PassesThrough(p, k, D, s) && k < |p|
    ensures pb.Ready(D, p[k]) && pb.StepTo(s, p[k]).0
    ensures pb.PassesThrough(p, k + 1, D + {p[k]}, pb.StepTo(s, p[k]).1)
  {
    var x := p[k];
    PrefixElems(p, k);
    forall y | 0 <= y < |pb.ops| && y !in D
      ensures pb.ops[x].call <= pb.ops[y].ret
    {
      assert y !in p[..k];
    }
    PrefixAccepted(pb.m, pb.ops, p, k + 1);
    assert x !in p[..k];
  }

  /** When every ready operation has been tried and the stack itself has been recorded, the
      configuration on top of the stack is explored. */
  lemma TopExplored<S(!new), I(!new), O(!new)>(
      pb: Problem<S, I, O>, longest: seq<Option<seq<nat>>>, path: seq<nat>, s: S, pos: int, y: nat)
    requires EqualIsCongruence(pb.m) && InRange(pb.ops, path) && Distinct(path)
    requires pb.Tried(longest, Elems(path), s, pos) && |longest| == |pb.ops|
    requires y < |pb.ops| && y !in path && pb.ops[y].ret == pos
    requires forall x :: 0 <= x < |pb.ops| ==> pb.ops[x].call != pos
    requires pb.partial ==> forall x :: x in path ==> x < |longest| && longest[x].Some? && |path| <= |longest[x].value|
    ensures pb.Explored(longest, (Elems(path), s))
  {
    forall p, k | pb.PassesThrough(p, k, Elems(path), s)
      ensures pb.Covered(longest, p)
    {
      if k == |p| {
        assert p[..k] == p;
        SameElems(path, p);
        NotAll(|pb.ops|, path, y);
      } else {
        PassesOn(pb, p, k, Elems(path), s);
        assert pb.Explored(longest, (Elems(path) + {p[k]}, pb.StepTo(s, p[k]).1));
      }
    }
  }

  lemma SameElems(p: seq<nat>, q: seq<nat>)
    requires Distinct(p) && Distinct(q) && Elems(p) == Elems(q)
    ensures |p| == |q| && forall x :: x in p <==> x in q
  {
    DistinctElems(p);
    DistinctElems(q);
    assert forall x :: x in p <==> x in Elems(p);
    assert forall x :: x in q <==> x in Elems(q);
  }

  lemma NotAll(n: nat, p: seq<nat>, y: nat)
    requires Distinct(p) && (forall i :: 0 <= i < |p| ==> p[i] < n) && y < n && y !in p
    ensures |p| < n
  {
    DistinctElems(p);
    ElemsBound(n, Elems(p) + {y});
  }

  /** A memo hit may be skipped: the stored configuration has as many linearized operations as the
      new one, so it is not on the stack, hence explored, and equal states have equal futures. */
  lemma HitExplored<S(!new), I(!new), O(!new)>(
      pb: Problem<S, I, O>, path: seq<nat>, states: seq<S>, memo: set<Config<S>>, longest: seq<Option<seq<nat>>>,
      x: nat, t: S, c: Config<S>)
    requires EqualIsCongruence(pb.m) && |states| == |path| + 1
    requires forall c :: c in memo ==> pb.IsStackConfig(path, states, c) || pb.Explored(longest, c)
    requires x !in path && c in memo && c.0 == Elems(path) + {x} && pb.m.equal(t, c.1)
    ensures pb.Explored(longest, (Elems(path) + {x}, t))
  {
    assert !pb.IsStackConfig(path, states, c) by {
      assert x in c.0;
      assert forall k :: 1 <= k <= |path| ==> x !in Elems(path[..k]);
    }
    forall p, k | pb.PassesThrough(p, k, c.0, t)
      ensures pb.Covered(longest, p)
    {
      assert pb.PassesThrough(p, k, c.0, c.1);
    }
  }

  /** Moving to the next entry after a call that cannot be used. */
  lemma SkipKeepsInv<S(!new), I(!new), O(!new)>(
      pb: Problem<S, I, O>, path: seq<nat>, states: seq<S>, pos: int, memo: set<Config<S>>,
      longest: seq<Option<seq<nat>>>, x: nat, next: int)
    requires pb.Inv(path, states, pos, memo, longest)
    requires x < |pb.ops| && x !in path && pb.ops[x].call == pos
    requires forall y :: 0 <= y < |pb.ops| && y !in path ==>
      (y == x || pb.ops[y].call < pos || next <= pb.ops[y].call) && next <= pb.ops[y].ret
    requires pb.StepTo(states[|path|], x).0 ==> pb.Explored(longest,
      (Elems(path) + {x}, pb.StepTo(states[|path|], x).1))
    ensures pb.Inv(path, states, next, memo, longest)
  {
  }

  /** Linearizing one more operation keeps the stack a partial linearization. */
  lemma PushOnStack<S, I, O>(pb: Problem<S, I, O>, path: seq<nat>, states: seq<S>, x: nat)
    requires pb.OnStack(path, states) && pb.Ready(Elems(path), x) && pb.StepTo(states[|path|], x).0
    ensures pb.OnStack(path + [x], states + [pb.StepTo(states[|path|], x).1])
  {
    var (q, ts) := (path + [x], states + [pb.StepTo(states[|path|], x).1]);
    assert q[..|path|] == path && path[..|path|] == path && q[..|q|] == q;
    assert Replay(pb.m, pb.ops, path[..|path|]) == Some(states[|path|]);
    PushPartial(pb, path, x);
    assert q[..|q| - 1] == path;
    assert Replay(pb.m, pb.ops, q) == Some(ts[|q|]);
    forall k | 0 <= k <= |q|
      ensures InRange(pb.ops, q[..k]) && Replay(pb.m, pb.ops, q[..k]) == Some(ts[k])
    {
      if k <= |path| {
        assert q[..k] == path[..k] && ts[k] == states[k];
      } else {
        assert q[..k] == q;
      }
    }
  }

  lemma PushPartial<S, I, O>(pb: Problem<S, I, O>, path: seq<nat>, x: nat)
    requires IsPartial(pb.m, pb.ops, path) && pb.Ready(Elems(path), x)
    requires pb.StepTo(Replay(pb.m, pb.ops, path).value, x).0
    ensures IsPartial(pb.m, pb.ops, path + [x])
  {
    PushDistinct(path, x);
    PushReplay(pb, path, x);
    PushTimes(pb, path, x);
  }

  lemma PushDistinct(path: seq<nat>, x: nat)
    requires Distinct(path) && x !in Elems(path)
    ensures Distinct(path + [x])
  {
  }

  lemma PushReplay<S, I, O>(pb: Problem<S, I, O>, path: seq<nat>, x: nat)
    requires InRange(pb.ops, path) && Replay(pb.m, pb.ops, path).Some? && x < |pb.ops|
    requires pb.StepTo(Replay(pb.m, pb.ops, path).value, x).0
    ensures InRange(pb.ops, path + [x]) && Replay(pb.m, pb.ops, path + [x]).Some?
  {
  }

  lemma PushTimes<S, I, O>(pb: Problem<S, I, O>, path: seq<nat>, x: nat)
    requires IsPartial(pb.m, pb.ops, path) && pb.Ready(Elems(path), x)
    ensures var q := path + [x];
            && InRange(pb.ops, q)
            && forall k, y :: 0 <= k < |q| && 0 <= y < |pb.ops| && pb.ops[y].ret < pb.ops[q[k]].call ==> y in q[..k]
  {
    var q := path + [x];
    forall k, y | 0 <= k < |q| && 0 <= y < |pb.ops| && pb.ops[y].ret < pb.ops[q[k]].call
      ensures y in q[..k]
    {
      PushInTime(pb, path, x, k, y);
    }
  }

  lemma PushInTime<S, I, O>(pb: Problem<S, I, O>, path: seq<nat>, x: nat, k: nat, y: nat)
    requires IsPartial(pb.m, pb.ops, path) && pb.Ready(Elems(path), x) && k <= |path| && y < |pb.ops|
    requires pb.ops[y].ret < pb.ops[(path + [x])[k]].call
    ensures y in (path + [x])[..k]
  {
    var q := path + [x];
    assert q[..k] == path[..k];
    if k == |path| {
      assert path[..k] == path && y in Elems(path);
    } else {
      assert q[k] == path[k];
    }
  }

  lemma PushKeepsInv<S, I, O>(
      pb: Problem<S, I, O>, path: seq<nat>, states: seq<S>, pos: int, memo: set<Config<S>>,
      longest: seq<Option<seq<nat>>>, x: nat, next: int)
    requires pb.Inv(path, states, pos, memo, longest)
    requires x < |pb.ops| && x !in path && pb.ops[x].call == pos && pb.StepTo(states[|path|], x).0
    requires forall y :: 0 <= y < |pb.ops| && y !in path && y != x ==> next <= pb.ops[y].call
    ensures var t := pb.StepTo(states[|path|], x).1;
            pb.Inv(path + [x], states + [t], next, memo + {(Elems(path) + {x}, t)}, longest)
  {
    var t := pb.StepTo(states[|path|], x).1;
    var (q, ts) := (path + [x], states + [t]);
    PushOnStack(pb, path, states, x);
    PrefixElems(q, |path|);
    PushTried(pb, longest, path, states, x, t);
    NothingBefore(pb, longest, q, t, next);
    PushMemo(pb, longest, path, states, memo, x, t);
  }

  lemma PushTried<S, I, O>(pb: Problem<S, I, O>, longest: seq<Option<seq<nat>>>, path: seq<nat>, states: seq<S>,
      x: nat, t: S)
    requires |states| == |path| + 1 && x < |pb.ops| && InRange(pb.ops, path)
    requires pb.AllTried(longest, path, states)
    requires pb.Tried(longest, Elems(path), states[|path|], pb.ops[x].call)
    ensures pb.AllTried(longest, path + [x], states + [t])
  {
    var (q, ts) := (path + [x], states + [t]);
    forall k | 0 <= k < |q|
      ensures pb.Tried(longest, Elems(q[..k]), ts[k], pb.ops[q[k]].call)
    {
      assert q[..k] == path[..k];
      assert path[..|path|] == path;
    }
  }

  lemma NothingBefore<S, I, O>(pb: Problem<S, I, O>, longest: seq<Option<seq<nat>>>, path: seq<nat>, s: S, bound: int)
    requires forall y :: 0 <= y < |pb.ops| && y !in path ==> bound <= pb.ops[y].call
    ensures pb.Tried(longest, Elems(path), s, bound)
  {
  }

  lemma PushMemo<S, I, O>(pb: Problem<S, I, O>, longest: seq<Option<seq<nat>>>, path: seq<nat>, states: seq<S>,
      memo: set<Config<S>>, x: nat, t: S)
    requires |states| == |path| + 1
    requires forall c :: c in memo ==> pb.IsStackConfig(path, states, c) || pb.Explored(longest, c)
    ensures forall c :: c in memo + {(Elems(path) + {x}, t)} ==>
      pb.IsStackConfig(path + [x], states + [t], c) || pb.Explored(longest, c)
  {
    var (q, ts) := (path + [x], states + [t]);
    PrefixElems(q, |path|);
    assert q[..|q|] == q && q[..|path|] == path;
    assert (Elems(path) + {x}, t) == (Elems(q[..|q|]), ts[|q|]);
    forall c: Config<S> | pb.IsStackConfig(path, states, c)
      ensures pb.IsStackConfig(q, ts, c)
    {
      var k :| 1 <= k <= |path| && c == (Elems(path[..k]), states[k]);
      assert q[..k] == path[..k];
      assert c == (Elems(q[..k]), ts[k]);
    }
  }

  /** Undoing the last linearized operation, whose configuration has just been explored. */
  lemma PopKeepsInv<S(!new), I(!new), O(!new)>(
      pb: Problem<S, I, O>, path: seq<nat>, states: seq<S>, pos: int, memo: set<Config<S>>,
      longest: seq<Option<seq<nat>>>, q: seq<nat>, x: nat, next: int)
    requires path == q + [x] && pb.Inv(path, states, pos, memo, longest)
    requires pb.Explored(longest, (Elems(path), states[|path|]))
    requires forall y :: 0 <= y < |pb.ops| && y !in q ==>
      (y == x || pb.ops[y].call < pb.ops[x].call || next <= pb.ops[y].call) &&
      (pb.ops[y].ret < pb.ops[x].call || next <= pb.ops[y].ret)
    ensures pb.Inv(q, states[..|q| + 1], next, memo, longest)
  {
    var ts := states[..|q| + 1];
    PopStack(pb, path, states, q, x);
    PopTried(pb, path, states, longest, q, x, next);
    PopMemo(pb, longest, path, states, memo, q, x);
    forall y | 0 <= y < |pb.ops| && y !in q
      ensures next <= pb.ops[y].ret
    {
      assert path[..|q|] == q && path[|q|] == x;
    }
  }

  lemma PopStack<S, I, O>(pb: Problem<S, I, O>, path: seq<nat>, states: seq<S>, q: seq<nat>, x: nat)
    requires path == q + [x] && pb.OnStack(path, states)
    ensures pb.OnStack(q, states[..|q| + 1]) && x < |pb.ops| && x !in q
    ensures pb.StepTo(states[|q|], x) == (true, states[|q| + 1])
  {
    assert path[..|q|] == q && path[..|path|] == path && path[..|path| - 1] == q;
    assert forall k :: 0 <= k <= |q| ==> q[..k] == path[..k];
    assert Replay(pb.m, pb.ops, path[..|q|]) == Some(states[|q|]);
    assert Replay(pb.m, pb.ops, path[..|path|]) == Some(states[|path|]);
    assert path[|q|] == x;
    forall k, y | 0 <= k < |q| && 0 <= y < |pb.ops| && pb.ops[y].ret < pb.ops[q[k]].call
      ensures y in q[..k]
    {
      assert path[k] == q[k] && q[..k] == path[..k];
    }
    assert q[..|q|] == q;
  }

  lemma PopTried<S, I, O>(pb: Problem<S, I, O>, path: seq<nat>, states: seq<S>, longest: seq<Option<seq<nat>>>,
      q: seq<nat>, x: nat, next: int)
    requires path == q + [x] && |states| == |path| + 1 && InRange(pb.ops, path) && InRange(pb.ops, q) && x < |pb.ops|
    requires pb.AllTried(longest, path, states)
    requires pb.StepTo(states[|q|], x) == (true, states[|q| + 1])
    requires pb.Explored(longest, (Elems(path), states[|path|]))
    requires forall y :: 0 <= y < |pb.ops| && y !in q ==>
      y == x || pb.ops[y].call < pb.ops[x].call || next <= pb.ops[y].call
    ensures pb.AllTried(longest, q, states[..|q| + 1])
    ensures pb.Tried(longest, Elems(q), states[|q|], next)
  {
    var ts := states[..|q| + 1];
    PrefixElems(path, |q|);
    assert path[..|q|] == q && path[..|path|] == path && path[|q|] == x;
    forall k | 0 <= k < |q|
      ensures pb.Tried(longest, Elems(q[..k]), ts[k], pb.ops[q[k]].call)
    {
      assert path[..k] == q[..k] && path[k] == q[k];
    }
    assert pb.Tried(longest, Elems(path[..|q|]), states[|q|], pb.ops[path[|q|]].call);
    forall y: nat | pb.Ready(Elems(q), y) && pb.ops[y].call < next && pb.StepTo(states[|q|], y).0
      ensures pb.Explored(longest, (Elems(q) + {y}, pb.StepTo(states[|q|], y).1))
    {
      assert y !in q;
    }
  }

  lemma PopMemo<S, I, O>(pb: Problem<S, I, O>, longest: seq<Option<seq<nat>>>, path: seq<nat>, states: seq<S>,
      memo: set<Config<S>>, q: seq<nat>, x: nat)
    requires path == q + [x] && |states| == |path| + 1
    requires forall c :: c in memo ==> pb.IsStackConfig(path, states, c) || pb.Explored(longest, c)
    requires pb.Explored(longest, (Elems(path), states[|path|]))
    ensures forall c :: c in memo ==> pb.IsStackConfig(q, states[..|q| + 1], c) || pb.Explored(longest, c)
  {
    var ts := states[..|q| + 1];
    assert path[..|path|] == path;
    forall c: Config<S> | c in memo && pb.IsStackConfig(path, states, c)
      ensures pb.IsStackConfig(q, ts, c) || pb.Explored(longest, c)
    {
      var k :| 1 <= k <= |path| && c == (Elems(path[..k]), states[k]);
      if k <= |q| {
        assert q[..k] == path[..k];
        assert c == (Elems(q[..k]), ts[k]);
      }
    }
  }

  /** What the recorded sequences say once the search has failed: the longest partial linearization
      that contains each operation, and nothing for operations that no partial linearization contains. */
  ghost predicate LongestPerOperation<S, I, O>(m: Model<S, I, O>, ops: seq<Operation<I, O>>,
      longest: seq<Option<seq<nat>>>)
  {
    && SoundRecords(m, ops, longest)
    && (forall x, p :: 0 <= x < |ops| && IsPartial(m, ops, p) && x in p ==>
          longest[x].Some? && |p| <= |longest[x].value|)
  }

  /** If the empty configuration is explored, there is no linearization and the records are complete. */
  lemma RootExplored<S(!new), I(!new), O(!new)>(pb: Problem<S, I, O>, longest: seq<Option<seq<nat>>>)
    requires EqualIsCongruence(pb.m) && pb.Valid() && SoundRecords(pb.m, pb.ops, longest)
    requires pb.Explored(longest, ({}, pb.m.init))
    ensures !Linearizable(pb.m, pb.ops)
    ensures pb.partial ==> LongestPerOperation(pb.m, pb.ops, longest)
  {
    forall p | IsPartial(pb.m, pb.ops, p)
      ensures pb.Covered(longest, p)
    {
      assert p[..0] == [];
      assert Elems(p[..0]) == {};
      assert pb.PassesThrough(p, 0, {}, pb.m.init);
    }
    forall p
      ensures !IsLinearization(pb.m, pb.ops, p)
    {
      CompleteIffPartial(pb.m, pb.ops, p);
    }
  }

  /** All sequences of at most `len` ids below `n`. */
  ghost function Sequences(n: nat, len: nat): set<seq<nat>> {
    if len == 0 then {[]} else
    Sequences(n, len - 1) + set p, x | p in Sequences(n, len - 1) && x in Below(n) :: p + [x]
  }

  lemma {:induction false} InSequences(n: nat, len: nat, p: seq<nat>)
    requires |p| <= len && forall i :: 0 <= i < |p| ==> p[i] < n
    ensures p in Sequences(n, len)
  {
    if p == [] {
      if len > 0 {
        InSequences(n, len - 1, p);
      }
    } else {
      var (q, x) := (p[..|p| - 1], p[|p| - 1]);
      InSequences(n, len - 1, q);
      assert x in Below(n) && p == q + [x];
    }
  }

  /** The finitely many configurations that the search can meet. */
  ghost function Universe<S, I, O>(pb: Problem<S, I, O>): (r: set<Config<S>>)
    ensures forall p: seq<nat> :: IsPartial(pb.m, pb.ops, p) ==> (Elems(p), Replay(pb.m, pb.ops, p).value) in r
  {
    var all := Sequences(|pb.ops|, |pb.ops|);
    var r := set p | p in all && IsPartial(pb.m, pb.ops, p) :: (Elems(p), Replay(pb.m, pb.ops, p).value);
    assert forall p: seq<nat> :: IsPartial(pb.m, pb.ops, p) ==> p in all by {
      forall p: seq<nat> | IsPartial(pb.m, pb.ops, p)
        ensures p in all
      {
        DistinctElems(p);
        ElemsBound(|pb.ops|, Elems(p));
        InSequences(|pb.ops|, |pb.ops|, p);
      }
    }
    r
  }
}
