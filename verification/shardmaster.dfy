/** The shard master: configurations, and how shards are rebalanced when groups join. */
module ShardMasters {
  import opened Collections
  import opened Shards

  datatype Config = Config(num: int, shards: seq<int>, groups: map<int, seq<string>>)

  /** Without groups all shards are on the invalid group 0; otherwise they are spread evenly. */
  ghost predicate Good(shards: seq<int>, G: set<int>) {
    0 !in G && if G == {} then forall i :: 0 <= i < |shards| ==> shards[i] == 0 else Balanced(shards, G)
  }

  /** What a join promises: balance over the groups `C`, owners change only towards groups that were not in
      `L`, and no balanced assignment to `C` moves fewer shards. */
  ghost predicate Rebalanced(before: seq<int>, L: set<int>, after: seq<int>, C: set<int>) {
    && |after| == |before| && Balanced(after, C)
    && (forall i :: 0 <= i < |before| ==> after[i] == before[i] || after[i] in C - L)
    && (forall t :: |t| == |before| && Balanced(t, C) ==> Moved(before, after) <= Moved(before, t))
  }

  /** `after` is `before` with `r` shards relabelled. */
  ghost predicate Relabelled(before: seq<int>, after: seq<int>, from: int, to: int, r: int) {
    && |after| == |before|
    && (forall i :: 0 <= i < |before| ==> after[i] == before[i] || (before[i] == from && after[i] == to))
    && (forall g :: Count(after, g) == Count(before, g) - (if g == from then r else 0) + (if g == to then r else 0))
  }

  lemma RelabelOne(before: seq<int>, s: seq<int>, i: nat, from: int, to: int, r: int)
    requires Relabelled(before, s, from, to, r) && i < |s| && s[i] == from && before[i] == from && from != to
    ensures Relabelled(before, s[i := to], from, to, r + 1)
  {
    forall g
      ensures Count(s[i := to], g) == Count(before, g) - (if g == from then r + 1 else 0) + (if g == to then r + 1
        else 0)
    {
      CountUpdate(s, i, to, g);
    }
  }

  /** Relabels the first `r` shards of `from`. */
  method Relabel(shards: array<int>, from: int, to: int, r: int)
    requires from != to && 0 <= r <= Count(shards[..], from) && (r == 0 ==> Count(shards[..], from) == 0)
    modifies shards
    ensures Relabelled(old(shards[..]), shards[..], from, to, r)
  {
    ghost var before := shards[..];
    var left := r;
    for i := 0 to shards.Length
      invariant Relabelled(before, shards[..], from, to, r - left)
      invariant 0 <= left && (left == 0 ==> r == 0)
      invariant forall k :: i <= k < shards.Length ==> shards[k] == before[k]
      invariant forall k :: 0 <= k < i ==> shards[k] != from
    {
      if shards[i] == from {
        CountBound(shards[..], from);
        assert shards[..][i] == from;
        RelabelOne(before, shards[..], i, from, to, r - left);
        shards[i] := to;
        left := left - 1;
      }
      if left == 0 {
        return;
      }
    }
    CountBound(shards[..], from);
  }

  /** The next key of a map that is traversed in no particular order. */
  method AnyOf<T>(keys: set<T>) returns (k: T)
    requires keys != {}
    ensures k in keys
  {
    k :| k in keys;
  }

  /** How many shards each of the groups had. */
  method LastCounts(shards: seq<int>, groups: set<int>) returns (lastCnt: map<int, int>)
    ensures forall g :: g in groups ==> (if g in lastCnt then lastCnt[g] else 0) == Count(shards, g)
  {
    lastCnt := map[];
    var todo := groups;
    while todo != {}
      invariant todo <= groups && forall g :: g in lastCnt ==> g in groups - todo
      invariant forall g :: g in groups - todo ==> (if g in lastCnt then lastCnt[g] else 0) == Count(shards, g)
      decreases |todo|
    {
      var gid := AnyOf(todo);
      todo := todo - {gid};
      ghost var before := lastCnt;
      for i := 0 to |shards|
        invariant forall g :: g != gid ==> (g in lastCnt <==> g in before) && (g in before ==> lastCnt[g] == before[g])
        invariant (if gid in lastCnt then lastCnt[gid] else 0) == Count(shards[..i], gid)
      {
        assert shards[..i + 1][..i] == shards[..i];
        if shards[i] == gid {
          lastCnt := lastCnt[gid := (if gid in lastCnt then lastCnt[gid] else 0) + 1];
        }
      }
      assert shards[..|shards|] == shards;
    }
  }

  /** What the first pass leaves: each group that stays has `avg` shards, or one more if it is in `X`. */
  ghost predicate Released(before: seq<int>, after: seq<int>, D: set<int>, avg: int, X: set<int>) {
    && |after| == |before| && X <= D
    && (forall i :: 0 <= i < |before| ==> after[i] == before[i] || (after[i] == 0 && before[i] in D))
    && (forall g :: g in D ==> Count(after, g) == avg + if g in X then 1 else 0)
    && (forall g :: g != 0 && g !in D ==> Count(after, g) == Count(before, g))
  }

  lemma ReleaseOne(before: seq<int>, s: seq<int>, t: seq<int>, D: set<int>, avg: int, X: set<int>, g: int, r: int,
      extra: bool)
    requires Released(before, s, D, avg, X) && 0 !in D && g != 0 && g !in D && Relabelled(s, t, g, 0, r)
    requires Count(before, g) - r == avg + if extra then 1 else 0
    ensures Released(before, t, D + {g}, avg, if extra then X + {g} else X)
  {
  }

  lemma NothingRelabelled(s: seq<int>, from: int, to: int)
    ensures Relabelled(s, s, from, to, 0)
  {
  }

  /** The groups that keep an extra shard: as many as there are extra shards, or all that have one. */
  ghost predicate Keepers(before: seq<int>, D: set<int>, avg: int, extra: int, left: int, X: set<int>) {
    left == extra - |X| && X <= Larger(before, D, avg) && (left > 0 ==> X == Larger(before, D, avg))
  }

  lemma KeeperOne(before: seq<int>, D: set<int>, avg: int, extra: int, left: int, X: set<int>, g: int)
    requires Keepers(before, D, avg, extra, left, X) && left >= 0 && g !in D
    ensures var keeps := Count(before, g) > avg && left > 0;
            Keepers(before, D + {g}, avg, extra, if keeps then left - 1 else left, if keeps then X + {g} else X)
  {
    var (A, B) := (Larger(before, D, avg), Larger(before, D + {g}, avg));
    if Count(before, g) > avg {
      assert B == A + {g};
    } else {
      assert B == A;
    }
    assert g !in X;
  }

  /** One group gives up what it has above the average, or all but one of that if an extra shard is left. */
  method Release(shards: array<int>, lastGid: int, cnt: int, avg: nat, extra: nat, ghost before: seq<int>,
      ghost all: nat, ghost D: set<int>, ghost X: set<int>)
    returns (left: nat, ghost X': set<int>)
    requires 0 !in D && lastGid != 0 && lastGid !in D && cnt == Count(before, lastGid) >= avg
    requires Released(before, shards[..], D, avg, X) && Keepers(before, D, avg, all, extra, X)
    modifies shards
    ensures Released(before, shards[..], D + {lastGid}, avg, X') && Keepers(before, D + {lastGid}, avg, all, left, X')
  {
    KeeperOne(before, D, avg, all, extra, X, lastGid);
    var r := cnt - avg;
    left := extra;
    var keeps := r > 0 && left > 0;
    if keeps {
      r := r - 1;
      left := left - 1;
    }
    ghost var s := shards[..];
    NothingRelabelled(s, lastGid, 0);
    if r > 0 {
      Relabel(shards, lastGid, 0, r);
    }
    X' := if keeps then X + {lastGid} else X;
    ReleaseOne(before, s, shards[..], D, avg, X, lastGid, r, keeps);
  }

  /** The first pass: every group that was there gives up what it has above the average; as long as extra
      shards are left, a group that has one keeps it. */
  method FirstPass(shards: array<int>, lastGroups: set<int>, lastCnt: map<int, int>, avg: nat, extra: nat)
    returns (finish: set<int>, left: nat, ghost X: set<int>)
    requires 0 !in lastGroups
    requires forall g :: g in lastGroups ==> (if g in lastCnt then lastCnt[g] else 0) == Count(shards[..], g) >= avg
    modifies shards
    ensures finish == lastGroups && Keepers(old(shards[..]), lastGroups, avg, extra, left, X)
    ensures Released(old(shards[..]), shards[..], lastGroups, avg, X)
  {
    ghost var before := shards[..];
    finish, left, X := {}, extra, {};
    var todo := lastGroups;
    while todo != {}
      invariant todo <= lastGroups && finish == lastGroups - todo
      invariant Keepers(before, finish, avg, extra, left, X) && Released(before, shards[..], finish, avg, X)
      decreases |todo|
    {
      var lastGid := AnyOf(todo);
      todo := todo - {lastGid};
      left, X := Release(shards, lastGid, if lastGid in lastCnt then lastCnt[lastGid] else 0, avg, left, before,
        extra, finish, X);
      finish := finish + {lastGid};
    }
  }

  /** What the second pass leaves: the new groups `E` have been given shards that were on group 0. */
  ghost predicate Assigned(mid: seq<int>, after: seq<int>, E: set<int>, avg: int) {
    && |after| == |mid|
    && (forall i :: 0 <= i < |mid| ==> after[i] == mid[i] || (mid[i] == 0 && after[i] in E))
    && (forall g :: g in E ==> avg <= Count(after, g) <= avg + 1)
    && (forall g :: g != 0 && g !in E ==> Count(after, g) == Count(mid, g))
  }

  lemma AssignOne(mid: seq<int>, s: seq<int>, t: seq<int>, E: set<int>, avg: int, g: int, r: int)
    requires Assigned(mid, s, E, avg) && 0 !in E && g != 0 && g !in E && Count(mid, g) == 0 && avg <= r <= avg + 1
    requires Relabelled(s, t, 0, g, r)
    ensures Assigned(mid, t, E + {g}, avg)
  {
  }

  /** The shards on group 0 are just enough for the groups `rest`. */
  ghost predicate Owed(s: seq<int>, rest: set<int>, avg: nat, extra: nat) {
    Count(s, 0) == Times(|rest|, avg) + extra && extra <= |rest|
  }

  /** Multiplication by repeated addition. */
  ghost function Times(n: nat, k: nat): nat {
    if n == 0 then 0 else Times(n - 1, k) + k
  }

  lemma {:induction false} TimesIsProduct(n: nat, k: nat)
    ensures Times(n, k) == n * k
  {
    if n > 0 {
      TimesIsProduct(n - 1, k);
      OneMore(n - 1, k);
    }
  }

  lemma {:induction false} TimesZero(n: nat)
    ensures Times(n, 0) == 0
  {
    if n > 0 {
      TimesZero(n - 1);
    }
  }

  /** A new group gets the average, and one more if an extra shard is left. */
  method Assign(shards: array<int>, gid: int, avg: nat, extra: nat, ghost rest: set<int>, ghost mid: seq<int>,
      ghost E: set<int>)
    returns (left: nat)
    requires gid in rest && Owed(shards[..], rest, avg, extra)
    requires 0 !in E && gid != 0 && gid !in E && Count(mid, gid) == 0 && Assigned(mid, shards[..], E, avg)
    modifies shards
    ensures Assigned(mid, shards[..], E + {gid}, avg)
    ensures Owed(shards[..], rest - {gid}, avg, left)
  {
    ghost var n := |rest - {gid}|;
    assert rest == rest - {gid} + {gid};
    TimesZero(n);
    left := extra;
    var r := avg;
    if left > 0 {
      r := r + 1;
      left := left - 1;
    }
    ghost var s := shards[..];
    Relabel(shards, 0, gid, r);
    AssignOne(mid, s, shards[..], E, avg, gid, r);
  }

  /** The second pass: the groups that are not finished get the shards that were given up. */
  method SecondPass(shards: array<int>, groups: set<int>, finish: set<int>, avg: nat, extra: nat)
    requires 0 !in groups && forall g :: g in groups - finish ==> Count(shards[..], g) == 0
    requires Owed(shards[..], groups - finish, avg, extra)
    modifies shards
    ensures Assigned(old(shards[..]), shards[..], groups - finish, avg) && Count(shards[..], 0) == 0
  {
    ghost var mid := shards[..];
    var todo := groups;
    var left: nat := extra;
    while todo != {}
      invariant todo <= groups && Owed(shards[..], todo - finish, avg, left)
      invariant Assigned(mid, shards[..], groups - finish - todo, avg)
      decreases |todo|
    {
      var gid := AnyOf(todo);
      left := AssignUnlessFinished(shards, gid, finish, avg, left, groups, todo, mid);
      todo := todo - {gid};
    }
  }

  method AssignUnlessFinished(shards: array<int>, gid: int, finish: set<int>, avg: nat, extra: nat,
      ghost groups: set<int>, ghost todo: set<int>, ghost mid: seq<int>)
    returns (left: nat)
    requires 0 !in groups && gid in todo && todo <= groups && (gid !in finish ==> Count(mid, gid) == 0)
    requires Owed(shards[..], todo - finish, avg, extra) && Assigned(mid, shards[..], groups - finish - todo, avg)
    modifies shards
    ensures Owed(shards[..], todo - {gid} - finish, avg, left) &&
      Assigned(mid, shards[..], groups - finish - (todo - {gid}), avg)
  {
    left := extra;
    if gid in finish {
      assert todo - {gid} - finish == todo - finish;
      assert groups - finish - (todo - {gid}) == groups - finish - todo;
    } else {
      assert todo - {gid} - finish == todo - finish - {gid};
      assert groups - finish - (todo - {gid}) == groups - finish - todo + {gid};
      left := Assign(shards, gid, avg, left, todo - finish, mid, groups - finish - todo);
    }
  }

  // Why the two passes fit together

  lemma Distribute(a: int, b: int, k: int)
    ensures (a - b) * k == a * k - b * k
  {
  }

  lemma AtMostQuotient(n: int, l: int, q: int)
    requires l > 0 && q * l <= n
    ensures q <= n / l
  {
    var d := n / l;
    Distribute(q, d, l);
    if q > d {
      AtLeast(l, q - d);
      assert false;
    }
  }

  lemma DivMono(n: nat, l: nat, m: nat)
    requires 0 < l <= m
    ensures n / m <= n / l && l * (n / m) <= m * (n / m)
  {
    var q := n / m;
    Distribute(m, l, q);
    assert (m - l) * q >= 0;
    AtMostQuotient(n, l, q);
  }

  /** Each group that was there has at least the new average. */
  lemma AboveAverage(before: seq<int>, L: set<int>, C: set<int>)
    requires Good(before, L) && L <= C && C != {}
    ensures forall g :: g in L ==> Count(before, g) >= |before| / |C|
  {
    if L != {} {
      BalancedCounts(before, L);
      SubsetSize(L, C);
      DivMono(|before|, |L|, |C|);
    }
  }

  /** All groups that were there are above the new average, or at least as many as there are extra shards. */
  lemma LargerSize(before: seq<int>, L: set<int>, C: set<int>)
    requires Balanced(before, L) && L != {} && L <= C
    ensures var k := |Larger(before, L, |before| / |C|)|;
            k == |L| || k >= |before| % |C|
  {
    var (n, l, m) := (|before|, |L|, |C|);
    SubsetSize(L, C);
    BalancedCounts(before, L);
    DivMono(n, l, m);
    if n / m < n / l {
      assert Larger(before, L, n / m) == L;
    } else {
      Remainders(n, l, m);
    }
  }

  lemma Remainders(n: nat, l: nat, m: nat)
    requires 0 < l <= m && n / l == n / m
    ensures n % l >= n % m
  {
  }

  /** The extra shards that the old groups leave are not more than the new groups. */
  lemma LeftFits(before: seq<int>, L: set<int>, C: set<int>, left: nat, X: set<int>)
    requires Good(before, L) && L <= C && C != {}
    requires Keepers(before, L, |before| / |C|, |before| % |C|, left, X)
    ensures left <= |C| - |L|
  {
    SubsetSize(L, C);
    if left > 0 && L != {} {
      LargerSize(before, L, C);
    }
  }

  /** How many shards the first pass frees. */
  lemma Freed(before: seq<int>, mid: seq<int>, L: set<int>, avg: nat, X: set<int>)
    requires Good(before, L) && Released(before, mid, L, avg, X)
    ensures Count(mid, 0) == |before| - |L| * avg - |X|
  {
    Total(mid, L, avg, X);
    CountInMore(mid, L, 0);
    CountInAll(mid, L + {0});
  }

  /** `avg` and `extra` are the quotient and the remainder. */
  ghost predicate Shares(n: nat, m: nat, avg: nat, extra: nat) {
    m > 0 && avg == n / m && extra == n % m
  }

  lemma OwedAfterFirst(before: seq<int>, mid: seq<int>, L: set<int>, C: set<int>, avg: nat, extra: nat, left: nat,
      X: set<int>)
    requires Good(before, L) && L <= C && C != {} && Shares(|before|, |C|, avg, extra)
    requires Keepers(before, L, avg, extra, left, X) && Released(before, mid, L, avg, X)
    ensures Owed(mid, C - L, avg, left)
  {
    Freed(before, mid, L, avg, X);
    LeftFits(before, L, C, left, X);
    Split(|before|, L, C, avg, extra);
  }

  lemma Split(n: nat, L: set<int>, C: set<int>, avg: nat, extra: nat)
    requires Shares(n, |C|, avg, extra) && L <= C
    ensures n - |L| * avg == Times(|C - L|, avg) + extra && |C - L| == |C| - |L|
  {
    assert C == L + (C - L);
    var (l, k) := (|L|, |C - L|);
    assert |C| == l + k;
    Recompose(n, l + k, avg, extra);
    SplitSum(n, l, k, avg, extra);
    TimesIsProduct(k, avg);
  }

  lemma Recompose(n: nat, m: nat, avg: nat, extra: nat)
    requires Shares(n, m, avg, extra)
    ensures n == m * avg + extra
  {
  }

  lemma SplitSum(n: int, l: int, k: int, avg: int, extra: int)
    requires n == (l + k) * avg + extra
    ensures n - l * avg == k * avg + extra
  {
  }

  lemma {:induction false} MovedIsFreed(before: seq<int>, mid: seq<int>, after: seq<int>)
    requires |before| == |mid| == |after| && forall i :: 0 <= i < |mid| ==> (mid[i] == 0 <==> before[i] != after[i])
    ensures Moved(before, after) == Count(mid, 0)
  {
    var n := |mid| - 1;
    if n >= 0 {
      MovedIsFreed(before[..n], mid[..n], after[..n]);
    }
  }

  lemma BalancedAfter(mid: seq<int>, after: seq<int>, L: set<int>, C: set<int>, avg: nat, X: set<int>)
    requires L <= C && 0 !in C && Assigned(mid, after, C - L, avg) && Count(after, 0) == 0
    requires forall g :: g in L ==> avg <= Count(mid, g) <= avg + 1
    requires forall i :: 0 <= i < |mid| ==> mid[i] == 0 || mid[i] in L
    ensures Balanced(after, C) && forall i :: 0 <= i < |after| ==> after[i] != 0
  {
    CountBound(after, 0);
    assert forall g :: g in C ==> avg <= Count(after, g) <= avg + 1;
  }

  /** A shard has moved exactly if the first pass freed it. */
  lemma MovedExactly(before: seq<int>, mid: seq<int>, after: seq<int>, L: set<int>, C: set<int>, avg: nat, X: set<int>)
    requires Good(before, L) && 0 !in C && Released(before, mid, L, avg, X) && Assigned(mid, after, C - L, avg)
    requires forall i :: 0 <= i < |after| ==> after[i] != 0
    ensures Moved(before, after) == Count(mid, 0)
    ensures forall i :: 0 <= i < |before| ==> after[i] == before[i] || after[i] in C - L
  {
    forall i | 0 <= i < |mid|
      ensures mid[i] == 0 <==> before[i] != after[i]
    {
      assert before[i] == 0 || before[i] in L;
    }
    MovedIsFreed(before, mid, after);
  }

  lemma FewestMoves(before: seq<int>, L: set<int>, C: set<int>, avg: nat, extra: nat, left: nat, X: set<int>,
      t: seq<int>)
    requires Good(before, L) && L <= C && C != {} && 0 !in C && Shares(|before|, |C|, avg, extra)
    requires Keepers(before, L, avg, extra, left, X) && |t| == |before| && Balanced(t, C)
    ensures |before| - |L| * avg - |X| <= Moved(before, t)
  {
    SubsetSize(X, Larger(before, L, avg));
    MovesNeeded(before, L, C, t);
  }

  /** The two passes together give what a join promises. */
  lemma JoinOutcome(before: seq<int>, mid: seq<int>, after: seq<int>, L: set<int>, C: set<int>, avg: nat, extra: nat,
      left: nat, X: set<int>)
    requires Good(before, L) && L <= C && C != {} && 0 !in C && Shares(|before|, |C|, avg, extra)
    requires Keepers(before, L, avg, extra, left, X) && Released(before, mid, L, avg, X)
    requires Assigned(mid, after, C - L, avg) && Count(after, 0) == 0
    ensures Rebalanced(before, L, after, C)
  {
    BalancedAfter(mid, after, L, C, avg, X);
    Freed(before, mid, L, avg, X);
    MovedExactly(before, mid, after, L, C, avg, X);
    forall t | |t| == |before| && Balanced(t, C)
      ensures Moved(before, after) <= Moved(before, t)
    {
      FewestMoves(before, L, C, avg, extra, left, X, t);
    }
  }

  /** With a single group there is only one balanced assignment. */
  lemma SingleGroup(before: seq<int>, L: set<int>, after: seq<int>, g: int)
    requires Good(before, L) && L <= {g} && |after| == |before| && forall i :: 0 <= i < |after| ==> after[i] == g
    ensures Rebalanced(before, L, after, {g})
  {
    forall t | |t| == |before| && Balanced(t, {g})
      ensures t == after
    {
    }
    if L != {} {
      assert L == {g};
    }
  }

  /** The new assignment of shards when the groups `groups` include all those of the last configuration. */
  method AdjustConfig(last: Config, groups: map<int, seq<string>>) returns (shards: seq<int>)
    requires Good(last.shards, last.groups.Keys) && last.groups.Keys <= groups.Keys && 0 !in groups
    ensures |shards| == |last.shards|
    ensures groups.Keys == {} ==> forall i :: 0 <= i < |shards| ==> shards[i] == 0
    ensures groups.Keys != {} ==> Rebalanced(last.shards, last.groups.Keys, shards, groups.Keys)
  {
    var (n, C) := (|last.shards|, groups.Keys);
    if |C| == 0 {
      shards := seq(n, _ => 0);
    } else if |C| == 1 {
      var gid := AnyOf(C);
      shards := seq(n, _ => gid);
      Only(C, gid);
      SingleGroup(last.shards, last.groups.Keys, shards, gid);
    } else {
      shards := AdjustMany(last.shards, last.groups.Keys, C);
    }
  }

  method AdjustMany(before: seq<int>, L: set<int>, C: set<int>) returns (shards: seq<int>)
    requires Good(before, L) && L <= C && C != {} && 0 !in C
    ensures Rebalanced(before, L, shards, C)
  {
    var n := |before|;
    var a := new int[n](i requires 0 <= i < n => before[i]);
    assert a[..] == before;
    AboveAverage(before, L, C);
    var avg: nat := n / |C|;
    var extra: nat := n % |C|;
    assert Shares(n, |C|, avg, extra);
    var lastCnt := LastCounts(before, C);
    var finish, left, X := FirstPass(a, L, lastCnt, avg, extra);
    ghost var mid := a[..];
    OwedAfterFirst(before, mid, L, C, avg, extra, left, X);
    NoneYet(before, mid, L, C, avg, X);
    SecondPass(a, C, finish, avg, left);
    shards := a[..];
    JoinOutcome(before, mid, shards, L, C, avg, extra, left, X);
  }

  lemma Only(C: set<int>, g: int)
    requires |C| == 1 && g in C
    ensures C == {g}
  {
    assert |C - {g}| == 0;
  }

  lemma NoneYet(before: seq<int>, mid: seq<int>, L: set<int>, C: set<int>, avg: nat, X: set<int>)
    requires Good(before, L) && 0 !in C && Released(before, mid, L, avg, X)
    ensures forall g :: g in C - L ==> Count(mid, g) == 0
  {
    forall g | g in C - L
      ensures Count(mid, g) == 0
    {
      CountBound(before, g);
    }
  }

  class ShardMaster {
    const nShards: nat
    var configs: seq<Config>

    /** Configuration k has number k, and all configurations are good. */
    ghost predicate Valid()
      reads this
    {
      && configs != []
      && (forall k :: 0 <= k < |configs| ==> configs[k].num == k && |configs[k].shards| == nShards)
      && (forall k :: 0 <= k < |configs| ==> Good(configs[k].shards, configs[k].groups.Keys))
    }

    constructor (nShards: nat)
      ensures Valid() && this.nShards == nShards && |configs| == 1 && configs[0].groups == map[]
    {
      this.nShards := nShards;
      configs := [Config(0, seq(nShards, _ => 0), map[])];
    }

    method GetConfigCopy(i: int) returns (c: Config)
      requires configs != []
      ensures c == if 0 <= i < |configs| then configs[i] else configs[|configs| - 1]
    {
      if i < 0 || i >= |configs| {
        c := configs[|configs| - 1];
      } else {
        c := configs[i];
      }
    }

    /** Adds groups. The shards end up balanced over all groups, owners change only towards the groups that
        joined, and no balanced assignment would have moved fewer shards. */
    method Join(servers: map<int, seq<string>>)
      requires Valid() && 0 !in servers
      modifies this
      ensures Valid() && |configs| == |old(configs)| + 1 && configs[..|old(configs)|] == old(configs)
      ensures var (before, after) := (old(configs)[|old(configs)| - 1], configs[|configs| - 1]);
              && after.groups == before.groups + servers
              && (after.groups.Keys != {} ==> Rebalanced(before.shards, before.groups.Keys, after.shards,
                after.groups.Keys))
    {
      var last := GetConfigCopy(-1);
      var groups := last.groups + servers;
      var shards := AdjustConfig(last, groups);
      configs := configs + [Config(last.num + 1, shards, groups)];
    }
  }
}
