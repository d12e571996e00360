/** Assignments of shards to groups: how many shards a group has, balance, and how few shards have to move
    when groups join. */
module Shards {
  import opened Collections

  /** How many shards group `g` has. */
  ghost function Count(s: seq<int>, g: int): nat {
    if s == [] then 0 else Count(s[..|s| - 1], g) + if s[|s| - 1] == g then 1 else 0
  }

  /** How many shards the groups in `G` have together. */
  ghost function CountIn(s: seq<int>, G: set<int>): nat {
    if s == [] then 0 else CountIn(s[..|s| - 1], G) + if s[|s| - 1] in G then 1 else 0
  }

  lemma {:induction false} CountUpdate(s: seq<int>, i: nat, v: int, g: int)
    requires i < |s|
    ensures Count(s[i := v], g) == Count(s, g) - (if s[i] == g then 1 else 0) + (if v == g then 1 else 0)
  {
    var n := |s| - 1;
    if i < n {
      CountUpdate(s[..n], i, v, g);
      assert s[i := v][..n] == s[..n][i := v];
    } else {
      assert s[i := v][..n] == s[..n];
    }
  }

  lemma {:induction false} CountBound(s: seq<int>, g: int)
    ensures Count(s, g) <= |s|
    ensures (exists i :: 0 <= i < |s| && s[i] == g) <==> Count(s, g) > 0
  {
    if s != [] {
      var t := s[..|s| - 1];
      CountBound(t, g);
      if Count(t, g) > 0 {
        var i :| 0 <= i < |t| && t[i] == g;
        assert s[i] == g;
      }
    }
  }

  lemma {:induction false} CountInMore(s: seq<int>, G: set<int>, g: int)
    requires g !in G
    ensures CountIn(s, G + {g}) == CountIn(s, G) + Count(s, g)
  {
    if s != [] {
      CountInMore(s[..|s| - 1], G, g);
    }
  }

  lemma {:induction false} CountInNone(s: seq<int>)
    ensures CountIn(s, {}) == 0
  {
    if s != [] {
      CountInNone(s[..|s| - 1]);
    }
  }

  lemma {:induction false} CountInAll(s: seq<int>, G: set<int>)
    requires forall i :: 0 <= i < |s| ==> s[i] in G
    ensures CountIn(s, G) == |s|
  {
    if s != [] {
      CountInAll(s[..|s| - 1], G);
    }
  }

  lemma OneMore(n: nat, avg: int)
    ensures (n + 1) * avg == n * avg + avg
  {
  }

  /** If each group in `G` has `avg` shards, and those in `X` one more, this is the total. */
  lemma {:induction false} Total(s: seq<int>, G: set<int>, avg: int, X: set<int>)
    requires X <= G && forall g :: g in G ==> Count(s, g) == avg + if g in X then 1 else 0
    ensures CountIn(s, G) == |G| * avg + |X|
    decreases |G|
  {
    if G == {} {
      CountInNone(s);
    } else {
      var g := Pick(G);
      var H := G - {g};
      Total(s, H, avg, X - {g});
      CountInMore(s, H, g);
      assert H + {g} == G;
      OneMore(|H|, avg);
    }
  }

  /** Every shard is on a group in `G`, and no group has two shards more than another. */
  ghost predicate Balanced(s: seq<int>, G: set<int>) {
    && (forall i :: 0 <= i < |s| ==> s[i] in G)
    && (forall g, h :: g in G && h in G ==> Count(s, g) <= Count(s, h) + 1)
  }

  /** The groups that have more than `avg` shards. */
  ghost function Larger(s: seq<int>, G: set<int>, avg: int): set<int> {
    set g | g in G && Count(s, g) > avg
  }

  lemma {:induction false} Smallest(s: seq<int>, G: set<int>) returns (h: int)
    requires G != {}
    ensures h in G && forall g :: g in G ==> Count(s, h) <= Count(s, g)
    decreases |G|
  {
    var x := Pick(G);
    h := x;
    if G != {x} {
      var y := Smallest(s, G - {x});
      if Count(s, y) < Count(s, x) {
        h := y;
      }
    }
  }

  lemma DivUnique(n: int, m: int, q: int, r: int)
    requires m > 0 && 0 <= r < m && n == m * q + r
    ensures q == n / m && r == n % m
  {
    var d := n / m;
    assert m * (d - q) == r - n % m;
    if d - q >= 1 {
      AtLeast(m, d - q);
    } else if d - q <= -1 {
      AtLeast(m, q - d);
    }
  }

  lemma AtLeast(m: int, k: int)
    requires m > 0 && k >= 1
    ensures m * k >= m
  {
  }

  /** In a balanced assignment every group has the average, rounded down, or one more, and how many have one
      more is the remainder. */
  lemma BalancedCounts(s: seq<int>, G: set<int>)
    requires Balanced(s, G) && G != {}
    ensures var avg := |s| / |G|;
            && (forall g :: g in G ==> avg <= Count(s, g) <= avg + 1)
            && |Larger(s, G, avg)| == |s| % |G|
  {
    var h := Smallest(s, G);
    var q := Count(s, h);
    var X := Larger(s, G, q);
    Total(s, G, q, X);
    CountInAll(s, G);
    assert X <= G - {h};
    SubsetSize(X, G - {h});
    DivUnique(|s|, |G|, q, |X|);
  }

  /** How many shards are elsewhere in `t` than in `s`. */
  ghost function Moved(s: seq<int>, t: seq<int>): nat
    requires |s| == |t|
  {
    if s == [] then 0 else Moved(s[..|s| - 1], t[..|s| - 1]) + if s[|s| - 1] == t[|s| - 1] then 0 else 1
  }

  /** How many shards of groups in `G` stay where they are. */
  ghost function Stay(s: seq<int>, t: seq<int>, G: set<int>): nat
    requires |s| == |t|
  {
    if s == [] then 0 else
    Stay(s[..|s| - 1], t[..|s| - 1], G) + if s[|s| - 1] == t[|s| - 1] && s[|s| - 1] in G then 1 else 0
  }

  lemma {:induction false} StayOrMove(s: seq<int>, t: seq<int>, G: set<int>)
    requires |s| == |t| && forall i :: 0 <= i < |s| ==> s[i] in G || s[i] != t[i]
    ensures Stay(s, t, G) + Moved(s, t) == |s|
  {
    if s != [] {
      StayOrMove(s[..|s| - 1], t[..|s| - 1], G);
    }
  }

  lemma {:induction false} StayMore(s: seq<int>, t: seq<int>, G: set<int>, g: int)
    requires |s| == |t| && g !in G
    ensures Stay(s, t, G + {g}) == Stay(s, t, G) + Stay(s, t, {g})
  {
    if s != [] {
      StayMore(s[..|s| - 1], t[..|s| - 1], G, g);
    }
  }

  lemma {:induction false} StayAtMost(s: seq<int>, t: seq<int>, g: int)
    requires |s| == |t|
    ensures Stay(s, t, {g}) <= Count(s, g) && Stay(s, t, {g}) <= Count(t, g)
  {
    if s != [] {
      StayAtMost(s[..|s| - 1], t[..|s| - 1], g);
    }
  }

  lemma {:induction false} StayNone(s: seq<int>, t: seq<int>)
    requires |s| == |t|
    ensures Stay(s, t, {}) == 0
  {
    if s != [] {
      StayNone(s[..|s| - 1], t[..|s| - 1]);
    }
  }

  /** A group keeps at most `avg` shards, or one more if it has more both before and after. */
  lemma {:induction false} StayTotal(s: seq<int>, t: seq<int>, G: set<int>, avg: nat)
    requires |s| == |t| && forall g :: g in G ==> Count(t, g) <= avg + 1
    ensures Stay(s, t, G) <= |G| * avg + |BothLarger(s, t, G, avg)|
    decreases |G|
  {
    if G == {} {
      StayNone(s, t);
    } else {
      var g := Pick(G);
      var H := G - {g};
      StayTotal(s, t, H, avg);
      StayMore(s, t, H, g);
      StayAtMost(s, t, g);
      assert H + {g} == G;
      OneMore(|H|, avg);
      LargerMore(s, t, H, g, avg);
    }
  }

  ghost function BothLarger(s: seq<int>, t: seq<int>, G: set<int>, avg: int): set<int> {
    set g | g in G && Count(s, g) > avg && Count(t, g) > avg
  }

  lemma LargerMore(s: seq<int>, t: seq<int>, H: set<int>, g: int, avg: nat)
    requires g !in H
    ensures |BothLarger(s, t, H + {g}, avg)| ==
      |BothLarger(s, t, H, avg)| + if Count(s, g) > avg && Count(t, g) > avg then 1 else 0
  {
    var (W, V) := (BothLarger(s, t, H + {g}, avg), BothLarger(s, t, H, avg));
    if Count(s, g) > avg && Count(t, g) > avg {
      assert W == V + {g};
    } else {
      assert W == V;
    }
  }

  /** The least number of moves: if `s` is on the groups `L`, any balanced assignment to the groups `C`
      moves all but so many shards. */
  lemma MovesNeeded(s: seq<int>, L: set<int>, C: set<int>, t: seq<int>)
    requires |t| == |s| && L <= C && C != {} && Balanced(t, C)
    requires forall i :: 0 <= i < |s| ==> s[i] in L || s[i] !in C
    ensures var (avg, left) := (|s| / |C|, |s| % |C|);
            var k := |Larger(s, L, avg)|;
            Moved(s, t) >= |s| - |L| * avg - (if k < left then k else left)
  {
    var avg := |s| / |C|;
    BalancedCounts(t, C);
    StayTotal(s, t, L, avg);
    StayOrMove(s, t, L);
    var (W, K) := (BothLarger(s, t, L, avg), Larger(s, L, avg));
    SubsetSize(W, K);
    SubsetSize(W, Larger(t, C, avg));
  }
}
