/** Parent links between layers.  A base layer, and a layer nobody knows, both have the parent "". */
module ParentChain {

  type Parents = map<string, string>

  function Parent(p: Parents, id: string): string {
    if id in p then p[id] else ""
  }

  /** The layer reached from `id` after `n` steps towards the base. */
  function Climb(p: Parents, id: string, n: nat): string
    decreases n
  {
    if n == 0 then id else Climb(p, Parent(p, id), n - 1)
  }

  /** `x` lies on the chain that starts at `id`. */
  ghost predicate OnChain(p: Parents, id: string, x: string) {
    x != "" && exists n: nat :: Climb(p, id, n) == x
  }

  /** `rank` falls on every step towards the base. */
  ghost predicate Ranked(p: Parents, rank: map<string, nat>) {
    && "" !in p
    && forall id :: id in p ==> id in rank && (p[id] in p ==> p[id] in rank && rank[p[id]] < rank[id])
  }

  ghost predicate Acyclic(p: Parents) {
    exists rank :: Ranked(p, rank)
  }

  /** What a walk towards the base still has in front of it. */
  ghost function Remaining(p: Parents, rank: map<string, nat>, id: string): nat
    requires Ranked(p, rank)
  {
    if id == "" then 0 else if id in p then rank[id] + 2 else 1
  }

  lemma RemainingFalls(p: Parents, rank: map<string, nat>, id: string)
    requires Ranked(p, rank) && id != ""
    ensures Remaining(p, rank, Parent(p, id)) < Remaining(p, rank, id)
  {
  }

  lemma {:induction false} ClimbTurns(p: Parents, id: string, n: nat)
    ensures Climb(p, id, n + 1) == Parent(p, Climb(p, id, n))
    decreases n
  {
    if n > 0 {
      ClimbTurns(p, Parent(p, id), n - 1);
    }
  }

  lemma {:induction false} ClimbAdds(p: Parents, id: string, m: nat, n: nat)
    ensures Climb(p, id, m + n) == Climb(p, Climb(p, id, m), n)
    decreases m
  {
    if m > 0 {
      ClimbAdds(p, Parent(p, id), m - 1, n);
    }
  }

  lemma {:induction false} ClimbFromNothing(p: Parents, n: nat)
    requires "" !in p
    ensures Climb(p, "", n) == ""
    decreases n
  {
    if n > 0 {
      ClimbFromNothing(p, n - 1);
    }
  }

  /** Once a chain has ended it stays ended. */
  lemma ChainEnds(p: Parents, id: string, m: nat, n: nat)
    requires "" !in p && m <= n && Climb(p, id, m) == ""
    ensures Climb(p, id, n) == ""
  {
    ClimbAdds(p, id, m, n - m);
    ClimbFromNothing(p, n - m);
  }

  lemma {:induction false} RankFalls(p: Parents, rank: map<string, nat>, id: string, n: nat)
    requires Ranked(p, rank) && Climb(p, id, n) != ""
    ensures Remaining(p, rank, Climb(p, id, n)) + n <= Remaining(p, rank, id)
    decreases n
  {
    if n > 0 {
      if id == "" {
        ClimbFromNothing(p, n);
      } else {
        RankFalls(p, rank, Parent(p, id), n - 1);
      }
    }
  }

  /** A chain without cycles visits every layer at most once. */
  lemma ChainVisitsOnce(p: Parents, id: string, m: nat, n: nat)
    requires Acyclic(p) && Climb(p, id, m) == Climb(p, id, n) != ""
    ensures m == n
  {
    var rank :| Ranked(p, rank);
    var lo, hi := if m <= n then m else n, if m <= n then n else m;
    ClimbAdds(p, id, lo, hi - lo);
    RankFalls(p, rank, Climb(p, id, lo), hi - lo);
  }

  lemma ChainOfSelf(p: Parents, id: string)
    requires id != ""
    ensures OnChain(p, id, id)
  {
    assert Climb(p, id, 0) == id;
  }

  /** What is on the chain of a layer on the chain of `id` is on the chain of `id`. */
  lemma ChainExtends(p: Parents, id: string, x: string, y: string)
    requires OnChain(p, id, x) && OnChain(p, x, y)
    ensures OnChain(p, id, y)
  {
    var m: nat :| Climb(p, id, m) == x;
    var n: nat :| Climb(p, x, n) == y;
    ClimbAdds(p, id, m, n);
  }
}
