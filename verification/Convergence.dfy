/** What the closed form of a delivery sequence implies: replicas converge, removes
    win over what did not know them, and the greatest add wins. */
module Convergence {
  import opened Collections
  import opened VectorClock
  import opened RemoveWin

  ghost predicate SameOps(a: seq<Op>, b: seq<Op>) {
    forall op :: op in a <==> op in b
  }

  lemma {:induction false} HistoryIsLeast(n: nat, ops: seq<Op>, c: Vector)
    requires AllWellFormed(n, ops) && Leq(Zero(n), c)
    requires forall k | 0 <= k < |ops| :: Leq(ops[k].t, c)
    ensures Leq(History(n, ops), c)
  {
    if ops != [] {
      HistoryIsLeast(n, ops[..|ops| - 1], c);
    }
  }

  lemma {:induction false} HistoryBySet(n: nat, a: seq<Op>, b: seq<Op>)
    requires AllWellFormed(n, a) && AllWellFormed(n, b) && SameOps(a, b)
    ensures History(n, a) == History(n, b)
  {
    HistoryCovers(n, a);
    HistoryCovers(n, b);
    forall k | 0 <= k < |a| ensures Leq(a[k].t, History(n, b)) {
      assert a[k] in b;
    }
    forall k | 0 <= k < |b| ensures Leq(b[k].t, History(n, a)) {
      assert b[k] in a;
    }
    HistoryIsLeast(n, a, History(n, b));
    HistoryIsLeast(n, b, History(n, a));
    LeqAntisymmetric(History(n, a), History(n, b));
  }

  lemma {:induction false} PidBySet(n: nat, a: seq<Op>, b: seq<Op>, j: Vector)
    requires AllWellFormed(n, a) && AllWellFormed(n, b) && SameOps(a, b)
    ensures Pid(a, j) == Pid(b, j)
  {
    PidAtMost(n, a, b, j);
    PidAtMost(n, b, a, j);
  }

  lemma {:induction false} PidAtMost(n: nat, a: seq<Op>, b: seq<Op>, j: Vector)
    requires AllWellFormed(n, a) && AllWellFormed(n, b) && SameOps(a, b)
    ensures Added(a, j) ==> Added(b, j) && Winner(a, j) <= Winner(b, j)
    ensures Updated(a, j) ==> Updated(b, j)
  {
    WinnerIsGreatest(n, a, j);
    WinnerIsGreatest(n, b, j);
    if Added(a, j) {
      var k :| 0 <= k < |a| && a[k].Add? && a[k].t == j && a[k].id == Winner(a, j);
      assert a[k] in b;
    }
    if Updated(a, j) {
      var k :| 0 <= k < |a| && a[k].IncrBy? && a[k].t == j;
      assert a[k] in b;
    }
  }

  /** Whatever the orders and however often each operation is repeated, two
      replicas that saw the same operations agree on the history and on the
      winner. */
  lemma {:induction false} HeaderConverges(n: nat, a: seq<Op>, b: seq<Op>)
    requires AllWellFormed(n, a) && AllWellFormed(n, b) && SameOps(a, b)
    ensures Deliver(n, a).current == Deliver(n, b).current
    ensures Deliver(n, a).pid == Deliver(n, b).pid
  {
    DeliverIsSummary(n, a);
    DeliverIsSummary(n, b);
    HistoryBySet(n, a, b);
    PidBySet(n, a, b, History(n, a));
  }

  lemma {:induction false} AcquiredSplit(ops: seq<Op>, k: nat, j: Vector)
    requires k < |ops|
    ensures Acquired(ops, j) == Acquired(ops[..k] + ops[k + 1..], j) + Weight(ops[k], j)
    decreases |ops|
  {
    var last := |ops| - 1;
    if k == last {
      assert ops[..k] + ops[k + 1..] == ops[..last];
    } else {
      AcquiredSplit(ops[..last], k, j);
      var rest := ops[..k] + ops[k + 1..];
      assert rest[..|rest| - 1] == ops[..last][..k] + ops[..last][k + 1..];
      assert rest[|rest| - 1] == ops[last];
    }
  }

  lemma {:induction false} DropOne(b: seq<Op>, k: nat)
    requires k < |b|
    ensures multiset(b[..k] + b[k + 1..]) == multiset(b) - multiset{b[k]}
  {
    assert b == b[..k] + [b[k]] + b[k + 1..];
  }

  lemma {:induction false} AcquiredByMultiset(a: seq<Op>, b: seq<Op>, j: Vector)
    requires multiset(a) == multiset(b)
    ensures Acquired(a, j) == Acquired(b, j)
    decreases |a|
  {
    if a == [] {
      assert |multiset(b)| == 0;
    } else {
      var last := |a| - 1;
      assert a[last] in multiset(b);
      var k :| 0 <= k < |b| && b[k] == a[last];
      var a', b' := a[..last], b[..k] + b[k + 1..];
      DropOne(a, last);
      assert a[..last] + a[last + 1..] == a';
      DropOne(b, k);
      AcquiredByMultiset(a', b', j);
      AcquiredSplit(b, k, j);
    }
  }

  /** A replica issues at most one add per history. */
  predicate AddsUnique(ops: seq<Op>) {
    forall x, y | 0 <= x < |ops| && 0 <= y < |ops| && ops[x].Add? && ops[y].Add?
      && ops[x].t == ops[y].t && ops[x].id == ops[y].id :: ops[x].v == ops[y].v
  }

  lemma {:induction false} SameMultisetSameOps(n: nat, a: seq<Op>, b: seq<Op>)
    requires AllWellFormed(n, a) && multiset(a) == multiset(b)
    ensures AllWellFormed(n, b) && SameOps(a, b)
  {
    forall op ensures op in a <==> op in b {
      assert op in a <==> op in multiset(a);
      assert op in b <==> op in multiset(b);
    }
    forall k | 0 <= k < |b| ensures WellFormed(n, b[k]) {
      assert b[k] in a;
    }
  }

  lemma {:induction false} InnateBySet(n: nat, a: seq<Op>, b: seq<Op>, j: Vector)
    requires AllWellFormed(n, a) && AllWellFormed(n, b) && SameOps(a, b) && AddsUnique(a)
    ensures Innate(a, j) == Innate(b, j)
  {
    WinnerIsGreatest(n, a, j);
    WinnerIsGreatest(n, b, j);
    PidAtMost(n, a, b, j);
    PidAtMost(n, b, a, j);
    if Added(a, j) {
      var y :| 0 <= y < |b| && b[y].Add? && b[y].t == j && b[y].id == Winner(b, j) && b[y].v == Innate(b, j);
      assert b[y] in a;
    }
  }

  /** Strong convergence: two delivery orders of the same operations, adds
      unique per history and issuer, leave equal elements, payload and visible
      score included. */
  lemma {:induction false} Converges(n: nat, a: seq<Op>, b: seq<Op>)
    requires AllWellFormed(n, a) && multiset(a) == multiset(b) && AddsUnique(a)
    ensures AllWellFormed(n, b)
    ensures Deliver(n, a) == Deliver(n, b)
  {
    SameMultisetSameOps(n, a, b);
    DeliverIsSummary(n, a);
    DeliverIsSummary(n, b);
    HistoryBySet(n, a, b);
    var j := History(n, a);
    PidBySet(n, a, b, j);
    AcquiredByMultiset(a, b, j);
    InnateBySet(n, a, b, j);
  }

  /** Operation k was issued knowing every history in `ops`. */
  predicate Tops(ops: seq<Op>, k: nat)
    requires k < |ops|
  {
    forall m | 0 <= m < |ops| :: Leq(ops[m].t, ops[k].t)
  }

  lemma {:induction false} TopsIsHistory(n: nat, ops: seq<Op>, k: nat)
    requires AllWellFormed(n, ops) && k < |ops|
    ensures Tops(ops, k) <==> ops[k].t == History(n, ops)
  {
    HistoryCovers(n, ops);
    if Tops(ops, k) {
      HistoryIsLeast(n, ops, ops[k].t);
      LeqAntisymmetric(History(n, ops), ops[k].t);
    }
  }

  /** Remove wins: the element is there iff some add or increment was issued
      knowing every history in play, and then its score is in the set. */
  lemma {:induction false} RemoveWins(n: nat, ops: seq<Op>)
    requires AllWellFormed(n, ops)
    ensures var e := Deliver(n, ops);
            && (Exists(e) <==> exists k | 0 <= k < |ops| :: !ops[k].Rem? && Tops(ops, k))
            && (e.score == if Exists(e) then Some(e.innate + e.acquired) else None)
  {
    ElementIsRead(n, ops);
    SummaryExists(n, ops, History(n, ops));
    forall k | 0 <= k < |ops| ensures Tops(ops, k) <==> ops[k].t == History(n, ops) {
      TopsIsHistory(n, ops, k);
    }
  }

  lemma {:induction false} ElementIsRead(n: nat, ops: seq<Op>)
    requires AllWellFormed(n, ops)
    ensures var e := Deliver(n, ops);
            && (Exists(e) <==> Pid(ops, History(n, ops)) != PID_NEXIST)
            && (e.score == if Exists(e) then Some(e.innate + e.acquired) else None)
  {
    DeliverIsSummary(n, ops);
  }

  lemma {:induction false} SummaryExists(n: nat, ops: seq<Op>, j: Vector)
    requires AllWellFormed(n, ops)
    ensures Pid(ops, j) != PID_NEXIST <==> exists k | 0 <= k < |ops| :: !ops[k].Rem? && ops[k].t == j
  {
    WinnerSign(n, ops, j);
    if k :| 0 <= k < |ops| && !ops[k].Rem? && ops[k].t == j {
      assert ops[k].Add? ==> Added(ops, j);
      assert ops[k].IncrBy? ==> Updated(ops, j);
    }
  }

  /** The winner is the greatest id among the adds that know every history, the
      waiting mark if only increments do, and the payload is its value. */
  lemma {:induction false} GreatestAddWins(n: nat, ops: seq<Op>)
    requires AllWellFormed(n, ops)
    ensures var e := Deliver(n, ops);
            && (e.pid >= 0 ==> exists k | 0 <= k < |ops| ::
                 ops[k].Add? && ops[k].t == e.current && ops[k].id == e.pid && ops[k].v == e.innate)
            && (forall k | 0 <= k < |ops| && ops[k].Add? && ops[k].t == e.current :: ops[k].id <= e.pid)
            && (e.pid == PID_WAIT_INNATE <==> !Added(ops, e.current) && Updated(ops, e.current))
            && (e.pid == PID_NEXIST <==> !Added(ops, e.current) && !Updated(ops, e.current))
  {
    DeliverIsSummary(n, ops);
    WinnerIsGreatest(n, ops, History(n, ops));
    WinnerSign(n, ops, History(n, ops));
  }
}
