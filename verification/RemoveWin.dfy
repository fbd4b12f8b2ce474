/** The remove-win framework (RWFramework.h) under the sorted set of
    t_rwfzset.c. An element carries the id of its winning add and the join of
    every remove history it has seen; three checks decide what an operation
    does when it arrives. This module gives the effect of one operation and the
    closed form of a whole delivery sequence. */
module RemoveWin {
  import opened Collections
  import opened VectorClock

  const PID_NEXIST := -1
  const PID_WAIT_INNATE := -2

  /** An operation as it is broadcast: `t` is the remove history attached by
      the prepare phase, `id` the issuing replica. */
  datatype Op =
    | Add(t: Vector, id: int, v: real)
    | IncrBy(t: Vector, v: real)
    | Rem(t: Vector)

  /** An element of the container; `score` is its entry in the sorted set that
      clients read. */
  datatype Element = Element(current: Vector, pid: int, innate: real, acquired: real, score: Option<real>)

  predicate WellFormed(n: nat, op: Op) {
    && |op.t| == n
    && (forall i | 0 <= i < n :: 0 <= op.t[i])
    && (op.Add? ==> 0 <= op.id)
  }

  predicate AllWellFormed(n: nat, ops: seq<Op>) {
    forall k | 0 <= k < |ops| :: WellFormed(n, ops[k])
  }

  function Fresh(n: nat): Element {
    Element(Zero(n), PID_NEXIST, 0.0, 0.0, None)
  }

  predicate Exists(e: Element) {
    e.pid != PID_NEXIST
  }

  // ---------------------------------------------------------------- effects

  /** removeFunc over removeCheck: a history that is not covered yet is merged
      and wipes the element. */
  function Forget(e: Element, t: Vector): Element
    requires |t| == |e.current|
  {
    if Leq(t, e.current) then e else Element(Join(e.current, t), PID_NEXIST, 0.0, 0.0, None)
  }

  /** addCheck, and the store it guards. */
  function Admit(e: Element, t: Vector, id: int, v: real): Element {
    if t == e.current && e.pid < id then
      e.(pid := id, innate := v, score := Some(v + e.acquired))
    else e
  }

  /** updateCheck, and the increment it guards. */
  function Raise(e: Element, t: Vector, v: real): Element {
    if t == e.current then
      e.(pid := if Exists(e) then e.pid else PID_WAIT_INNATE,
         acquired := e.acquired + v,
         score := Some(e.innate + (e.acquired + v)))
    else e
  }

  /** The effect phase of RWFZADD, RWFZINCRBY and RWFZREM. */
  function Effect(e: Element, op: Op): (r: Element)
    requires |op.t| == |e.current|
    ensures |r.current| == |e.current|
  {
    var f := Forget(e, op.t);
    match op
    case Add(t, id, v) => Admit(f, t, id, v)
    case IncrBy(t, v) => Raise(f, t, v)
    case Rem(_) => f
  }

  /** The element after the operations arrived in the given order. */
  function Deliver(n: nat, ops: seq<Op>): (r: Element)
    requires AllWellFormed(n, ops)
    ensures |r.current| == n
  {
    if ops == [] then Fresh(n)
    else Effect(Deliver(n, ops[..|ops| - 1]), ops[|ops| - 1])
  }

  // ------------------------------------------------------------ closed form

  /** The join of every history in `ops`. */
  function History(n: nat, ops: seq<Op>): (r: Vector)
    requires AllWellFormed(n, ops)
    ensures |r| == n
  {
    if ops == [] then Zero(n)
    else Join(History(n, ops[..|ops| - 1]), ops[|ops| - 1].t)
  }

  /** The greatest id among the adds issued with exactly the history `j`. */
  function Winner(ops: seq<Op>, j: Vector): int {
    if ops == [] then PID_NEXIST
    else
      var op := ops[|ops| - 1];
      var w := Winner(ops[..|ops| - 1], j);
      if op.Add? && op.t == j && w < op.id then op.id else w
  }

  /** The value of the first add to arrive with the winning id. */
  function Innate(ops: seq<Op>, j: Vector): real {
    if ops == [] then 0.0
    else
      var op := ops[|ops| - 1];
      var rest := ops[..|ops| - 1];
      if op.Add? && op.t == j && Winner(rest, j) < op.id then op.v else Innate(rest, j)
  }

  function Weight(op: Op, j: Vector): real {
    if op.IncrBy? && op.t == j then op.v else 0.0
  }

  /** The sum of the increments issued with exactly the history `j`. */
  function Acquired(ops: seq<Op>, j: Vector): real {
    if ops == [] then 0.0 else Acquired(ops[..|ops| - 1], j) + Weight(ops[|ops| - 1], j)
  }

  predicate Updated(ops: seq<Op>, j: Vector) {
    exists k | 0 <= k < |ops| :: ops[k].IncrBy? && ops[k].t == j
  }

  predicate Added(ops: seq<Op>, j: Vector) {
    exists k | 0 <= k < |ops| :: ops[k].Add? && ops[k].t == j
  }

  function PidOf(added: bool, winner: int, updated: bool): int {
    if added then winner else if updated then PID_WAIT_INNATE else PID_NEXIST
  }

  function Pid(ops: seq<Op>, j: Vector): int {
    PidOf(Added(ops, j), Winner(ops, j), Updated(ops, j))
  }

  function Assemble(j: Vector, pid: int, innate: real, acquired: real): Element {
    Element(j, pid, innate, acquired, if pid == PID_NEXIST then None else Some(innate + acquired))
  }

  function Summary(n: nat, ops: seq<Op>): Element
    requires AllWellFormed(n, ops)
  {
    var j := History(n, ops);
    Assemble(j, Pid(ops, j), Innate(ops, j), Acquired(ops, j))
  }

  /** Histories outside the list of operations own nothing. */
  lemma {:induction false} NothingElsewhere(ops: seq<Op>, j: Vector)
    requires forall k | 0 <= k < |ops| :: ops[k].t != j
    ensures Winner(ops, j) == PID_NEXIST && Innate(ops, j) == 0.0 && Acquired(ops, j) == 0.0
  {
    if ops != [] {
      NothingElsewhere(ops[..|ops| - 1], j);
    }
  }

  lemma {:induction false} HistoryCovers(n: nat, ops: seq<Op>)
    requires AllWellFormed(n, ops)
    ensures forall k | 0 <= k < |ops| :: Leq(ops[k].t, History(n, ops))
    ensures Leq(Zero(n), History(n, ops))
  {
    if ops != [] {
      var rest := ops[..|ops| - 1];
      HistoryCovers(n, rest);
      forall k | 0 <= k < |ops| ensures Leq(ops[k].t, History(n, ops)) {
        if k < |ops| - 1 {
          assert rest[k] == ops[k];
        }
      }
    }
  }

  lemma {:induction false} WinnerIsGreatest(n: nat, ops: seq<Op>, j: Vector)
    requires AllWellFormed(n, ops)
    ensures PID_NEXIST <= Winner(ops, j)
    ensures forall k | 0 <= k < |ops| && ops[k].Add? && ops[k].t == j :: ops[k].id <= Winner(ops, j)
    ensures Added(ops, j) <==> Winner(ops, j) != PID_NEXIST
    ensures Added(ops, j) ==> exists k | 0 <= k < |ops| ::
              ops[k].Add? && ops[k].t == j && ops[k].id == Winner(ops, j) && ops[k].v == Innate(ops, j)
    ensures !Added(ops, j) ==> Innate(ops, j) == 0.0
  {
    if ops != [] {
      var last := |ops| - 1;
      var rest := ops[..last];
      WinnerIsGreatest(n, rest, j);
      assert forall k | 0 <= k < last :: rest[k] == ops[k];
      if Added(rest, j) {
        var k :| 0 <= k < |rest| && rest[k].Add? && rest[k].t == j && rest[k].id == Winner(rest, j)
          && rest[k].v == Innate(rest, j);
        assert ops[k] == rest[k];
      }
      assert ops[last].Add? && ops[last].t == j ==> Added(ops, j);
    }
  }

  lemma {:induction false} WinnerSign(n: nat, ops: seq<Op>, j: Vector)
    requires AllWellFormed(n, ops)
    ensures if Added(ops, j) then 0 <= Winner(ops, j) else Winner(ops, j) == PID_NEXIST
  {
    WinnerIsGreatest(n, ops, j);
  }

  /** The arrival order leaves no other trace than the summary. */
  lemma {:induction false} DeliverIsSummary(n: nat, ops: seq<Op>)
    requires AllWellFormed(n, ops)
    ensures Deliver(n, ops) == Summary(n, ops)
  {
    if ops != [] {
      var last := |ops| - 1;
      var rest := ops[..last];
      DeliverIsSummary(n, rest);
      SummaryStep(n, rest, ops[last]);
      assert rest + [ops[last]] == ops;
    }
  }

  /** Appending one operation extends every part of the summary by one case. */
  lemma {:induction false} Append(n: nat, rest: seq<Op>, op: Op, j: Vector)
    requires AllWellFormed(n, rest) && WellFormed(n, op)
    ensures AllWellFormed(n, rest + [op])
    ensures History(n, rest + [op]) == Join(History(n, rest), op.t)
    ensures Updated(rest + [op], j) <==> Updated(rest, j) || (op.IncrBy? && op.t == j)
    ensures Added(rest + [op], j) <==> Added(rest, j) || (op.Add? && op.t == j)
    ensures var wins := op.Add? && op.t == j && Winner(rest, j) < op.id;
            && Winner(rest + [op], j) == (if wins then op.id else Winner(rest, j))
            && Innate(rest + [op], j) == (if wins then op.v else Innate(rest, j))
    ensures Acquired(rest + [op], j) == Acquired(rest, j) + Weight(op, j)
  {
    var ops := rest + [op];
    assert ops[..|ops| - 1] == rest && ops[|rest|] == op;
    assert forall k | 0 <= k < |rest| :: ops[k] == rest[k];
  }

  lemma {:induction false} SummaryStep(n: nat, rest: seq<Op>, op: Op)
    requires AllWellFormed(n, rest) && WellFormed(n, op)
    ensures AllWellFormed(n, rest + [op])
    ensures Effect(Summary(n, rest), op) == Summary(n, rest + [op])
  {
    if Leq(op.t, History(n, rest)) {
      CoveredStep(n, rest, op);
    } else {
      OverrunStep(n, rest, op);
    }
  }

  lemma {:induction false} CoveredStep(n: nat, rest: seq<Op>, op: Op)
    requires AllWellFormed(n, rest) && WellFormed(n, op) && Leq(op.t, History(n, rest))
    ensures AllWellFormed(n, rest + [op])
    ensures Effect(Summary(n, rest), op) == Summary(n, rest + [op])
  {
    var j := History(n, rest);
    JoinAbsorbs(j, op.t);
    Append(n, rest, op, j);
    WinnerSign(n, rest, j);
    AssembleStep(j, Added(rest, j), Winner(rest, j), Updated(rest, j), Innate(rest, j), Acquired(rest, j), op);
  }

  /** The effect of an operation whose history is covered, part by part. */
  lemma {:induction false} AssembleStep(j: Vector, added: bool, w: int, updated: bool, x: real, a: real, op: Op)
    requires |op.t| == |j| && Leq(op.t, j) && (op.Add? ==> 0 <= op.id)
    requires if added then 0 <= w else w == PID_NEXIST
    ensures var wins := op.Add? && op.t == j && w < op.id;
            Effect(Assemble(j, PidOf(added, w, updated), x, a), op)
              == Assemble(j, PidOf(added || (op.Add? && op.t == j), if wins then op.id else w,
                                   updated || (op.IncrBy? && op.t == j)),
                          if wins then op.v else x, a + Weight(op, j))
  {
  }

  lemma {:induction false} OverrunStep(n: nat, rest: seq<Op>, op: Op)
    requires AllWellFormed(n, rest) && WellFormed(n, op) && !Leq(op.t, History(n, rest))
    ensures AllWellFormed(n, rest + [op])
    ensures Effect(Summary(n, rest), op) == Summary(n, rest + [op])
  {
    var j' := Join(History(n, rest), op.t);
    Append(n, rest, op, j');
    OverrunOwnsNothing(n, rest, op.t);
    assert Forget(Summary(n, rest), op.t) == Element(j', PID_NEXIST, 0.0, 0.0, None);
  }

  /** A history that is not covered moves the join to where nothing lives yet. */
  lemma {:induction false} OverrunOwnsNothing(n: nat, rest: seq<Op>, t: Vector)
    requires AllWellFormed(n, rest) && |t| == n && !Leq(t, History(n, rest))
    ensures var j' := Join(History(n, rest), t);
            && Winner(rest, j') == PID_NEXIST && Innate(rest, j') == 0.0 && Acquired(rest, j') == 0.0
            && !Added(rest, j') && !Updated(rest, j')
  {
    var j := History(n, rest);
    var j' := Join(j, t);
    HistoryCovers(n, rest);
    forall k | 0 <= k < |rest| ensures rest[k].t != j' {
      if rest[k].t == j' {
        LeqAntisymmetric(j, j');
      }
    }
    NothingElsewhere(rest, j');
  }
}
