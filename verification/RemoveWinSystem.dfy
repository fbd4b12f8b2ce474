/** Replicas of one remove-win element. A command runs its prepare phase and
    its local effect as one step (CRDT.h) and its arguments are broadcast; every
    other replica applies the operation once, at any later time and in any
    order. */
module RemoveWinSystem {
  import opened Collections
  import opened VectorClock
  import opened RemoveWin
  import opened Convergence

  /** `issued` lists the broadcast operations with their origin, `delivered[r]`
      the positions in `issued` that replica r applied, in its own order. */
  datatype System = System(issued: seq<(nat, Op)>, delivered: seq<seq<nat>>, local: seq<Element>)

  datatype Step =
    | LocalAdd(r: nat, v: real)
    | LocalIncr(r: nat, v: real)
    | LocalRem(r: nat)
    | Receive(r: nat, k: nat)

  function Init(n: nat): System {
    System([], seq(n, i => []), seq(n, i => Fresh(n)))
  }

  predicate Shape(n: nat, s: System) {
    && |s.local| == n && |s.delivered| == n
    && (forall r | 0 <= r < n :: |s.local[r].current| == n)
    && (forall k | 0 <= k < |s.issued| :: s.issued[k].0 < n && WellFormed(n, s.issued[k].1))
    && (forall r, i | 0 <= r < n && 0 <= i < |s.delivered[r]| :: s.delivered[r][i] < |s.issued|)
  }

  /** Broadcast `op` from replica r and apply it there at once. */
  function Issue(n: nat, s: System, r: nat, op: Op): System
    requires Shape(n, s) && r < n && |op.t| == n
  {
    System(s.issued + [(r, op)],
           s.delivered[r := s.delivered[r] + [|s.issued|]],
           s.local[r := Effect(s.local[r], op)])
  }

  /** The preconditions of the prepare phase are the guards of the steps; a
      refused command changes nothing. */
  predicate Enabled(n: nat, s: System, step: Step)
    requires Shape(n, s)
  {
    && step.r < n
    && match step
       case LocalAdd(r, _) => !Exists(s.local[r])
       case LocalIncr(r, _) => Exists(s.local[r])
       case LocalRem(r) => Exists(s.local[r])
       case Receive(r, k) => k < |s.issued| && k !in s.delivered[r]
  }

  function Operation(n: nat, s: System, step: Step): (op: Op)
    requires Shape(n, s) && Enabled(n, s, step)
    ensures |op.t| == n
  {
    match step
    case LocalAdd(r, v) => Add(s.local[r].current, r, v)
    case LocalIncr(r, v) => IncrBy(s.local[r].current, v)
    case LocalRem(r) => Rem(s.local[r].current[r := s.local[r].current[r] + 1])
    case Receive(r, k) => s.issued[k].1
  }

  function Do(n: nat, s: System, step: Step): System
    requires Shape(n, s) && Enabled(n, s, step)
  {
    var op := Operation(n, s, step);
    match step
    case Receive(r, k) =>
      s.(delivered := s.delivered[r := s.delivered[r] + [k]], local := s.local[r := Effect(s.local[r], op)])
    case _ => Issue(n, s, step.r, op)
  }

  // -------------------------------------------------------------- invariant

  /** The operations at the given positions of `issued`. */
  function Pick(n: nat, s: System, d: seq<nat>): (ops: seq<Op>)
    requires Shape(n, s) && forall i | 0 <= i < |d| :: d[i] < |s.issued|
    ensures |ops| == |d| && AllWellFormed(n, ops)
    ensures forall i | 0 <= i < |d| :: ops[i] == s.issued[d[i]].1
  {
    seq(|d|, i requires 0 <= i < |d| => s.issued[d[i]].1)
  }

  /** The operations a replica applied, in order. */
  function Seen(n: nat, s: System, r: nat): (ops: seq<Op>)
    requires Shape(n, s) && r < n
    ensures |ops| == |s.delivered[r]| && AllWellFormed(n, ops)
  {
    Pick(n, s, s.delivered[r])
  }

  /** Every replica is the replay of what it applied. */
  predicate Replayed(n: nat, s: System)
    requires Shape(n, s)
  {
    forall r | 0 <= r < n :: s.local[r] == Deliver(n, Seen(n, s, r))
  }

  /** Every message is applied at most once, and at its origin at once. */
  predicate AppliedOnce(n: nat, s: System)
    requires Shape(n, s)
  {
    forall r | 0 <= r < n ::
      Distinct(s.delivered[r]) && forall k | 0 <= k < |s.issued| && s.issued[k].0 == r :: k in s.delivered[r]
  }

  predicate OwnAddsBehind(n: nat, s: System)
    requires Shape(n, s)
  {
    forall k | 0 <= k < |s.issued| && s.issued[k].1.Add? ::
      var (r, op) := s.issued[k];
      op.id == r && Leq(op.t, s.local[r].current) && (op.t == s.local[r].current ==> Exists(s.local[r]))
  }

  /** A replica never issues two adds with the same history. */
  predicate AddsUniqueBySystem(s: System) {
    forall x, y | 0 <= x < y < |s.issued| && s.issued[x].1.Add? && s.issued[y].1.Add? ::
      s.issued[x].1.t != s.issued[y].1.t || s.issued[x].1.id != s.issued[y].1.id
  }

  /** The removes issued so far account for every component of `t`. */
  predicate Known(s: System, t: Vector) {
    forall i | 0 <= i < |t| :: t[i] <= 0 ||
      exists k | 0 <= k < |s.issued| :: s.issued[k].1.Rem? && i < |s.issued[k].1.t| && t[i] <= s.issued[k].1.t[i]
  }

  predicate AllKnown(n: nat, s: System)
    requires Shape(n, s)
  {
    && (forall k | 0 <= k < |s.issued| :: Known(s, s.issued[k].1.t))
    && (forall r | 0 <= r < n :: Known(s, s.local[r].current))
  }

  predicate Inv(n: nat, s: System) {
    Shape(n, s) && Replayed(n, s) && AppliedOnce(n, s) && OwnAddsBehind(n, s) && AddsUniqueBySystem(s) && AllKnown(n, s)
      && NonNegative(n, s)
  }

  lemma {:induction false} EffectGrows(e: Element, op: Op)
    requires |op.t| == |e.current|
    ensures var f := Effect(e, op);
            && Leq(e.current, f.current) && Leq(op.t, f.current)
            && f.current == Join(e.current, op.t)
            && (f.current == e.current && Exists(e) ==> Exists(f) || (op.Add? && op.id == PID_NEXIST))
  {
    if Leq(op.t, e.current) {
      JoinAbsorbs(e.current, op.t);
    }
  }

  lemma {:induction false} IssuedAddLands(n: nat, s: System, step: Step)
    requires Shape(n, s) && Enabled(n, s, step) && step.LocalAdd?
    ensures Exists(Effect(s.local[step.r], Operation(n, s, step)))
    ensures Effect(s.local[step.r], Operation(n, s, step)).current == s.local[step.r].current
  {
    assert Leq(s.local[step.r].current, s.local[step.r].current);
  }

  predicate NonNegative(n: nat, s: System)
    requires Shape(n, s)
  {
    forall r | 0 <= r < n :: Leq(Zero(n), s.local[r].current)
  }

  lemma {:induction false} OperationWellFormed(n: nat, s: System, step: Step)
    requires Shape(n, s) && NonNegative(n, s) && Enabled(n, s, step)
    ensures WellFormed(n, Operation(n, s, step))
  {
    assert forall i | 0 <= i < n :: Zero(n)[i] <= s.local[step.r].current[i];
  }

  lemma {:induction false} ShapeKept(n: nat, s: System, step: Step)
    requires Shape(n, s) && NonNegative(n, s) && Enabled(n, s, step)
    ensures Shape(n, Do(n, s, step)) && NonNegative(n, Do(n, s, step))
  {
    OperationWellFormed(n, s, step);
    EffectGrows(s.local[step.r], Operation(n, s, step));
    var s' := Do(n, s, step);
    forall r | 0 <= r < n ensures |s'.local[r].current| == n && Leq(Zero(n), s'.local[r].current) {
      if r != step.r {
        assert s'.local[r] == s.local[r];
      }
    }
    assert step.Receive? ==> s'.issued == s.issued;
  }

  lemma {:induction false} DeliverMore(n: nat, ops: seq<Op>, op: Op)
    requires AllWellFormed(n, ops) && WellFormed(n, op)
    ensures AllWellFormed(n, ops + [op])
    ensures Deliver(n, ops + [op]) == Effect(Deliver(n, ops), op)
  {
    assert (ops + [op])[..|ops|] == ops;
  }

  lemma {:induction false} SeenKept(n: nat, s: System, step: Step, r: nat)
    requires Shape(n, s) && Enabled(n, s, step) && Shape(n, Do(n, s, step)) && r < n
    ensures Seen(n, Do(n, s, step), r)
              == if r == step.r then Seen(n, s, r) + [Operation(n, s, step)] else Seen(n, s, r)
  {
  }

  lemma {:induction false} ReplayedKept(n: nat, s: System, step: Step)
    requires Inv(n, s) && Enabled(n, s, step) && Shape(n, Do(n, s, step))
    ensures Replayed(n, Do(n, s, step))
  {
    var s' := Do(n, s, step);
    OperationWellFormed(n, s, step);
    forall r | 0 <= r < n
      ensures s'.local[r] == Deliver(n, Seen(n, s', r))
    {
      SeenKept(n, s, step, r);
      DeliverMore(n, Seen(n, s, r), Operation(n, s, step));
    }
  }

  lemma {:induction false} AppliedOnceKept(n: nat, s: System, step: Step)
    requires Shape(n, s) && Enabled(n, s, step) && AppliedOnce(n, s) && Shape(n, Do(n, s, step))
    ensures AppliedOnce(n, Do(n, s, step))
  {
    var s' := Do(n, s, step);
    var k := if step.Receive? then step.k else |s.issued|;
    var d := s.delivered[step.r];
    assert Distinct(d) && k !in d;
    assert s'.delivered == s.delivered[step.r := d + [k]];
    assert k in d + [k] && forall m | m in d :: m in d + [k];
  }

  lemma {:induction false} UniqueKept(n: nat, s: System, step: Step)
    requires Shape(n, s) && OwnAddsBehind(n, s) && AddsUniqueBySystem(s)
    requires Enabled(n, s, step) && Shape(n, Do(n, s, step))
    ensures AddsUniqueBySystem(Do(n, s, step))
  {
    assert step.Receive? ==> Do(n, s, step).issued == s.issued;
  }

  lemma {:induction false} AddsKept(n: nat, s: System, step: Step)
    requires Shape(n, s) && NonNegative(n, s) && OwnAddsBehind(n, s)
    requires Enabled(n, s, step) && Shape(n, Do(n, s, step))
    ensures OwnAddsBehind(n, Do(n, s, step))
  {
    var s' := Do(n, s, step);
    var op := Operation(n, s, step);
    OperationWellFormed(n, s, step);
    EffectGrows(s.local[step.r], op);
    if step.LocalAdd? {
      IssuedAddLands(n, s, step);
    }
    forall k | 0 <= k < |s'.issued| && s'.issued[k].1.Add?
      ensures var (r, a) := s'.issued[k];
              a.id == r && Leq(a.t, s'.local[r].current) && (a.t == s'.local[r].current ==> Exists(s'.local[r]))
    {
      if k < |s.issued| {
        var (r, a) := s.issued[k];
        assert s'.issued[k] == s.issued[k];
        if r == step.r && a.t == s'.local[r].current {
          LeqAntisymmetric(s.local[r].current, s'.local[r].current);
        }
      }
    }
  }

  lemma {:induction false} KnownKept(n: nat, s: System, step: Step)
    requires Shape(n, s) && AllKnown(n, s) && Enabled(n, s, step) && Shape(n, Do(n, s, step))
    ensures AllKnown(n, Do(n, s, step))
  {
    var s' := Do(n, s, step);
    var op := Operation(n, s, step);
    OperationKnown(n, s, step);
    forall k | 0 <= k < |s'.issued| ensures Known(s', s'.issued[k].1.t) {
      if k < |s.issued| {
        KnownGrows(s, s', s.issued[k].1.t);
      }
    }
    forall r | 0 <= r < n ensures Known(s', s'.local[r].current) {
      KnownGrows(s, s', s.local[r].current);
      if r == step.r {
        EffectGrows(s.local[r], op);
        KnownJoin(s', s.local[r].current, op.t);
      }
    }
  }

  lemma {:induction false} OperationKnown(n: nat, s: System, step: Step)
    requires Shape(n, s) && AllKnown(n, s) && Enabled(n, s, step) && Shape(n, Do(n, s, step))
    ensures Known(Do(n, s, step), Operation(n, s, step).t)
  {
    var s' := Do(n, s, step);
    if step.LocalRem? {
      var k := |s.issued|;
      assert s'.issued[k].1 == Operation(n, s, step) && s'.issued[k].1.Rem?;
    } else if step.Receive? {
      KnownGrows(s, s', s.issued[step.k].1.t);
    } else {
      KnownGrows(s, s', s.local[step.r].current);
    }
  }

  lemma {:induction false} KnownGrows(s: System, s': System, t: Vector)
    requires Known(s, t) && |s.issued| <= |s'.issued| && s'.issued[..|s.issued|] == s.issued
    ensures Known(s', t)
  {
    forall i | 0 <= i < |t| && t[i] > 0
      ensures exists k | 0 <= k < |s'.issued| ::
                s'.issued[k].1.Rem? && i < |s'.issued[k].1.t| && t[i] <= s'.issued[k].1.t[i]
    {
      var k :| 0 <= k < |s.issued| && s.issued[k].1.Rem? && i < |s.issued[k].1.t| && t[i] <= s.issued[k].1.t[i];
      assert s'.issued[k] == s'.issued[..|s.issued|][k];
    }
  }

  lemma {:induction false} KnownJoin(s: System, a: Vector, b: Vector)
    requires |a| == |b| && Known(s, a) && Known(s, b)
    ensures Known(s, Join(a, b))
  {
    assert forall i | 0 <= i < |a| :: Join(a, b)[i] == a[i] || Join(a, b)[i] == b[i];
  }

  lemma {:induction false} InvKept(n: nat, s: System, step: Step)
    requires Inv(n, s) && Enabled(n, s, step)
    ensures Inv(n, Do(n, s, step))
  {
    ShapeKept(n, s, step);
    ReplayedKept(n, s, step);
    AppliedOnceKept(n, s, step);
    AddsKept(n, s, step);
    UniqueKept(n, s, step);
    KnownKept(n, s, step);
  }

  // ------------------------------------------------------------- whole runs

  /** The state after a list of steps, if each was enabled when it was taken. */
  ghost predicate Run(n: nat, steps: seq<Step>, s: System)
    decreases |steps|
  {
    if steps == [] then s == Init(n)
    else exists p ::
      Run(n, steps[..|steps| - 1], p) && Shape(n, p) && Enabled(n, p, steps[|steps| - 1])
        && s == Do(n, p, steps[|steps| - 1])
  }

  lemma {:induction false} RunsKeepInv(n: nat, steps: seq<Step>, s: System)
    requires Run(n, steps, s)
    ensures Inv(n, s)
    decreases |steps|
  {
    if steps == [] {
      assert forall r | 0 <= r < n :: Seen(n, s, r) == [];
    } else {
      var p :| Run(n, steps[..|steps| - 1], p) && Shape(n, p) && Enabled(n, p, steps[|steps| - 1])
        && s == Do(n, p, steps[|steps| - 1]);
      RunsKeepInv(n, steps[..|steps| - 1], p);
      InvKept(n, p, steps[|steps| - 1]);
    }
  }

  /** No replica ever issues two adds under one history. */
  lemma {:induction false} AddUniqueness(n: nat, steps: seq<Step>, s: System, x: nat, y: nat)
    requires Run(n, steps, s) && x < |s.issued| && y < |s.issued|
    requires s.issued[x].1.Add? && s.issued[y].1.Add?
    requires s.issued[x].0 == s.issued[y].0 && s.issued[x].1.t == s.issued[y].1.t
    ensures x == y
  {
    RunsKeepInv(n, steps, s);
  }

  lemma {:induction false} DropKeepsOthers(a: seq<nat>, k: nat)
    requires k < |a| && Distinct(a)
    ensures var a' := a[..k] + a[k + 1..];
            && Distinct(a') && (forall m :: m in a' <==> m in a && m != a[k])
            && forall i | 0 <= i < |a'| :: a'[i] == if i < k then a[i] else a[i + 1]
  {
    var a' := a[..k] + a[k + 1..];
    forall m ensures m in a' <==> m in a && m != a[k] {
      if m in a && m != a[k] {
        var i :| 0 <= i < |a| && a[i] == m;
        assert m == if i < k then a'[i] else a'[i - 1];
      }
    }
  }

  lemma {:induction false} PickDrop(n: nat, s: System, a: seq<nat>, k: nat)
    requires Shape(n, s) && k < |a| && forall i | 0 <= i < |a| :: a[i] < |s.issued|
    ensures multiset(Pick(n, s, a)) == multiset(Pick(n, s, a[..k] + a[k + 1..])) + multiset{s.issued[a[k]].1}
  {
    var ops := Pick(n, s, a);
    PickRest(n, s, a, k);
    DropOne(ops, k);
    assert ops[k] in multiset(ops);
  }

  lemma {:induction false} PickRest(n: nat, s: System, a: seq<nat>, k: nat)
    requires Shape(n, s) && k < |a| && forall i | 0 <= i < |a| :: a[i] < |s.issued|
    ensures Pick(n, s, a[..k] + a[k + 1..]) == Pick(n, s, a)[..k] + Pick(n, s, a)[k + 1..]
  {
  }

  lemma {:induction false} HasMember(a: seq<nat>)
    requires a != []
    ensures exists k :: k in a
  {
    assert a[0] in a;
  }

  lemma {:induction false} SameRest(s: System, a: seq<nat>, b: seq<nat>, k: nat)
    requires a != [] && k < |b| && b[k] == a[0] && Distinct(a) && Distinct(b) && (forall m :: m in a <==> m in b)
    requires (forall i | 0 <= i < |a| :: a[i] < |s.issued|) && (forall i | 0 <= i < |b| :: b[i] < |s.issued|)
    ensures var a', b' := a[..0] + a[0 + 1..], b[..k] + b[k + 1..];
            && |a'| < |a| && Distinct(a') && Distinct(b') && (forall m :: m in a' <==> m in b')
            && (forall i | 0 <= i < |a'| :: a'[i] < |s.issued|) && (forall i | 0 <= i < |b'| :: b'[i] < |s.issued|)
  {
    DropKeepsOthers(a, 0);
    DropKeepsOthers(b, k);
  }

  /** Two duplicate-free lists of the same messages hold the same operations,
      counted with multiplicity. */
  lemma {:induction false} SameMessages(n: nat, s: System, a: seq<nat>, b: seq<nat>)
    requires Shape(n, s) && Distinct(a) && Distinct(b) && (forall k :: k in a <==> k in b)
    requires (forall i | 0 <= i < |a| :: a[i] < |s.issued|) && (forall i | 0 <= i < |b| :: b[i] < |s.issued|)
    ensures multiset(Pick(n, s, a)) == multiset(Pick(n, s, b))
    decreases |a|
  {
    if b == [] {
      assert a == [] by {
        if a != [] {
          HasMember(a);
          assert false;
        }
      }
    } else if a == [] {
      HasMember(b);
      assert false;
    } else {
      assert a[0] in b;
      var k :| 0 <= k < |b| && b[k] == a[0];
      SameRest(s, a, b, k);
      SameMessages(n, s, a[..0] + a[0 + 1..], b[..k] + b[k + 1..]);
      PickDrop(n, s, a, 0);
      PickDrop(n, s, b, k);
    }
  }

  /** Strong eventual consistency: in every run, two replicas that applied the
      same messages hold the same element, whatever the orders were. */
  lemma {:induction false} StrongConvergence(n: nat, steps: seq<Step>, s: System, p: nat, q: nat)
    requires Run(n, steps, s) && p < n && q < n && Shape(n, s)
    requires forall k :: k in s.delivered[p] <==> k in s.delivered[q]
    ensures s.local[p] == s.local[q]
  {
    RunsKeepInv(n, steps, s);
    var a, b := Seen(n, s, p), Seen(n, s, q);
    SameMessages(n, s, s.delivered[p], s.delivered[q]);
    forall x, y | 0 <= x < |a| && 0 <= y < |a| && a[x].Add? && a[y].Add? && a[x].t == a[y].t && a[x].id == a[y].id
      ensures a[x].v == a[y].v
    {
      var i, j := s.delivered[p][x], s.delivered[p][y];
      assert s.issued[i].1 == a[x] && s.issued[j].1 == a[y];
      assert i == j;
    }
    Converges(n, a, b);
  }

  predicate AllDelivered(n: nat, s: System, r: nat)
    requires Shape(n, s) && r < n
  {
    forall k | 0 <= k < |s.issued| :: k in s.delivered[r]
  }

  /** Operation k was issued by somebody who knew every remove. */
  predicate KnowsEveryRemove(s: System, k: nat)
    requires k < |s.issued|
  {
    forall m | 0 <= m < |s.issued| && s.issued[m].1.Rem? :: Leq(s.issued[m].1.t, s.issued[k].1.t)
  }

  /** Remove wins: once replica r applied every message, the element is there
      iff somebody added or incremented it after learning of every remove. */
  lemma {:induction false} RemovesWin(n: nat, steps: seq<Step>, s: System, r: nat)
    requires Run(n, steps, s) && r < n && Shape(n, s) && AllDelivered(n, s, r)
    ensures Exists(s.local[r]) <==> exists k | 0 <= k < |s.issued| :: !s.issued[k].1.Rem? && KnowsEveryRemove(s, k)
    ensures s.local[r].score == if Exists(s.local[r]) then Some(s.local[r].innate + s.local[r].acquired) else None
  {
    RunsKeepInv(n, steps, s);
    ScoreIsRead(n, s, r);
    if Exists(s.local[r]) {
      SurvivorKnows(n, s, r);
    }
    if k :| 0 <= k < |s.issued| && !s.issued[k].1.Rem? && KnowsEveryRemove(s, k) {
      KnowerSurvives(n, s, r, k);
    }
  }

  lemma {:induction false} ScoreIsRead(n: nat, s: System, r: nat)
    requires Shape(n, s) && r < n && s.local[r] == Deliver(n, Seen(n, s, r))
    ensures s.local[r].score == if Exists(s.local[r]) then Some(s.local[r].innate + s.local[r].acquired) else None
  {
    DeliverIsSummary(n, Seen(n, s, r));
  }

  lemma {:induction false} SurvivorKnows(n: nat, s: System, r: nat)
    requires Shape(n, s) && r < n && AllDelivered(n, s, r)
    requires Exists(Deliver(n, Seen(n, s, r)))
    ensures exists k | 0 <= k < |s.issued| :: !s.issued[k].1.Rem? && KnowsEveryRemove(s, k)
  {
    var ops := Seen(n, s, r);
    RemoveWins(n, ops);
    var x :| 0 <= x < |ops| && !ops[x].Rem? && Tops(ops, x);
    forall m | 0 <= m < |s.issued| && s.issued[m].1.Rem? ensures Leq(s.issued[m].1.t, ops[x].t) {
      assert m in s.delivered[r];
      var i :| 0 <= i < |s.delivered[r]| && s.delivered[r][i] == m;
      assert ops[i] == s.issued[m].1;
    }
    assert KnowsEveryRemove(s, s.delivered[r][x]);
  }

  lemma {:induction false} KnowerSurvives(n: nat, s: System, r: nat, k: nat)
    requires Inv(n, s) && r < n && AllDelivered(n, s, r)
    requires k < |s.issued| && !s.issued[k].1.Rem? && KnowsEveryRemove(s, k)
    ensures Exists(s.local[r])
  {
    var ops := Seen(n, s, r);
    assert k in s.delivered[r];
    var x :| 0 <= x < |s.delivered[r]| && s.delivered[r][x] == k;
    forall m | 0 <= m < |ops| ensures Leq(ops[m].t, ops[x].t) {
      KnownBelow(n, s, s.delivered[r][m], k);
    }
    assert Tops(ops, x);
    RemoveWins(n, ops);
  }

  /** An operation issued knowing every remove covers every history in play. */
  lemma {:induction false} KnownBelow(n: nat, s: System, m: nat, k: nat)
    requires Shape(n, s) && m < |s.issued| && k < |s.issued|
    requires Known(s, s.issued[m].1.t) && KnowsEveryRemove(s, k)
    ensures Leq(s.issued[m].1.t, s.issued[k].1.t)
  {
    var t, u := s.issued[m].1.t, s.issued[k].1.t;
    assert WellFormed(n, s.issued[m].1) && WellFormed(n, s.issued[k].1);
    forall i | 0 <= i < n ensures t[i] <= u[i] {
      if t[i] > 0 {
        var x :| 0 <= x < |s.issued| && s.issued[x].1.Rem? && i < |s.issued[x].1.t| && t[i] <= s.issued[x].1.t[i];
        assert Leq(s.issued[x].1.t, u);
      }
    }
  }
}
