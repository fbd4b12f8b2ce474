/** Runs of the replicated list: replicas insert, messages arrive in any order and
    repeatedly. Headers are left open: any element may be added again, and any
    known element may be inserted behind. */
module ListRun {
  import opened Collections
  import opened ListPosition
  import opened ReplicatedList
  import opened ListConvergence

  /** `net` holds every message ever sent, `seen[r]` those applied by replica r,
      in the order of application. */
  datatype System = System(chains: seq<seq<Item>>, clocks: seq<seq<int>>, net: seq<Message>, seen: seq<seq<nat>>)

  datatype Step =
    | Insert(r: nat, oid: Oid, at: Where, rand: nat)
    | Receive(r: nat, k: nat)

  predicate Shape(n: nat, s: System) {
    && |s.chains| == |s.clocks| == |s.seen| == n
    && (forall r | 0 <= r < n :: |s.clocks[r]| == n)
    && (forall r | 0 <= r < n :: forall i | 0 <= i < |s.seen[r]| :: s.seen[r][i] < |s.net|)
  }

  function Issued(s: System, step: Step): Option<Message>
    requires step.Insert? && step.r < |s.chains| && step.r < |s.clocks|
  {
    Issue(s.chains[step.r], step.oid, step.at, step.r, Sum(s.clocks[step.r]), step.rand)
  }

  predicate Enabled(n: nat, s: System, step: Step)
    requires Shape(n, s)
  {
    step.r < n && if step.Insert? then Issued(s, step).Some? else step.k < |s.net|
  }

  /** Replica r applies message k of `net`. */
  ghost function Applied(s: System, r: nat, net: seq<Message>, k: nat): System
    requires r < |s.chains| && r < |s.seen| && k < |net|
  {
    s.(chains := s.chains[r := Effect(s.chains[r], net[k])], net := net, seen := s.seen[r := s.seen[r] + [k]])
  }

  /** An insert is issued, counted if it made an identifier, and applied at once. */
  ghost function Do(n: nat, s: System, step: Step): System
    requires Shape(n, s) && Enabled(n, s, step)
  {
    match step
    case Insert(r, _, at, _) =>
      var clock := s.clocks[r];
      Applied(s, r, s.net + [Issued(s, step).value], |s.net|)
        .(clocks := if at.Readd? then s.clocks else s.clocks[r := clock[r := clock[r] + 1]])
    case Receive(r, k) => Applied(s, r, s.net, k)
  }

  function Init(n: nat): System {
    System(seq(n, _ => []), seq(n, _ => seq(n, _ => 0)), [], seq(n, _ => []))
  }

  ghost predicate Linked(n: nat, s: System, step: Step, t: System) {
    Shape(n, s) && Enabled(n, s, step) && t == Do(n, s, step)
  }

  ghost predicate Run(n: nat, steps: seq<Step>, trace: seq<System>) {
    && |trace| == |steps| + 1 && trace[0] == Init(n)
    && forall i | 0 <= i < |steps| :: Linked(n, trace[i], steps[i], trace[i + 1])
  }

  // -------------------------------------------------------------- invariant

  function Picked(net: seq<Message>, ks: seq<nat>): seq<Message>
    requires forall i | 0 <= i < |ks| :: ks[i] < |net|
  {
    seq(|ks|, i requires 0 <= i < |ks| => net[ks[i]])
  }

  ghost predicate Replayed(n: nat, s: System)
    requires Shape(n, s)
  {
    forall r | 0 <= r < n :: s.chains[r] == Deliver(Picked(s.net, s.seen[r]))
  }

  /** The last component names the replica that made the identifier, and a count
      that replica has passed. */
  predicate Counted(clocks: seq<seq<int>>, id: Leid) {
    && id != []
    && var p := id[|id| - 1];
       0 <= p.pid < |clocks| && p.count < Sum(clocks[p.pid])
  }

  predicate AllCounted(s: System) {
    forall k | 0 <= k < |s.net| :: Counted(s.clocks, s.net[k].id)
  }

  ghost predicate Inv(n: nat, s: System) {
    Shape(n, s) && Replayed(n, s) && AllCounted(s) && OneOid(s.net) && AllBased(s.net)
  }

  lemma {:induction false} PickedMore(net: seq<Message>, more: seq<Message>, ks: seq<nat>, k: nat)
    requires net <= more && (forall i | 0 <= i < |ks| :: ks[i] < |net|) && k < |more|
    ensures Picked(more, ks) == Picked(net, ks)
    ensures Deliver(Picked(more, ks + [k])) == Effect(Deliver(Picked(net, ks)), more[k])
  {
    var ms := Picked(more, ks + [k]);
    assert ms[..|ms| - 1] == Picked(net, ks);
  }

  lemma {:induction false} AppliedReplays(n: nat, s: System, r: nat, net: seq<Message>, k: nat)
    requires Shape(n, s) && Replayed(n, s) && r < n && s.net <= net && k < |net|
    ensures Shape(n, Applied(s, r, net, k)) && Replayed(n, Applied(s, r, net, k))
  {
    var t := Applied(s, r, net, k);
    forall q | 0 <= q < n ensures t.chains[q] == Deliver(Picked(t.net, t.seen[q])) {
      PickedMore(s.net, net, s.seen[q], k);
    }
  }

  /** What is in a chain came in a message. */
  lemma {:induction false} CameInMessage(ms: seq<Message>, x: Item)
    requires x in Deliver(ms)
    ensures exists m :: m in ms && m.oid == x.oid && m.id == x.id
  {
    FirstWins(ms, x.oid);
    FirstIsSome(ms, x.oid);
    assert x == Item(x.oid, x.id);
  }

  lemma {:induction false} ChainFromNet(n: nat, s: System, r: nat, x: Item)
    requires Inv(n, s) && r < n && x in s.chains[r]
    ensures exists b :: b in s.net && b.oid == x.oid && b.id == x.id
  {
    var ms := Picked(s.net, s.seen[r]);
    CameInMessage(ms, x);
    var b :| b in ms && b.oid == x.oid && b.id == x.id;
    var i :| 0 <= i < |ms| && ms[i] == b;
    assert b == s.net[s.seen[r][i]];
  }

  /** A new identifier ends with its maker and a count nobody has used for it. */
  lemma {:induction false} NewIdEnds(chain: seq<Item>, at: Where, me: nat, count: int, rand: nat)
    ensures var id := NewId(chain, at, me, count, rand);
            id != [] && id[|id| - 1].pid == me && id[|id| - 1].count == count
  {
  }

  lemma {:induction false} ReaddKeeps(n: nat, s: System, step: Step)
    requires Inv(n, s) && step.Insert? && Enabled(n, s, step) && step.at.Readd?
    ensures var m := Issued(s, step).value;
            Counted(s.clocks, m.id) && OneOid(s.net + [m]) && AllBased(s.net + [m])
  {
    var m := Issued(s, step).value;
    var x := s.chains[step.r][Find(s.chains[step.r], step.oid).value];
    ChainFromNet(n, s, step.r, x);
    var b :| b in s.net && b.oid == x.oid && b.id == x.id;
    var k :| 0 <= k < |s.net| && s.net[k] == b;
    RepeatedOid(s.net, m, k);
    BasedMore(s.net, m);
  }

  lemma {:induction false} RepeatedOid(net: seq<Message>, m: Message, k: nat)
    requires OneOid(net) && k < |net| && net[k].oid == m.oid && net[k].id == m.id
    ensures OneOid(net + [m])
  {
  }

  /** A message built on an element in the net, or on nothing, leaves everything based. */
  lemma {:induction false} BasedMore(net: seq<Message>, m: Message)
    requires AllBased(net) && Based(net, m)
    ensures AllBased(net + [m])
  {
    var more := net + [m];
    forall a | a in more ensures Based(more, a) {
      assert Based(net, a);
      if a.pre.Some? {
        var b :| b in net && b.oid == a.pre.value && Less(b.id, a.id);
        assert b in more;
      }
    }
  }

  lemma {:induction false} NewKeeps(n: nat, s: System, step: Step)
    requires Inv(n, s) && step.Insert? && Enabled(n, s, step) && !step.at.Readd?
    ensures OneOid(s.net + [Issued(s, step).value]) && AllBased(s.net + [Issued(s, step).value])
  {
    var r, m := step.r, Issued(s, step).value;
    var count := Sum(s.clocks[r]);
    NewIdEnds(s.chains[r], step.at, r, count, step.rand);
    forall k | 0 <= k < |s.net| ensures s.net[k].id != m.id {
      assert Counted(s.clocks, s.net[k].id);
    }
    NewIsBased(n, s, step);
    BasedMore(s.net, m);
  }

  lemma {:induction false} NewIsBased(n: nat, s: System, step: Step)
    requires Inv(n, s) && step.Insert? && Enabled(n, s, step) && !step.at.Readd?
    ensures Based(s.net, Issued(s, step).value)
  {
    var r, m := step.r, Issued(s, step).value;
    if step.at.Behind? {
      var chain := s.chains[r];
      var k := Find(chain, step.at.x).value;
      ChainFromNet(n, s, r, chain[k]);
      RightOfLeft(chain[k].id, IdAt(chain, k + 1), r, Sum(s.clocks[r]), step.rand);
    }
  }

  /** No clock goes back. */
  lemma {:induction false} StillCounted(clocks: seq<seq<int>>, r: nat, net: seq<Message>)
    requires r < |clocks| && r < |clocks[r]| && forall k | 0 <= k < |net| :: Counted(clocks, net[k].id)
    ensures var later := clocks[r := clocks[r][r := clocks[r][r] + 1]];
            && Sum(later[r]) == Sum(clocks[r]) + 1
            && forall k | 0 <= k < |net| :: Counted(later, net[k].id)
  {
    var later := clocks[r := clocks[r][r := clocks[r][r] + 1]];
    SumRaised(clocks[r], r);
    forall k | 0 <= k < |net| ensures Counted(later, net[k].id) {
      assert Counted(clocks, net[k].id);
    }
  }

  lemma {:induction false} InsertKept(n: nat, s: System, step: Step)
    requires Inv(n, s) && step.Insert? && Enabled(n, s, step)
    ensures Inv(n, Do(n, s, step))
  {
    var r, m := step.r, Issued(s, step).value;
    AppliedReplays(n, s, r, s.net + [m], |s.net|);
    if step.at.Readd? {
      ReaddKeeps(n, s, step);
    } else {
      NewKeeps(n, s, step);
      StillCounted(s.clocks, r, s.net);
      NewIdEnds(s.chains[r], step.at, r, Sum(s.clocks[r]), step.rand);
    }
  }

  lemma {:induction false} InvKept(n: nat, s: System, step: Step)
    requires Inv(n, s) && Enabled(n, s, step)
    ensures Inv(n, Do(n, s, step))
  {
    match step
    case Insert(_, _, _, _) => InsertKept(n, s, step);
    case Receive(r, k) => AppliedReplays(n, s, r, s.net, k);
  }

  lemma {:induction false} RunsKeepInv(n: nat, steps: seq<Step>, trace: seq<System>, i: nat)
    requires Run(n, steps, trace) && i <= |steps|
    ensures Inv(n, trace[i])
  {
    if i > 0 {
      RunsKeepInv(n, steps, trace, i - 1);
      assert Linked(n, trace[i - 1], steps[i - 1], trace[i]);
      InvKept(n, trace[i - 1], steps[i - 1]);
    }
  }

  // --------------------------------------------------------------- theorems

  /** In every run, all orders and repetitions of the messages sent so far give
      the same list if and only if no element was given two identifiers. */
  lemma {:induction false} RunsAgreeIff(n: nat, steps: seq<Step>, trace: seq<System>, i: nat)
    requires Run(n, steps, trace) && i <= |steps|
    ensures OrdersAgree(trace[i].net) <==> OneId(trace[i].net)
  {
    RunsKeepInv(n, steps, trace, i);
    OrdersAgreeIff(trace[i].net);
  }

  /** In every run in which no element was given two identifiers, two replicas
      that applied the same messages hold the same list, and it is sorted. */
  lemma {:induction false} ReplicasConverge(n: nat, steps: seq<Step>, trace: seq<System>, i: nat, p: nat, q: nat)
    requires Run(n, steps, trace) && i <= |steps| && p < n && q < n && OneId(trace[i].net) && Shape(n, trace[i])
    requires forall k :: k in trace[i].seen[p] <==> k in trace[i].seen[q]
    ensures trace[i].chains[p] == trace[i].chains[q] && Sorted(trace[i].chains[p])
  {
    var s := trace[i];
    RunsKeepInv(n, steps, trace, i);
    var a, b := Picked(s.net, s.seen[p]), Picked(s.net, s.seen[q]);
    SamePicked(s.net, s.seen[p], s.seen[q]);
    SamePicked(s.net, s.seen[q], s.seen[p]);
    BasedInOrder(s.net);
    ListsConverge(a, b, s.net);
  }

  lemma {:induction false} SamePicked(net: seq<Message>, ks: seq<nat>, ls: seq<nat>)
    requires (forall i | 0 <= i < |ks| :: ks[i] < |net|) && (forall i | 0 <= i < |ls| :: ls[i] < |net|)
    requires forall k :: k in ks ==> k in ls
    ensures forall m :: m in Picked(net, ks) ==> m in Picked(net, ls)
  {
    forall m | m in Picked(net, ks) ensures m in Picked(net, ls) {
      var i :| 0 <= i < |ks| && net[ks[i]] == m;
      assert ks[i] in ls;
      var j :| 0 <= j < |ls| && ls[j] == ks[i];
      assert Picked(net, ls)[j] == m;
    }
  }

  /** The predecessor of an insert has a smaller identifier at every replica that
      knows it, and the identifier is new there: nothing is ever misplaced. */
  lemma {:induction false} ArrivalFits(n: nat, steps: seq<Step>, trace: seq<System>, i: nat, r: nat, k: nat)
    requires Run(n, steps, trace) && i <= |steps| && r < n && OneId(trace[i].net) && Shape(n, trace[i])
    requires k < |trace[i].net| && !Knows(trace[i].chains[r], trace[i].net[k].oid)
    ensures !HasId(trace[i].chains[r], trace[i].net[k].id) && !Misplaced(trace[i].chains[r], trace[i].net[k])
  {
    var s := trace[i];
    RunsKeepInv(n, steps, trace, i);
    BasedInOrder(s.net);
    NewcomerFits(Picked(s.net, s.seen[r]), s.net[k], s.net);
  }
}
