/** Runs of a whole cluster: nodes, messages delivered late, in any order and
    repeatedly, and the two safety properties of the epochs. */
module ClusterRun {
  import opened Collections
  import opened ClusterNode

  datatype Body =
    | Ping
    | Update(about: Name, epoch: nat)
    | AuthRequest
    | AuthAck(to: Name)

  /** `cur` and `cfg` are the epochs of the message header. */
  datatype Msg = Msg(from: Name, cur: nat, cfg: nat, body: Body)

  /** `net` holds every message ever sent. `acked` lists the votes delivered so
      far by voter and epoch, `counted` the votes in each node's running count,
      `winners` the nodes that saw a quorum and the epoch they saw it for. */
  datatype System = System(nodes: map<Name, Node>, net: set<Msg>, acked: set<(Name, nat)>,
                           counted: map<Name, set<Name>>, winners: set<(Name, nat)>)

  datatype Step =
    | Send(n: Name, author: Name, body: Body)
    | Receive(n: Name, msg: Msg, masters: bool, req: Request)
    | BumpEpoch(n: Name)
    | SetEpoch(n: Name, epoch: nat)
    | Meet(n: Name, other: Name)
    | Forget(n: Name, other: Name)
    | ScheduleElection(n: Name)
    | StartElection(n: Name, author: Name)
    | WinElection(n: Name)

  function Quorum(voters: set<Name>): nat {
    |voters| / 2 + 1
  }

  /** clusterBuildMessageHdr: a replica announces its master's configEpoch. */
  function Compose(nd: Node, n: Name, author: Name, body: Body): Msg {
    Msg(n, nd.currentEpoch, Epoch(nd, author), body)
  }

  predicate Enabled(voters: set<Name>, s: System, step: Step) {
    && step.n in s.nodes
    && var nd := s.nodes[step.n];
       match step
       case Send(_, author, body) =>
         && author in nd.config
         && (body.Ping? || (body.Update? && body.about in nd.config && body.epoch == nd.config[body.about]))
       case Receive(n, msg, _, req) =>
         && msg in s.net && msg.from != n
         && (msg.body.AuthRequest? && req.voter ==> n in voters)
         && (msg.body.AuthAck? ==> msg.body.to == n && (msg.from, msg.cur) !in s.acked)
       case Meet(_, other) => other !in nd.config
       case Forget(n, other) => other != n
       case StartElection(_, author) => author in nd.config && !nd.authSent
       case WinElection(_) => nd.authSent && nd.authCount >= Quorum(voters)
       case _ => true
  }

  /** What a delivered message makes of its receiver. */
  function Handle(voters: set<Name>, nd: Node, n: Name, msg: Msg, masters: bool, req: Request): Node {
    var heard := Hear(nd, msg.from, msg.cur, msg.cfg);
    if msg.from !in nd.config then nd
    else match msg.body
      case Ping => Collide(heard, n, msg.from, msg.cfg, masters)
      case Update(about, epoch) => Learn(heard, about, epoch)
      case AuthRequest => Vote(heard, msg.cur, req)
      case AuthAck(_) => Count(heard, msg.cur, msg.from in voters)
  }

  predicate GrantsVote(nd: Node, msg: Msg, req: Request) {
    msg.body.AuthRequest? && msg.from in nd.config && Grants(Hear(nd, msg.from, msg.cur, msg.cfg), msg.cur, req)
  }

  predicate CountsVote(voters: set<Name>, nd: Node, msg: Msg) {
    msg.body.AuthAck? && msg.from in nd.config && msg.from in voters && msg.cur >= nd.authEpoch
  }

  /** No vote is counted once the count was restarted and before the next
      election began. */
  predicate Timely(voters: set<Name>, s: System, step: Step) {
    step.Receive? && step.n in s.nodes && CountsVote(voters, s.nodes[step.n], step.msg) ==> s.nodes[step.n].authSent
  }

  /** The acting node after its step. */
  function After(voters: set<Name>, s: System, step: Step): Node
    requires Enabled(voters, s, step)
  {
    var n := step.n;
    var nd := s.nodes[n];
    match step
    case Send(_, _, _) => nd
    case Receive(_, msg, masters, req) => Handle(voters, nd, n, msg, masters, req)
    case BumpEpoch(_) => Bump(nd, n, nd.currentEpoch)
    case SetEpoch(_, epoch) => SetConfigEpoch(nd, n, epoch)
    case Meet(_, other) => nd.(config := nd.config[other := 0])
    case Forget(_, other) => nd.(config := nd.config - {other})
    case ScheduleElection(_) => Schedule(nd)
    case StartElection(_, _) => Start(nd)
    case WinElection(_) => Win(nd, n)
  }

  /** The messages it sends. */
  function Sent(voters: set<Name>, s: System, step: Step): set<Msg>
    requires Enabled(voters, s, step)
  {
    var nd := After(voters, s, step);
    match step
    case Send(n, author, body) => {Compose(nd, n, author, body)}
    case StartElection(n, author) => {Compose(nd, n, author, AuthRequest)}
    case Receive(n, msg, _, req) =>
      if GrantsVote(s.nodes[n], msg, req) then {Compose(nd, n, n, AuthAck(msg.from))} else {}
    case _ => {}
  }

  function CountedAfter(voters: set<Name>, s: System, step: Step): set<Name>
    requires Enabled(voters, s, step) && step.n in s.counted
  {
    var so := s.counted[step.n];
    if step.ScheduleElection? then {}
    else if step.Receive? && CountsVote(voters, s.nodes[step.n], step.msg) then so + {step.msg.from}
    else so
  }

  function Do(voters: set<Name>, s: System, step: Step): System
    requires Enabled(voters, s, step) && step.n in s.counted
  {
    var n := step.n;
    System(s.nodes[n := After(voters, s, step)],
           s.net + Sent(voters, s, step),
           if step.Receive? && step.msg.body.AuthAck? && step.msg.from in s.nodes[n].config
           then s.acked + {(step.msg.from, step.msg.cur)} else s.acked,
           s.counted[n := CountedAfter(voters, s, step)],
           if step.WinElection? then s.winners + {(n, s.nodes[n].authEpoch)} else s.winners)
  }

  function Init(names: set<Name>): System {
    System(map n | n in names :: Node(0, 0, map[n := 0], 0, 0, false), {}, {}, map n | n in names :: {}, {})
  }

  // ------------------------------------------------------------ epoch bound

  predicate MsgBounded(m: Msg) {
    m.cfg <= m.cur && (m.body.Update? ==> m.body.epoch <= m.cur)
  }

  /** Everybody's epochs are covered by their currentEpoch, on the wire too. */
  predicate EpochBound(s: System) {
    && (forall n | n in s.nodes :: Bounded(s.nodes[n]))
    && (forall m | m in s.net :: MsgBounded(m))
  }

  predicate Shape(s: System) {
    && s.nodes.Keys == s.counted.Keys
    && forall n | n in s.nodes :: n in s.nodes[n].config
  }

  /** The relation of a node to its own past that every handler keeps. */
  predicate Later(nd: Node, nd': Node) {
    && nd.currentEpoch <= nd'.currentEpoch && nd.authEpoch <= nd'.authEpoch && nd.lastVoteEpoch <= nd'.lastVoteEpoch
    && (forall m | m in nd.config :: m in nd'.config ==> nd.config[m] <= nd'.config[m])
  }

  lemma {:induction false} HearKept(nd: Node, from: Name, cur: nat, cfg: nat)
    requires Bounded(nd) && cfg <= cur
    ensures var nd' := Hear(nd, from, cur, cfg);
            Bounded(nd') && nd'.config.Keys == nd.config.Keys && Later(nd, nd') && nd'.authEpoch == nd.authEpoch
            && (from in nd.config ==> cur <= nd'.currentEpoch)
  {
  }

  lemma {:induction false} ActKept(nd: Node, n: Name, from: Name, cfg: nat, masters: bool, about: Name, epoch: nat)
    requires Bounded(nd) && n in nd.config && epoch <= nd.currentEpoch
    ensures var c, l := Collide(nd, n, from, cfg, masters), Learn(nd, about, epoch);
            && Bounded(c) && n in c.config && Later(nd, c) && c.authEpoch == nd.authEpoch
            && Bounded(l) && n in l.config && Later(nd, l) && l.authEpoch == nd.authEpoch
  {
  }

  lemma {:induction false} HandleKept(voters: set<Name>, nd: Node, n: Name, msg: Msg, masters: bool, req: Request)
    requires Bounded(nd) && MsgBounded(msg) && n in nd.config
    ensures var nd' := Handle(voters, nd, n, msg, masters, req);
            Bounded(nd') && n in nd'.config && Later(nd, nd') && nd'.authEpoch == nd.authEpoch
  {
    var heard := Hear(nd, msg.from, msg.cur, msg.cfg);
    HearKept(nd, msg.from, msg.cur, msg.cfg);
    if msg.from in nd.config {
      match msg.body
      case Ping => ActKept(heard, n, msg.from, msg.cfg, masters, n, 0);
      case Update(about, epoch) => ActKept(heard, n, msg.from, msg.cfg, masters, about, epoch);
      case AuthRequest =>
      case AuthAck(_) =>
    }
  }

  /** No handler lowers an epoch, and each keeps its node bounded. */
  lemma {:induction false} NodeKept(voters: set<Name>, s: System, step: Step)
    requires Shape(s) && EpochBound(s) && Enabled(voters, s, step)
    ensures var nd, nd' := s.nodes[step.n], After(voters, s, step);
            && Bounded(nd') && step.n in nd'.config && Later(nd, nd')
            && (nd'.authEpoch != nd.authEpoch ==> step.StartElection?)
  {
    assert Bounded(s.nodes[step.n]);
    if step.Receive? {
      assert MsgBounded(step.msg);
      HandleKept(voters, s.nodes[step.n], step.n, step.msg, step.masters, step.req);
    }
  }

  lemma {:induction false} BoundKept(voters: set<Name>, s: System, step: Step)
    requires Shape(s) && EpochBound(s) && Enabled(voters, s, step)
    ensures EpochBound(Do(voters, s, step)) && Shape(Do(voters, s, step))
  {
    NodeKept(voters, s, step);
    forall m | m in Sent(voters, s, step) ensures MsgBounded(m) {
    }
  }

  // -------------------------------------------------------------- elections

  /** v voted for c in epoch e. */
  predicate Voted(net: set<Msg>, v: Name, e: nat, c: Name) {
    exists m | m in net :: m.from == v && m.cur == e && m.body == AuthAck(c)
  }

  function VotersFor(net: set<Msg>, voters: set<Name>, c: Name, e: nat): set<Name> {
    set v | v in voters && Voted(net, v, e, c)
  }

  /** A vote answers an election its candidate really ran, and a voter's granted
      epochs are behind its last vote. */
  predicate MsgSound(voters: set<Name>, s: System, m: Msg) {
    && (m.body.AuthRequest? ==> m.from in s.nodes && 0 < m.cur <= s.nodes[m.from].authEpoch)
    && (m.body.AuthAck? ==>
          && m.from in voters && m.from in s.nodes && m.cur <= s.nodes[m.from].lastVoteEpoch
          && m.body.to in s.nodes && 0 < m.cur <= s.nodes[m.body.to].authEpoch)
  }

  predicate VotesSound(voters: set<Name>, s: System) {
    forall m | m in s.net :: MsgSound(voters, s, m)
  }

  /** Nobody votes twice in one epoch. */
  predicate OneVote(net: set<Msg>) {
    forall a, b | a in net && b in net && a.body.AuthAck? && b.body.AuthAck? && a.from == b.from && a.cur == b.cur ::
      a.body == b.body
  }

  /** A running count is the number of distinct voters whose votes of exactly
      this election arrived. */
  predicate NodeCountExact(voters: set<Name>, s: System, c: Name)
    requires Shape(s) && c in s.nodes
  {
    && s.nodes[c].authCount == |s.counted[c]|
    && (!s.nodes[c].authSent ==> s.counted[c] == {})
    && forall v | v in s.counted[c] ::
         v in voters && Voted(s.net, v, s.nodes[c].authEpoch, c) && (v, s.nodes[c].authEpoch) in s.acked
  }

  predicate CountExact(voters: set<Name>, s: System)
    requires Shape(s)
  {
    forall c | c in s.nodes :: NodeCountExact(voters, s, c)
  }

  predicate WinnersSound(voters: set<Name>, s: System) {
    forall w | w in s.winners :: |VotersFor(s.net, voters, w.0, w.1)| >= Quorum(voters)
  }

  predicate Inv(voters: set<Name>, s: System) {
    && Shape(s) && EpochBound(s) && VotesSound(voters, s) && OneVote(s.net)
    && CountExact(voters, s) && WinnersSound(voters, s)
  }

  /** A vote is granted in the epoch of the request, and in a later one than
      ever before. */
  lemma {:induction false} GrantIsFresh(voters: set<Name>, s: System, step: Step)
    requires Shape(s) && EpochBound(s) && Enabled(voters, s, step)
    requires step.Receive? && GrantsVote(s.nodes[step.n], step.msg, step.req)
    ensures var nd' := After(voters, s, step);
            && nd'.currentEpoch == step.msg.cur == nd'.lastVoteEpoch
            && s.nodes[step.n].lastVoteEpoch < step.msg.cur
            && step.n in voters
  {
    assert Bounded(s.nodes[step.n]);
  }

  lemma {:induction false} SentSound(voters: set<Name>, s: System, step: Step, m: Msg)
    requires Shape(s) && EpochBound(s) && VotesSound(voters, s) && Enabled(voters, s, step)
    requires m in Sent(voters, s, step)
    ensures MsgSound(voters, Do(voters, s, step), m)
    ensures m.body.AuthAck? ==> m.from == step.n && s.nodes[step.n].lastVoteEpoch < m.cur
  {
    if step.Receive? {
      GrantIsFresh(voters, s, step);
      assert MsgSound(voters, s, step.msg);
    }
  }

  lemma {:induction false} VotesKept(voters: set<Name>, s: System, step: Step)
    requires Shape(s) && EpochBound(s) && VotesSound(voters, s) && OneVote(s.net) && Enabled(voters, s, step)
    ensures VotesSound(voters, Do(voters, s, step)) && OneVote(Do(voters, s, step).net)
  {
    var s' := Do(voters, s, step);
    NodeKept(voters, s, step);
    forall m | m in s'.net ensures MsgSound(voters, s', m) {
      if m in Sent(voters, s, step) {
        SentSound(voters, s, step, m);
      } else {
        assert MsgSound(voters, s, m);
      }
    }
    forall a, b | a in s'.net && b in s'.net && a.body.AuthAck? && b.body.AuthAck? && a.from == b.from && a.cur == b.cur
      ensures a.body == b.body
    {
      if a in Sent(voters, s, step) {
        SentSound(voters, s, step, a);
      }
      if b in Sent(voters, s, step) {
        SentSound(voters, s, step, b);
      }
      assert a in s.net ==> MsgSound(voters, s, a);
      assert b in s.net ==> MsgSound(voters, s, b);
    }
  }

  /** Every counted vote belongs to exactly the running election, although the
      code only tests that it is not older. */
  lemma {:induction false} CountedVoteIsExact(voters: set<Name>, s: System, step: Step)
    requires Inv(voters, s) && Enabled(voters, s, step) && Timely(voters, s, step)
    requires step.Receive? && CountsVote(voters, s.nodes[step.n], step.msg)
    ensures var nd := s.nodes[step.n];
            && nd.authSent && step.msg.cur == nd.authEpoch && step.msg.from !in s.counted[step.n]
            && Voted(s.net, step.msg.from, nd.authEpoch, step.n)
  {
    assert MsgSound(voters, s, step.msg);
  }

  lemma {:induction false} CountKept(voters: set<Name>, s: System, step: Step)
    requires Inv(voters, s) && Enabled(voters, s, step) && Timely(voters, s, step)
    ensures Shape(Do(voters, s, step)) && CountExact(voters, Do(voters, s, step))
  {
    BoundKept(voters, s, step);
    NodeKept(voters, s, step);
    var s' := Do(voters, s, step);
    forall c | c in s'.nodes ensures NodeCountExact(voters, s', c) {
      assert NodeCountExact(voters, s, c);
      if c == step.n {
        if step.Receive? && CountsVote(voters, s.nodes[c], step.msg) {
          CountedVoteIsExact(voters, s, step);
          CountGrows(voters, s, step);
        } else {
          CountStays(voters, s, step);
        }
      } else {
        OthersCountKept(voters, s, s', c);
      }
    }
  }

  lemma {:induction false} OthersCountKept(voters: set<Name>, s: System, s': System, c: Name)
    requires Shape(s) && Shape(s') && c in s.nodes && c in s'.nodes && NodeCountExact(voters, s, c)
    requires s'.nodes[c].authCount == s.nodes[c].authCount && s'.nodes[c].authEpoch == s.nodes[c].authEpoch
    requires s'.nodes[c].authSent == s.nodes[c].authSent && s'.counted[c] == s.counted[c]
    requires s.net <= s'.net && s.acked <= s'.acked
    ensures NodeCountExact(voters, s', c)
  {
    forall v | v in s.counted[c] ensures Voted(s'.net, v, s.nodes[c].authEpoch, c) {
      VotedStays(s.net, s'.net, v, s.nodes[c].authEpoch, c);
    }
  }

  lemma {:induction false} VotedStays(a: set<Msg>, b: set<Msg>, v: Name, e: nat, c: Name)
    requires a <= b && Voted(a, v, e, c)
    ensures Voted(b, v, e, c)
  {
  }

  lemma {:induction false} CountGrows(voters: set<Name>, s: System, step: Step)
    requires Shape(s) && Enabled(voters, s, step) && Shape(Do(voters, s, step)) && NodeCountExact(voters, s, step.n)
    requires step.Receive? && CountsVote(voters, s.nodes[step.n], step.msg)
    requires s.nodes[step.n].authSent && step.msg.cur == s.nodes[step.n].authEpoch
             && step.msg.from !in s.counted[step.n]
    requires Voted(s.net, step.msg.from, s.nodes[step.n].authEpoch, step.n)
    ensures NodeCountExact(voters, Do(voters, s, step), step.n)
  {
    var s' := Do(voters, s, step);
    assert s'.net == s.net;
    assert s'.counted[step.n] == s.counted[step.n] + {step.msg.from};
  }

  lemma {:induction false} AuthUntouched(voters: set<Name>, s: System, step: Step)
    requires Enabled(voters, s, step) && !step.ScheduleElection? && !step.StartElection?
    requires !(step.Receive? && CountsVote(voters, s.nodes[step.n], step.msg))
    ensures var nd, nd' := s.nodes[step.n], After(voters, s, step);
            nd'.authCount == nd.authCount && nd'.authEpoch == nd.authEpoch && nd'.authSent == nd.authSent
  {
  }

  lemma {:induction false} CountStays(voters: set<Name>, s: System, step: Step)
    requires Shape(s) && Enabled(voters, s, step) && Shape(Do(voters, s, step)) && NodeCountExact(voters, s, step.n)
    requires !(step.Receive? && CountsVote(voters, s.nodes[step.n], step.msg))
    ensures NodeCountExact(voters, Do(voters, s, step), step.n)
  {
    var s' := Do(voters, s, step);
    if step.ScheduleElection? || step.StartElection? {
      assert s'.counted[step.n] == {};
    } else {
      AuthUntouched(voters, s, step);
      OthersCountKept(voters, s, s', step.n);
    }
  }

  lemma {:induction false} WinnersKept(voters: set<Name>, s: System, step: Step)
    requires Inv(voters, s) && Enabled(voters, s, step)
    ensures WinnersSound(voters, Do(voters, s, step))
  {
    var s' := Do(voters, s, step);
    assert s.net <= s'.net;
    forall w | w in s'.winners ensures |VotersFor(s'.net, voters, w.0, w.1)| >= Quorum(voters) {
      MoreVotes(s.net, s'.net, voters, w.0, w.1);
      if w !in s.winners {
        var nd := s.nodes[step.n];
        assert NodeCountExact(voters, s, step.n);
        assert forall v | v in s.counted[step.n] :: v in VotersFor(s.net, voters, step.n, nd.authEpoch);
        Subset(s.counted[step.n], VotersFor(s.net, voters, step.n, nd.authEpoch));
      }
    }
  }

  lemma {:induction false} MoreVotes(a: set<Msg>, b: set<Msg>, voters: set<Name>, c: Name, e: nat)
    requires a <= b
    ensures |VotersFor(a, voters, c, e)| <= |VotersFor(b, voters, c, e)|
  {
    Subset(VotersFor(a, voters, c, e), VotersFor(b, voters, c, e));
  }

  lemma {:induction false} InvKept(voters: set<Name>, s: System, step: Step)
    requires Inv(voters, s) && Enabled(voters, s, step) && Timely(voters, s, step)
    ensures Inv(voters, Do(voters, s, step))
  {
    BoundKept(voters, s, step);
    VotesKept(voters, s, step);
    CountKept(voters, s, step);
    WinnersKept(voters, s, step);
  }

  /** The timing condition is exact: a step keeps the invariant if and only if it
      does not count a late vote. */
  lemma {:induction false} InvKeptExactly(voters: set<Name>, s: System, step: Step)
    requires Inv(voters, s) && Enabled(voters, s, step)
    ensures Inv(voters, Do(voters, s, step)) <==> Timely(voters, s, step)
  {
    if Timely(voters, s, step) {
      InvKept(voters, s, step);
    } else {
      BoundKept(voters, s, step);
      assert step.msg.from in Do(voters, s, step).counted[step.n];
      assert !NodeCountExact(voters, Do(voters, s, step), step.n);
    }
  }

  // ------------------------------------------------------------------- runs

  predicate Run(voters: set<Name>, names: set<Name>, steps: seq<Step>, trace: seq<System>) {
    && |trace| == |steps| + 1 && trace[0] == Init(names)
    && forall i | 0 <= i < |steps| :: Linked(voters, trace[i], steps[i], trace[i + 1])
  }

  predicate Linked(voters: set<Name>, s: System, step: Step, t: System) {
    Enabled(voters, s, step) && step.n in s.counted && t == Do(voters, s, step)
  }

  /** The epoch bound holds in every state of every run. */
  lemma {:induction false} EpochsBounded(voters: set<Name>, names: set<Name>, steps: seq<Step>, trace: seq<System>,
                                         i: nat)
    requires Run(voters, names, steps, trace) && i <= |steps|
    ensures Shape(trace[i]) && EpochBound(trace[i])
  {
    if i > 0 {
      EpochsBounded(voters, names, steps, trace, i - 1);
      assert Linked(voters, trace[i - 1], steps[i - 1], trace[i]);
      BoundKept(voters, trace[i - 1], steps[i - 1]);
    }
  }

  predicate GrantStep(s: System, step: Step) {
    step.Receive? && step.n in s.nodes && GrantsVote(s.nodes[step.n], step.msg, step.req)
  }

  lemma {:induction false} LastVoteGrows(voters: set<Name>, names: set<Name>, steps: seq<Step>, trace: seq<System>,
                                         n: Name, i: nat, j: nat)
    requires Run(voters, names, steps, trace) && i <= j <= |steps| && n in trace[i].nodes
    ensures n in trace[j].nodes && trace[i].nodes[n].lastVoteEpoch <= trace[j].nodes[n].lastVoteEpoch
    decreases j
  {
    if i < j {
      LastVoteGrows(voters, names, steps, trace, n, i, j - 1);
      EpochsBounded(voters, names, steps, trace, j - 1);
      assert Linked(voters, trace[j - 1], steps[j - 1], trace[j]);
      NodeKept(voters, trace[j - 1], steps[j - 1]);
    }
  }

  /** The epochs in which a voter grants its vote strictly increase. */
  lemma {:induction false} GrantsIncrease(voters: set<Name>, names: set<Name>, steps: seq<Step>, trace: seq<System>,
                                          i: nat, j: nat)
    requires Run(voters, names, steps, trace) && i < j < |steps|
    requires GrantStep(trace[i], steps[i]) && GrantStep(trace[j], steps[j]) && steps[i].n == steps[j].n
    ensures steps[i].msg.cur < steps[j].msg.cur
  {
    EpochsBounded(voters, names, steps, trace, i);
    EpochsBounded(voters, names, steps, trace, j);
    assert Linked(voters, trace[i], steps[i], trace[i + 1]) && Linked(voters, trace[j], steps[j], trace[j + 1]);
    GrantIsFresh(voters, trace[i], steps[i]);
    GrantIsFresh(voters, trace[j], steps[j]);
    LastVoteGrows(voters, names, steps, trace, steps[i].n, i + 1, j);
  }

  lemma {:induction false} RunsKeepInv(voters: set<Name>, names: set<Name>, steps: seq<Step>, trace: seq<System>,
                                       i: nat)
    requires Run(voters, names, steps, trace) && i <= |steps|
    requires forall k | 0 <= k < |steps| :: Timely(voters, trace[k], steps[k])
    ensures Inv(voters, trace[i])
  {
    if i > 0 {
      RunsKeepInv(voters, names, steps, trace, i - 1);
      assert Linked(voters, trace[i - 1], steps[i - 1], trace[i]);
      InvKept(voters, trace[i - 1], steps[i - 1]);
    }
  }

  /** Over a whole run: the counts are exact and the winners have their quorum in
      every state if and only if no step counts a late vote. */
  lemma {:induction false} RunsKeepInvExactly(voters: set<Name>, names: set<Name>, steps: seq<Step>, trace: seq<System>)
    requires Run(voters, names, steps, trace)
    ensures (forall i | 0 <= i <= |steps| :: Inv(voters, trace[i]))
            <==> (forall k | 0 <= k < |steps| :: Timely(voters, trace[k], steps[k]))
  {
    if forall i | 0 <= i <= |steps| :: Inv(voters, trace[i]) {
      forall k | 0 <= k < |steps| ensures Timely(voters, trace[k], steps[k]) {
        assert Linked(voters, trace[k], steps[k], trace[k + 1]);
        InvKeptExactly(voters, trace[k], steps[k]);
      }
    }
    if forall k | 0 <= k < |steps| :: Timely(voters, trace[k], steps[k]) {
      forall i | 0 <= i <= |steps| ensures Inv(voters, trace[i]) {
        RunsKeepInv(voters, names, steps, trace, i);
      }
    }
  }

  /** Two quorums of one electorate share a voter. */
  lemma {:induction false} QuorumsMeet(voters: set<Name>, a: set<Name>, b: set<Name>)
    requires a <= voters && b <= voters && |a| >= Quorum(voters) && |b| >= Quorum(voters)
    ensures exists v :: v in a && v in b
  {
    Subset(a + b, voters);
    assert |a + b| + |a * b| == |a| + |b|;
    assert (forall v :: v !in a * b) ==> a * b == {};
  }

  /** Election safety: with a fixed electorate and no late votes, one epoch has
      at most one winner. */
  lemma {:induction false} ElectionSafety(voters: set<Name>, names: set<Name>, steps: seq<Step>, trace: seq<System>,
                                          i: nat, a: Name, b: Name, e: nat)
    requires Run(voters, names, steps, trace) && i <= |steps|
    requires forall k | 0 <= k < |steps| :: Timely(voters, trace[k], steps[k])
    requires (a, e) in trace[i].winners && (b, e) in trace[i].winners
    ensures a == b
  {
    RunsKeepInv(voters, names, steps, trace, i);
    var net := trace[i].net;
    QuorumsMeet(voters, VotersFor(net, voters, a, e), VotersFor(net, voters, b, e));
    var v :| v in VotersFor(net, voters, a, e) && v in VotersFor(net, voters, b, e);
    var x :| x in net && x.from == v && x.cur == e && x.body == AuthAck(a);
    var y :| y in net && y.from == v && y.cur == e && y.body == AuthAck(b);
    assert x.body == y.body;
  }
}
