/** A run in which a vote counted late elects two replicas of one failed master
    in one epoch: the timing hypothesis of election safety is needed. Nodes 1, 2
    and 3 are masters; 4 and 5 are replicas of node 1, which has failed and stays
    silent. */
module LateVote {
  import opened Collections
  import opened ClusterNode
  import opened ClusterRun

  const VOTERS: set<Name> := {1, 2, 3}
  const NAMES: set<Name> := {1, 2, 3, 4, 5}

  /** Everybody is known, nobody has a configEpoch. */
  const ALL: map<Name, nat> := map[1 := 0, 2 := 0, 3 := 0, 4 := 0, 5 := 0]

  /** A replica of the failed master asks for its slots. */
  const DUE := Request(true, true, true, true, false, true, [0], 0)

  // ------------------------------------------------------------ extending runs

  lemma {:induction false} Extend(voters: set<Name>, names: set<Name>, steps: seq<Step>, trace: seq<System>, step: Step)
    returns (more: seq<Step>, longer: seq<System>)
    requires Run(voters, names, steps, trace) && Enabled(voters, trace[|steps|], step)
             && step.n in trace[|steps|].counted
    ensures Run(voters, names, more, longer) && longer[|more|] == Do(voters, trace[|steps|], step)
  {
    var next := Do(voters, trace[|steps|], step);
    more, longer := steps + [step], trace + [next];
    forall i | 0 <= i < |more| ensures Linked(voters, longer[i], more[i], longer[i + 1]) {
      if i < |steps| {
        assert Linked(voters, trace[i], steps[i], trace[i + 1]);
      }
    }
  }

  // ------------------------------------------------------------------ meeting

  function Acquainted(names: set<Name>, met: set<(Name, Name)>, n: Name): Node {
    Node(0, 0, map m | m in names && (m == n || (n, m) in met) :: 0, 0, 0, false)
  }

  function Met(names: set<Name>, met: set<(Name, Name)>): System {
    System(map n | n in names :: Acquainted(names, met, n), {}, {}, map n | n in names :: {}, {})
  }

  lemma {:induction false} KnowsOneMore(names: set<Name>, met: set<(Name, Name)>, a: Name, b: Name, n: Name)
    requires b in names
    ensures var was, now := Acquainted(names, met, n).config, Acquainted(names, met + {(a, b)}, n).config;
            now == if n == a then was[b := 0] else was
  {
    var was, now := Acquainted(names, met, n).config, Acquainted(names, met + {(a, b)}, n).config;
    if n == a {
      assert now == was[b := 0];
    } else {
      assert now == was;
    }
  }

  lemma {:induction false} MeetOne(voters: set<Name>, names: set<Name>, met: set<(Name, Name)>, a: Name, b: Name)
    requires a in names && b in names && a != b && (a, b) !in met
    ensures Enabled(voters, Met(names, met), Meet(a, b))
    ensures Do(voters, Met(names, met), Meet(a, b)) == Met(names, met + {(a, b)})
  {
    var s, t := Met(names, met), Met(names, met + {(a, b)});
    forall n | n in names
      ensures t.nodes[n] == if n == a then s.nodes[n].(config := s.nodes[n].config[b := 0]) else s.nodes[n]
    {
      KnowsOneMore(names, met, a, b, n);
    }
    assert t.nodes == s.nodes[a := s.nodes[a].(config := s.nodes[a].config[b := 0])];
    assert s.counted[a := {}] == t.counted;
  }

  /** The nodes of a new cluster can come to know each other in any combination. */
  lemma {:induction false} Meetings(voters: set<Name>, names: set<Name>, met: set<(Name, Name)>)
    returns (steps: seq<Step>, trace: seq<System>)
    requires forall p | p in met :: p.0 in names && p.1 in names && p.0 != p.1
    ensures Run(voters, names, steps, trace) && trace[|steps|] == Met(names, met)
  {
    if met == {} {
      steps, trace := [], [Init(names)];
      StartsAlone(names);
    } else {
      var p := Member(met);
      steps, trace := Meetings(voters, names, met - {p});
      assert p == (p.0, p.1);
      MeetOne(voters, names, met - {p}, p.0, p.1);
      assert met - {p} + {p} == met;
      steps, trace := Extend(voters, names, steps, trace, Meet(p.0, p.1));
    }
  }

  lemma {:induction false} StartsAlone(names: set<Name>)
    ensures Init(names) == Met(names, {})
  {
    forall n | n in names ensures Acquainted(names, {}, n).config == map[n := 0] {
      KnowsItself(names, n);
    }
    assert Init(names).nodes == Met(names, {}).nodes;
  }

  lemma {:induction false} KnowsItself(names: set<Name>, n: Name)
    requires n in names
    ensures Acquainted(names, {}, n).config == map[n := 0]
  {
  }

  // -------------------------------------------- one step, as far as it matters

  /** The states of the nodes that act, and no vote but `acked` delivered. */
  predicate Stands(s: System, n2: Node, n3: Node, n4: Node, n5: Node, acked: set<(Name, nat)>) {
    && s.nodes.Keys == NAMES && s.counted.Keys == NAMES
    && s.nodes[2] == n2 && s.nodes[3] == n3 && s.nodes[4] == n4 && s.nodes[5] == n5
    && s.acked == acked
  }

  /** t is s with one node changed. */
  predicate Changed(s: System, t: System, n: Name, nd: Node) {
    && t.nodes == s.nodes[n := nd] && t.counted.Keys == s.counted.Keys + {n}
    && s.net <= t.net && s.winners <= t.winners
  }

  lemma {:induction false} HearsNothingNew(nd: Node, from: Name, cur: nat)
    requires nd.config == ALL && from in ALL
    ensures Hear(nd, from, cur, 0) == nd.(currentEpoch := Max(nd.currentEpoch, cur))
  {
    assert nd.config[from := 0] == nd.config;
  }

  lemma {:induction false} Begins(s: System, c: Name)
    requires c in s.nodes && c in s.counted && s.nodes[c].config == ALL && !s.nodes[c].authSent
    ensures var step := StartElection(c, 1);
            && Enabled(VOTERS, s, step) && Changed(s, Do(VOTERS, s, step), c, Start(s.nodes[c]))
            && Do(VOTERS, s, step).acked == s.acked
            && Msg(c, s.nodes[c].currentEpoch + 1, 0, AuthRequest) in Do(VOTERS, s, step).net
  {
  }

  /** A voter behind epoch e grants its vote. */
  lemma {:induction false} Votes(s: System, v: Name, c: Name, e: nat)
    requires v in s.nodes && v in s.counted && v in VOTERS && s.nodes[v].config == ALL && c in ALL && c != v
    requires s.nodes[v].currentEpoch <= e && s.nodes[v].lastVoteEpoch < e && Msg(c, e, 0, AuthRequest) in s.net
    ensures var step := Receive(v, Msg(c, e, 0, AuthRequest), false, DUE);
            && Enabled(VOTERS, s, step)
            && Changed(s, Do(VOTERS, s, step), v, s.nodes[v].(currentEpoch := e, lastVoteEpoch := e))
            && Do(VOTERS, s, step).acked == s.acked
            && Msg(v, e, 0, AuthAck(c)) in Do(VOTERS, s, step).net
  {
    HearsNothingNew(s.nodes[v], c, e);
  }

  lemma {:induction false} Counts(s: System, c: Name, v: Name, e: nat)
    requires c in s.nodes && c in s.counted && v in VOTERS && s.nodes[c].config == ALL && v != c
    requires s.nodes[c].authEpoch == e <= s.nodes[c].currentEpoch && Msg(v, e, 0, AuthAck(c)) in s.net
             && (v, e) !in s.acked
    ensures var step := Receive(c, Msg(v, e, 0, AuthAck(c)), false, DUE);
            && Enabled(VOTERS, s, step)
            && Changed(s, Do(VOTERS, s, step), c, s.nodes[c].(authCount := s.nodes[c].authCount + 1))
            && Do(VOTERS, s, step).acked == s.acked + {(v, e)}
  {
    HearsNothingNew(s.nodes[c], v, e);
  }

  lemma {:induction false} Wins(s: System, c: Name)
    requires c in s.nodes && c in s.counted && s.nodes[c].authSent && s.nodes[c].authCount >= 2
    ensures var step := WinElection(c);
            && Enabled(VOTERS, s, step) && Changed(s, Do(VOTERS, s, step), c, Win(s.nodes[c], c))
            && Do(VOTERS, s, step).acked == s.acked
            && (c, s.nodes[c].authEpoch) in Do(VOTERS, s, step).winners
  {
    assert |VOTERS| == 3;
  }

  lemma {:induction false} Reschedules(s: System, c: Name)
    requires c in s.nodes && c in s.counted
    ensures var step := ScheduleElection(c);
            && Enabled(VOTERS, s, step) && Changed(s, Do(VOTERS, s, step), c, Schedule(s.nodes[c]))
            && Do(VOTERS, s, step).acked == s.acked
  {
  }

  /** A ping tells its receiver no more than the currentEpoch of its sender. */
  lemma {:induction false} Pings(s: System, from: Name, n: Name)
    requires from in s.nodes && from in s.counted && n in s.nodes && n in s.counted && from != n && from in ALL
    requires s.nodes[from].config == ALL && s.nodes[n].config == ALL
    ensures var send := Send(from, from, Ping);
            && Enabled(VOTERS, s, send)
            && var t := Do(VOTERS, s, send);
               var msg := Msg(from, s.nodes[from].currentEpoch, 0, Ping);
               var step := Receive(n, msg, false, DUE);
               && Changed(s, t, from, s.nodes[from]) && t.acked == s.acked
               && Enabled(VOTERS, t, step)
               && Do(VOTERS, t, step).acked == s.acked
               && Changed(t, Do(VOTERS, t, step), n, s.nodes[n].(currentEpoch := Max(s.nodes[n].currentEpoch, msg.cur)))
  {
    HearsNothingNew(s.nodes[n], from, s.nodes[from].currentEpoch);
  }

  // ------------------------------------------------------------------ the run

  function Voter(e: nat): Node {
    Node(e, e, ALL, 0, 0, false)
  }

  function Candidate(e: nat, auth: nat, count: nat, sent: bool): Node {
    Node(e, 0, ALL, auth, count, sent)
  }

  lemma {:induction false} AllMet() returns (steps: seq<Step>, trace: seq<System>)
    ensures Run(VOTERS, NAMES, steps, trace)
    ensures Stands(trace[|steps|], Voter(0), Voter(0), Candidate(0, 0, 0, false), Candidate(0, 0, 0, false), {})
  {
    var met := set a, b | a in NAMES && b in NAMES && a != b :: (a, b);
    steps, trace := Meetings(VOTERS, NAMES, met);
    forall n | n in NAMES ensures Acquainted(NAMES, met, n).config == ALL {
      KnowsAll(met, n);
    }
  }

  lemma {:induction false} KnowsAll(met: set<(Name, Name)>, n: Name)
    requires n in NAMES && forall m | m in NAMES && m != n :: (n, m) in met
    ensures Acquainted(NAMES, met, n).config == ALL
  {
  }

  /** Node 4 stands in epoch 1 and gets the votes of 2 and 3, which are on their way. */
  lemma {:induction false} FirstElection() returns (steps: seq<Step>, trace: seq<System>)
    ensures Run(VOTERS, NAMES, steps, trace)
    ensures var s := trace[|steps|];
            && Stands(s, Voter(1), Voter(1), Candidate(1, 1, 0, true), Candidate(0, 0, 0, false), {})
            && Msg(2, 1, 0, AuthAck(4)) in s.net && Msg(3, 1, 0, AuthAck(4)) in s.net
  {
    steps, trace := AllMet();
    Begins(trace[|steps|], 4);
    steps, trace := Extend(VOTERS, NAMES, steps, trace, StartElection(4, 1));
    Votes(trace[|steps|], 2, 4, 1);
    steps, trace := Extend(VOTERS, NAMES, steps, trace, Receive(2, Msg(4, 1, 0, AuthRequest), false, DUE));
    Votes(trace[|steps|], 3, 4, 1);
    steps, trace := Extend(VOTERS, NAMES, steps, trace, Receive(3, Msg(4, 1, 0, AuthRequest), false, DUE));
  }

  /** The count is restarted, and only then do the votes of epoch 1 arrive. */
  lemma {:induction false} LateVotes() returns (steps: seq<Step>, trace: seq<System>)
    ensures Run(VOTERS, NAMES, steps, trace)
    ensures Stands(trace[|steps|], Voter(1), Voter(1), Candidate(1, 1, 2, false), Candidate(0, 0, 0, false),
                   {(2, 1), (3, 1)})
  {
    steps, trace := FirstElection();
    Reschedules(trace[|steps|], 4);
    steps, trace := Extend(VOTERS, NAMES, steps, trace, ScheduleElection(4));
    Counts(trace[|steps|], 4, 2, 1);
    steps, trace := Extend(VOTERS, NAMES, steps, trace, Receive(4, Msg(2, 1, 0, AuthAck(4)), false, DUE));
    Counts(trace[|steps|], 4, 3, 1);
    steps, trace := Extend(VOTERS, NAMES, steps, trace, Receive(4, Msg(3, 1, 0, AuthAck(4)), false, DUE));
  }

  /** The election of epoch 2 starts with the count already at the quorum. */
  lemma {:induction false} WrongWinner() returns (steps: seq<Step>, trace: seq<System>, last: Node)
    ensures Run(VOTERS, NAMES, steps, trace)
    ensures Stands(trace[|steps|], Voter(1), Voter(1), last, Candidate(0, 0, 0, false), {(2, 1), (3, 1)})
    ensures (4, 2) in trace[|steps|].winners
  {
    steps, trace := LateVotes();
    Begins(trace[|steps|], 4);
    steps, trace := Extend(VOTERS, NAMES, steps, trace, StartElection(4, 1));
    Wins(trace[|steps|], 4);
    steps, trace := Extend(VOTERS, NAMES, steps, trace, WinElection(4));
    last := trace[|steps|].nodes[4];
  }

  /** Node 5 is told of epoch 1 by a ping and stands in epoch 2. */
  lemma {:induction false} SecondCandidate() returns (steps: seq<Step>, trace: seq<System>, last: Node)
    ensures Run(VOTERS, NAMES, steps, trace)
    ensures var s := trace[|steps|];
            && Stands(s, Voter(1), Voter(1), last, Candidate(2, 2, 0, true), {(2, 1), (3, 1)})
            && Msg(5, 2, 0, AuthRequest) in s.net && (4, 2) in s.winners
  {
    steps, trace, last := WrongWinner();
    Pings(trace[|steps|], 2, 5);
    steps, trace := Extend(VOTERS, NAMES, steps, trace, Send(2, 2, Ping));
    steps, trace := Extend(VOTERS, NAMES, steps, trace, Receive(5, Msg(2, 1, 0, Ping), false, DUE));
    Begins(trace[|steps|], 5);
    steps, trace := Extend(VOTERS, NAMES, steps, trace, StartElection(5, 1));
  }

  /** It gets both votes. */
  lemma {:induction false} SecondElection() returns (steps: seq<Step>, trace: seq<System>, last: Node)
    ensures Run(VOTERS, NAMES, steps, trace)
    ensures var s := trace[|steps|];
            && Stands(s, Voter(2), Voter(2), last, Candidate(2, 2, 0, true), {(2, 1), (3, 1)})
            && Msg(2, 2, 0, AuthAck(5)) in s.net && Msg(3, 2, 0, AuthAck(5)) in s.net && (4, 2) in s.winners
  {
    steps, trace, last := SecondCandidate();
    Votes(trace[|steps|], 2, 5, 2);
    steps, trace := Extend(VOTERS, NAMES, steps, trace, Receive(2, Msg(5, 2, 0, AuthRequest), false, DUE));
    Votes(trace[|steps|], 3, 5, 2);
    steps, trace := Extend(VOTERS, NAMES, steps, trace, Receive(3, Msg(5, 2, 0, AuthRequest), false, DUE));
  }

  /** Votes of epoch 1 that arrive after the count was restarted elect node 4 for
      epoch 2 without any vote in epoch 2, next to node 5, which has a quorum. */
  lemma {:induction false} LateVoteBreaksSafety() returns (steps: seq<Step>, trace: seq<System>)
    ensures Run(VOTERS, NAMES, steps, trace)
    ensures (4, 2) in trace[|steps|].winners && (5, 2) in trace[|steps|].winners
    ensures !forall k | 0 <= k < |steps| :: Timely(VOTERS, trace[k], steps[k])
  {
    var last;
    steps, trace, last := SecondElection();
    Counts(trace[|steps|], 5, 2, 2);
    steps, trace := Extend(VOTERS, NAMES, steps, trace, Receive(5, Msg(2, 2, 0, AuthAck(5)), false, DUE));
    Counts(trace[|steps|], 5, 3, 2);
    steps, trace := Extend(VOTERS, NAMES, steps, trace, Receive(5, Msg(3, 2, 0, AuthAck(5)), false, DUE));
    Wins(trace[|steps|], 5);
    steps, trace := Extend(VOTERS, NAMES, steps, trace, WinElection(5));
    if forall k | 0 <= k < |steps| :: Timely(VOTERS, trace[k], steps[k]) {
      ElectionSafety(VOTERS, NAMES, steps, trace, |steps|, 4, 5, 2);
    }
  }
}
