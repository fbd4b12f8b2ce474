/** Resolution of configEpoch collisions (cluster.c): masters that know each
    other, pings that are delayed, reordered and repeated at will, and no other
    source of epochs. The resolution comes to an end, and it ends only when all
    configEpochs differ. */
module EpochCollision {
  import Bits
  import opened ClusterNode

  /** A ping of master `from`: its currentEpoch and its own configEpoch. */
  datatype Ping = Ping(from: nat, cur: nat, cfg: nat)

  /** Master i has the i-th smallest name. `held[i]` are the configEpochs it has
      had so far, `moved[i]` those it gave up in a collision, `moves[i]` how
      often it did. */
  datatype Masters = Masters(nodes: seq<Node>, pings: set<Ping>, held: seq<set<nat>>, moved: seq<set<nat>>,
                             moves: seq<nat>)

  datatype Step =
    | Announce(n: nat)
    | Receive(n: nat, ping: Ping)

  predicate Shape(s: Masters) {
    && |s.held| == |s.moved| == |s.moves| == |s.nodes|
    && (forall n, m | 0 <= n < |s.nodes| && 0 <= m < |s.nodes| :: m in s.nodes[n].config)
    && (forall p | p in s.pings :: p.from < |s.nodes|)
  }

  function Own(s: Masters, n: nat): nat
    requires n < |s.nodes|
  {
    Epoch(s.nodes[n], n)
  }

  /** An up-to-date ping of master m. */
  function Latest(s: Masters, m: nat): Ping
    requires m < |s.nodes|
  {
    Ping(m, s.nodes[m].currentEpoch, Own(s, m))
  }

  function Handle(s: Masters, n: nat, p: Ping): Node
    requires n < |s.nodes|
  {
    Collide(Hear(s.nodes[n], p.from, p.cur, p.cfg), n, p.from, p.cfg, true)
  }

  /** Delivering `p` makes master n take a new configEpoch. */
  predicate Moves(s: Masters, n: nat, p: Ping)
    requires n < |s.nodes|
  {
    Epoch(Handle(s, n, p), n) != Own(s, n)
  }

  predicate Enabled(s: Masters, step: Step) {
    step.n < |s.nodes| && (step.Receive? ==> step.ping in s.pings && step.ping.from != step.n)
  }

  function Do(s: Masters, step: Step): Masters
    requires Shape(s) && Enabled(s, step)
  {
    match step
    case Announce(n) => s.(pings := s.pings + {Latest(s, n)})
    case Receive(n, p) =>
      var t := s.(nodes := s.nodes[n := Handle(s, n, p)]);
      if Moves(s, n, p) then
        t.(moved := s.moved[n := s.moved[n] + {Own(s, n)}],
           held := s.held[n := s.held[n] + {Own(t, n)}],
           moves := s.moves[n := s.moves[n] + 1])
      else t
  }

  /** Any start in which nobody overestimates anybody. */
  predicate Initial(s: Masters) {
    && Shape(s) && s.pings == {}
    && (forall n | 0 <= n < |s.nodes| ::
          && Bounded(s.nodes[n]) && s.held[n] == {Own(s, n)} && s.moved[n] == {} && s.moves[n] == 0)
    && (forall n, m | 0 <= n < |s.nodes| && 0 <= m < |s.nodes| :: Epoch(s.nodes[n], m) <= Own(s, m))
  }

  // -------------------------------------------------------------- invariant

  /** The configEpochs ever held by the masters above n. */
  function Above(s: Masters, n: nat): set<nat>
    requires Shape(s) && n <= |s.nodes|
    decreases |s.nodes| - n
  {
    if n + 1 >= |s.nodes| then {} else s.held[n + 1] + Above(s, n + 1)
  }

  predicate NodeInv(s: Masters, n: nat)
    requires Shape(s) && n < |s.nodes|
  {
    && Bounded(s.nodes[n])
    && s.held[n] == s.moved[n] + {Own(s, n)}
    && (forall e | e in s.moved[n] :: e < Own(s, n))
    && s.moves[n] == |s.moved[n]|
  }

  predicate NodesInv(s: Masters)
    requires Shape(s)
  {
    forall n | 0 <= n < |s.nodes| :: NodeInv(s, n)
  }

  predicate MovesUpward(s: Masters)
    requires Shape(s)
  {
    forall n | 0 <= n < |s.nodes| :: s.moved[n] <= Above(s, n)
  }

  predicate PingSound(s: Masters, p: Ping)
    requires Shape(s) && p.from < |s.nodes|
  {
    p.cfg in s.held[p.from] && p.cfg <= p.cur && p.cfg <= Own(s, p.from)
  }

  predicate PingsSound(s: Masters)
    requires Shape(s)
  {
    forall p | p in s.pings :: PingSound(s, p)
  }

  predicate NobodyAhead(s: Masters)
    requires Shape(s)
  {
    forall n, m | 0 <= n < |s.nodes| && 0 <= m < |s.nodes| :: Epoch(s.nodes[n], m) <= Own(s, m)
  }

  predicate Inv(s: Masters) {
    Shape(s) && NodesInv(s) && MovesUpward(s) && PingsSound(s) && NobodyAhead(s)
  }

  lemma {:induction false} AboveHolds(s: Masters, n: nat, m: nat)
    requires Shape(s) && n < m < |s.nodes|
    ensures s.held[m] <= Above(s, n)
    decreases m - n
  {
    if m > n + 1 {
      AboveHolds(s, n + 1, m);
    }
  }

  lemma {:induction false} AboveGrows(s: Masters, t: Masters, n: nat)
    requires Shape(s) && Shape(t) && |t.nodes| == |s.nodes| && n <= |s.nodes|
    requires forall m | n < m < |s.nodes| :: s.held[m] <= t.held[m]
    ensures Above(s, n) <= Above(t, n)
    decreases |s.nodes| - n
  {
    if n + 1 < |s.nodes| {
      AboveGrows(s, t, n + 1);
    }
  }

  /** A master moves only to get away from a greater-named one, and it moves to
      an epoch it never had. */
  lemma {:induction false} MoveEffect(s: Masters, n: nat, p: Ping)
    requires Inv(s) && n < |s.nodes| && p in s.pings && p.from != n
    ensures var nd := Handle(s, n, p);
            && Bounded(nd) && nd.config.Keys == s.nodes[n].config.Keys
            && (forall m | m != n && m in nd.config && m < |s.nodes| && m >= 0 :: nd.config[m] <= Own(s, m))
            && Own(s, n) <= Epoch(nd, n)
            && (Moves(s, n, p) ==> n < p.from && Own(s, n) in s.held[p.from] && Own(s, n) < Epoch(nd, n))
  {
    assert NodeInv(s, n) && PingSound(s, p);
  }

  lemma {:induction false} InvKept(s: Masters, step: Step)
    requires Inv(s) && Enabled(s, step)
    ensures Inv(Do(s, step))
  {
    match step
    case Announce(n) => AnnounceKept(s, n);
    case Receive(n, p) => ReceiveKept(s, n, p);
  }

  lemma {:induction false} AnnounceKept(s: Masters, n: nat)
    requires Inv(s) && n < |s.nodes|
    ensures Inv(Do(s, Announce(n)))
  {
    var t := Do(s, Announce(n));
    SameMasters(s, t);
    assert NodeInv(s, n);
    forall p | p in t.pings ensures PingSound(t, p) {
      assert p in s.pings ==> PingSound(s, p);
    }
  }

  lemma {:induction false} SameMasters(s: Masters, t: Masters)
    requires Inv(s) && Shape(t) && t.nodes == s.nodes && t.held == s.held && t.moved == s.moved && t.moves == s.moves
    ensures NodesInv(t) && MovesUpward(t) && NobodyAhead(t)
  {
    forall k | 0 <= k < |t.nodes| ensures NodeInv(t, k) && t.moved[k] <= Above(t, k) {
      assert NodeInv(s, k);
      AboveGrows(s, t, k);
    }
    forall a, b | 0 <= a < |t.nodes| && 0 <= b < |t.nodes| ensures Epoch(t.nodes[a], b) <= Own(t, b) {
      assert Epoch(s.nodes[a], b) <= Own(s, b);
    }
  }

  lemma {:induction false} ReceiveKept(s: Masters, n: nat, p: Ping)
    requires Inv(s) && n < |s.nodes| && p in s.pings && p.from != n
    ensures Inv(Do(s, Receive(n, p)))
  {
    var t := Do(s, Receive(n, p));
    MoveEffect(s, n, p);
    assert Shape(t);
    ReceiveNodes(s, t, n, p);
    ReceiveMoves(s, t, n, p);
    forall q | q in t.pings ensures PingSound(t, q) {
      assert PingSound(s, q);
    }
    OthersNotAhead(s, t, n, p);
  }

  lemma {:induction false} ReceiveNodes(s: Masters, t: Masters, n: nat, p: Ping)
    requires Inv(s) && n < |s.nodes| && p in s.pings && p.from != n && t == Do(s, Receive(n, p)) && Shape(t)
    ensures NodesInv(t)
  {
    MoveEffect(s, n, p);
    forall k | 0 <= k < |s.nodes| ensures NodeInv(t, k) {
      assert NodeInv(s, k);
    }
  }

  lemma {:induction false} ReceiveMoves(s: Masters, t: Masters, n: nat, p: Ping)
    requires Inv(s) && n < |s.nodes| && p in s.pings && p.from != n && t == Do(s, Receive(n, p)) && Shape(t)
    ensures MovesUpward(t)
  {
    MoveEffect(s, n, p);
    forall k | 0 <= k < |s.nodes| ensures t.moved[k] <= Above(t, k) {
      AboveGrows(s, t, k);
      if k == n && Moves(s, n, p) {
        AboveHolds(s, n, p.from);
      }
    }
  }

  lemma {:induction false} OthersNotAhead(s: Masters, t: Masters, n: nat, p: Ping)
    requires Inv(s) && n < |s.nodes| && p in s.pings && p.from != n && t == Do(s, Receive(n, p))
    ensures NobodyAhead(t)
  {
    MoveEffect(s, n, p);
    forall a, b | 0 <= a < |s.nodes| && 0 <= b < |s.nodes| ensures Epoch(t.nodes[a], b) <= Own(t, b) {
      assert Epoch(s.nodes[a], b) <= Own(s, b) <= Own(t, b);
    }
  }

  // ------------------------------------------------------------ termination

  lemma {:induction false} Cardinality(a: set<nat>, b: set<nat>)
    ensures |a + b| <= |a| + |b|
    ensures a <= b ==> |a| <= |b|
  {
    assert a + b == a + (b - a);
    if a <= b {
      assert b == a + (b - a);
    }
  }

  /** The masters above n have had fewer than 2^k epochs between them, k being
      their number. */
  lemma {:induction false} AboveBound(s: Masters, n: nat)
    requires Inv(s) && n < |s.nodes|
    ensures |Above(s, n)| <= Bits.Pow2(|s.nodes| - 1 - n) - 1
    decreases |s.nodes| - n
  {
    if n + 1 < |s.nodes| {
      AboveBound(s, n + 1);
      assert NodeInv(s, n + 1);
      Cardinality(s.moved[n + 1], Above(s, n + 1));
      Cardinality(s.moved[n + 1], {Own(s, n + 1)});
      Cardinality(s.held[n + 1], Above(s, n + 1));
    }
  }

  predicate Run(steps: seq<Step>, trace: seq<Masters>) {
    && |trace| == |steps| + 1 && Initial(trace[0])
    && forall i | 0 <= i < |steps| ::
         Shape(trace[i]) && Enabled(trace[i], steps[i]) && trace[i + 1] == Do(trace[i], steps[i])
  }

  lemma {:induction false} RunsKeepInv(steps: seq<Step>, trace: seq<Masters>, i: nat)
    requires Run(steps, trace) && i <= |steps|
    ensures Inv(trace[i]) && |trace[i].nodes| == |trace[0].nodes|
  {
    if i == 0 {
      forall n | 0 <= n < |trace[0].nodes| ensures NodeInv(trace[0], n) {
        assert trace[0].held[n] == {} + {Own(trace[0], n)};
      }
    } else {
      RunsKeepInv(steps, trace, i - 1);
      InvKept(trace[i - 1], steps[i - 1]);
    }
  }

  /** In every run a master with k greater-named masters moves at most 2^k - 1
      times, whatever the delivery order; the greatest never moves. */
  lemma {:induction false} CollisionsEnd(steps: seq<Step>, trace: seq<Masters>, i: nat, n: nat)
    requires Run(steps, trace) && i <= |steps| && n < |trace[0].nodes|
    ensures |trace[i].moves| == |trace[0].nodes|
    ensures trace[i].moves[n] <= Bits.Pow2(|trace[0].nodes| - 1 - n) - 1
  {
    RunsKeepInv(steps, trace, i);
    assert NodeInv(trace[i], n);
    AboveBound(trace[i], n);
    Cardinality(trace[i].moved[n], Above(trace[i], n));
  }

  /** Nothing is left to resolve exactly when all configEpochs differ. */
  lemma {:induction false} SettledIsDistinct(steps: seq<Step>, trace: seq<Masters>, i: nat)
    requires Run(steps, trace) && i <= |steps|
    ensures var s := trace[i];
            (forall n, m | 0 <= n < |s.nodes| && 0 <= m < |s.nodes| && n != m :: !Moves(s, n, Latest(s, m)))
              <==> (forall n, m | 0 <= n < m < |s.nodes| :: Own(s, n) != Own(s, m))
  {
    RunsKeepInv(steps, trace, i);
    var s := trace[i];
    forall n, m | 0 <= n < |s.nodes| && 0 <= m < |s.nodes| && n != m
      ensures Moves(s, n, Latest(s, m)) <==> n < m && Own(s, n) == Own(s, m)
    {
      MovesWhenEqual(s, n, m);
    }
  }

  /** An up-to-date ping makes a master move exactly when the epochs are equal
      and its name is the smaller one. */
  lemma {:induction false} MovesWhenEqual(s: Masters, n: nat, m: nat)
    requires Inv(s) && n < |s.nodes| && m < |s.nodes| && n != m
    ensures Moves(s, n, Latest(s, m)) <==> n < m && Own(s, n) == Own(s, m)
  {
    assert NodeInv(s, n);
    assert Epoch(s.nodes[n], m) <= Own(s, m);
  }
}
