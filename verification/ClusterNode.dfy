/** One node of Redis Cluster (cluster.c): its epochs, its vote and its own
    election, and the handlers that change them. */
module ClusterNode {
  import opened Collections

  /** Node names are compared with memcmp; only their order matters. */
  type Name = int

  /** `config` maps every known node, this one included, to the last configEpoch
      seen for it; auth* are the failover_auth_* fields. */
  datatype Node = Node(currentEpoch: nat, lastVoteEpoch: nat, config: map<Name, nat>,
                       authEpoch: nat, authCount: nat, authSent: bool)

  function Max(x: nat, y: nat): nat {
    if x < y then y else x
  }

  function Epoch(nd: Node, who: Name): nat {
    if who in nd.config then nd.config[who] else 0
  }

  /** Every epoch this node has heard of is covered by its currentEpoch. */
  predicate Bounded(nd: Node) {
    && (forall m | m in nd.config :: nd.config[m] <= nd.currentEpoch)
    && nd.authEpoch <= nd.currentEpoch
    && nd.lastVoteEpoch <= nd.currentEpoch
  }

  // --------------------------------------------------------------- handlers

  /** The header of any message from a known sender. */
  function Hear(nd: Node, from: Name, cur: nat, cfg: nat): Node {
    if from !in nd.config then nd
    else nd.(currentEpoch := Max(nd.currentEpoch, cur),
             config := nd.config[from := Max(nd.config[from], cfg)])
  }

  /** An UPDATE message: newer news about a known node. */
  function Learn(nd: Node, about: Name, epoch: nat): Node {
    if about !in nd.config || nd.config[about] >= epoch then nd
    else nd.(config := nd.config[about := epoch])
  }

  /** clusterHandleConfigEpochCollision, called when the sender announces our own
      configEpoch: of two masters the smaller name takes a new one. */
  function Collide(nd: Node, self: Name, from: Name, cfg: nat, masters: bool): Node {
    if masters && from in nd.config && cfg == Epoch(nd, self) && Epoch(nd, from) == Epoch(nd, self) && self < from
    then nd.(currentEpoch := nd.currentEpoch + 1, config := nd.config[self := nd.currentEpoch + 1])
    else nd
  }

  /** clusterBumpConfigEpochWithoutConsensus, given the greatest known epoch. */
  function Bump(nd: Node, self: Name, maxEpoch: nat): Node {
    if Epoch(nd, self) == 0 || Epoch(nd, self) != maxEpoch then
      nd.(currentEpoch := nd.currentEpoch + 1, config := nd.config[self := nd.currentEpoch + 1])
    else nd
  }

  /** CLUSTER SET-CONFIG-EPOCH on a node that knows nobody else. */
  function SetConfigEpoch(nd: Node, self: Name, epoch: nat): Node {
    if |nd.config| > 1 || Epoch(nd, self) != 0 then nd
    else nd.(config := nd.config[self := epoch], currentEpoch := Max(nd.currentEpoch, epoch))
  }

  /** What the voter knows about the requester, apart from the epochs. */
  datatype Request = Request(voter: bool, replica: bool, masterKnown: bool, masterFailed: bool, forced: bool,
                             waited: bool, owners: seq<nat>, configEpoch: nat)

  predicate Eligible(r: Request) {
    && r.voter && r.replica && r.masterKnown && (r.masterFailed || r.forced) && r.waited
    && forall i | 0 <= i < |r.owners| :: r.owners[i] <= r.configEpoch
  }

  /** clusterSendFailoverAuthIfNeeded. */
  predicate Grants(nd: Node, reqEpoch: nat, r: Request) {
    Eligible(r) && reqEpoch >= nd.currentEpoch && nd.lastVoteEpoch != nd.currentEpoch
  }

  function Vote(nd: Node, reqEpoch: nat, r: Request): Node {
    if Grants(nd, reqEpoch, r) then nd.(lastVoteEpoch := nd.currentEpoch) else nd
  }

  /** FAILOVER_AUTH_ACK: a vote counts if it comes from a voter and is not older
      than the election. */
  function Count(nd: Node, ackEpoch: nat, voter: bool): Node {
    if voter && ackEpoch >= nd.authEpoch then nd.(authCount := nd.authCount + 1) else nd
  }

  /** A new election is scheduled: the counter restarts, the epoch does not. */
  function Schedule(nd: Node): Node {
    nd.(authCount := 0, authSent := false)
  }

  /** The scheduled election starts. */
  function Start(nd: Node): Node {
    nd.(currentEpoch := nd.currentEpoch + 1, authEpoch := nd.currentEpoch + 1, authSent := true)
  }

  /** The quorum was reached. */
  function Win(nd: Node, self: Name): Node {
    nd.(config := nd.config[self := Max(Epoch(nd, self), nd.authEpoch)])
  }

  /** The greatest epoch this node has heard of, its own included. */
  predicate IsMaxEpoch(nd: Node, max: nat) {
    && max >= nd.currentEpoch && (forall m | m in nd.config :: nd.config[m] <= max)
    && (max == nd.currentEpoch || exists m | m in nd.config :: nd.config[m] == max)
  }

  // -------------------------------------------------------- the C structure

  class ClusterState {
    const self: Name
    var currentEpoch: nat
    var lastVoteEpoch: nat
    var config: map<Name, nat>
    var authEpoch: nat
    var authCount: nat
    var authSent: bool

    ghost function Value(): Node
      reads this
    {
      Node(currentEpoch, lastVoteEpoch, config, authEpoch, authCount, authSent)
    }

    /** clusterInit on a node without a saved configuration. */
    constructor (self: Name)
      ensures this.self == self && Value() == Node(0, 0, map[self := 0], 0, 0, false)
    {
      this.self := self;
      currentEpoch, lastVoteEpoch, config := 0, 0, map[self := 0];
      authEpoch, authCount, authSent := 0, 0, false;
    }

    /** clusterGetMaxEpoch */
    method GetMaxEpoch() returns (max: nat)
      ensures IsMaxEpoch(Value(), max)
      ensures Bounded(Value()) ==> max == currentEpoch
    {
      max := 0;
      var todo := config.Keys;
      while todo != {}
        invariant todo <= config.Keys
        invariant forall m | m in config && m !in todo :: config[m] <= max
        invariant max == 0 || exists m | m in config :: config[m] == max
        decreases todo
      {
        ghost var some := Member(todo);
        var m :| m in todo;
        if config[m] > max {
          max := config[m];
        }
        todo := todo - {m};
      }
      if max < currentEpoch {
        max := currentEpoch;
      }
    }

    method ReceiveHeader(from: Name, cur: nat, cfg: nat)
      modifies this
      ensures Value() == Hear(old(Value()), from, cur, cfg)
    {
      if from in config {
        if cur > currentEpoch {
          currentEpoch := cur;
        }
        if cfg > config[from] {
          config := config[from := cfg];
        }
      }
    }

    method HandleCollision(from: Name, cfg: nat, masters: bool)
      requires self in config && from in config
      modifies this
      ensures Value() == Collide(old(Value()), self, from, cfg, masters)
    {
      if cfg != config[self] {
        return;
      }
      if config[from] != config[self] || !masters {
        return;
      }
      if from <= self {
        return;
      }
      currentEpoch := currentEpoch + 1;
      config := config[self := currentEpoch];
    }

    method BumpWithoutConsensus() returns (ok: bool)
      requires self in config
      modifies this
      ensures exists max: nat :: IsMaxEpoch(old(Value()), max) && Value() == Bump(old(Value()), self, max)
                                 && (ok <==> Epoch(old(Value()), self) == 0 || Epoch(old(Value()), self) != max)
      ensures old(Bounded(Value())) ==> Value() == Bump(old(Value()), self, old(currentEpoch))
      ensures old(Bounded(Value())) && ok ==> forall m | m in old(config) :: old(config)[m] < config[self]
      ensures !ok ==> Value() == old(Value())
    {
      var maxEpoch := GetMaxEpoch();
      if config[self] == 0 || config[self] != maxEpoch {
        currentEpoch := currentEpoch + 1;
        config := config[self := currentEpoch];
        return true;
      }
      return false;
    }

    method VoteIfNeeded(reqEpoch: nat, r: Request) returns (granted: bool)
      modifies this`lastVoteEpoch
      ensures granted <==> Grants(old(Value()), reqEpoch, r)
      ensures Value() == Vote(old(Value()), reqEpoch, r)
    {
      if !r.voter {
        return false;
      }
      if reqEpoch < currentEpoch {
        return false;
      }
      if lastVoteEpoch == currentEpoch {
        return false;
      }
      if !r.replica || !r.masterKnown || (!r.masterFailed && !r.forced) {
        return false;
      }
      if !r.waited {
        return false;
      }
      for j := 0 to |r.owners|
        invariant forall i | 0 <= i < j :: r.owners[i] <= r.configEpoch
        invariant lastVoteEpoch == old(lastVoteEpoch)
      {
        if r.owners[j] <= r.configEpoch {
          continue;
        }
        return false;
      }
      lastVoteEpoch := currentEpoch;
      return true;
    }

    /** The steps of clusterHandleSlaveFailover that touch the election, with
        the outcome of its clock tests as arguments. */
    method HandleFailover(retry: bool, due: bool, expired: bool, quorum: nat) returns (won: bool)
      requires self in config
      modifies this
      ensures retry ==> !won && Value() == Schedule(old(Value()))
      ensures !retry && (!due || expired) ==> !won && Value() == old(Value())
      ensures !retry && due && !expired && !old(authSent) ==> !won && Value() == Start(old(Value()))
      ensures !retry && due && !expired && old(authSent) ==>
                won == (old(authCount) >= quorum) && Value() == if won then Win(old(Value()), self) else old(Value())
    {
      if retry {
        authCount := 0;
        authSent := false;
        return false;
      }
      if !due || expired {
        return false;
      }
      if !authSent {
        currentEpoch := currentEpoch + 1;
        authEpoch := currentEpoch;
        authSent := true;
        return false;
      }
      if authCount >= quorum {
        if config[self] < authEpoch {
          config := config[self := authEpoch];
        }
        assert config == old(config)[self := Max(old(config)[self], authEpoch)];
        return true;
      }
      return false;
    }
  }
}
