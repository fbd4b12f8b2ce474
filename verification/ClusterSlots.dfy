/** The hash slot table of a cluster node (cluster.c): slots[j] points to the
    node serving slot j, every node keeps the bitmap and the number of its
    slots, and both are changed one slot at a time. */
module ClusterSlots {
  import opened Collections

  const SLOTS: nat := 16384

  type Name = nat

  datatype Owner = NoOne | Node(name: Name)

  /** `slots` is the table, `bits[n]` the bitmap of node n as the set of its
      one bits, `num[n]` its numslots. */
  datatype Table = Table(slots: seq<Owner>, bits: map<Name, set<nat>>, num: map<Name, int>,
                         importing: seq<Owner>, migrating: seq<Owner>, epoch: map<Name, nat>)

  /** The slots a table gives to node n. */
  function Held(slots: seq<Owner>, n: Name): set<nat> {
    set j | 0 <= j < |slots| && slots[j] == Node(n)
  }

  predicate Points(owners: seq<Owner>, nodes: set<Name>) {
    |owners| == SLOTS && forall j | 0 <= j < |owners| && owners[j].Node? :: owners[j].name in nodes
  }

  /** Bit j of node n is set exactly when the table gives it slot j. */
  ghost predicate BitsFit(slots: seq<Owner>, bits: map<Name, set<nat>>) {
    forall n, j {:trigger j in bits[n]} | n in bits :: j in bits[n] <==> 0 <= j < |slots| && slots[j] == Node(n)
  }

  /** Table and bitmaps agree, and nothing points to a node that is gone. */
  ghost predicate Agree(t: Table) {
    && t.num.Keys == t.epoch.Keys == t.bits.Keys
    && Points(t.slots, t.bits.Keys) && Points(t.importing, t.bits.Keys) && Points(t.migrating, t.bits.Keys)
    && BitsFit(t.slots, t.bits)
    && (forall n | n in t.bits :: t.num[n] == |t.bits[n]|)
  }

  lemma {:induction false} BitmapIsHeld(t: Table, n: Name)
    requires Agree(t) && n in t.bits
    ensures t.bits[n] == Held(t.slots, n)
  {
  }

  /** The table with other owners, bitmaps and counters made to fit. */
  function Rebound(t: Table, owners: seq<Owner>): Table {
    t.(slots := owners,
       bits := map n | n in t.bits :: Held(owners, n),
       num := map n | n in t.bits :: |Held(owners, n)|)
  }

  /** Agreement leaves no freedom: the bitmaps and counters follow from the table. */
  lemma {:induction false} AgreementDetermines(t: Table, u: Table)
    requires Agree(t) && Agree(u) && u.bits.Keys == t.bits.Keys
    requires u.importing == t.importing && u.migrating == t.migrating && u.epoch == t.epoch
    ensures u == Rebound(t, u.slots)
  {
    var r := Rebound(t, u.slots);
    forall n | n in u.bits ensures u.bits[n] == Held(u.slots, n) {
      BitmapIsHeld(u, n);
    }
    assert u.bits == r.bits;
    assert u.num == r.num;
  }

  // ------------------------------------------------- one slot at a time

  function Unbind(t: Table, j: nat): Table
    requires j < |t.slots| && (t.slots[j].Node? ==> t.slots[j].name in t.bits && t.slots[j].name in t.num)
  {
    match t.slots[j]
    case NoOne => t
    case Node(n) =>
      t.(slots := t.slots[j := NoOne], bits := t.bits[n := t.bits[n] - {j}], num := t.num[n := t.num[n] - 1])
  }

  function Bind(t: Table, n: Name, j: nat): Table
    requires j < |t.slots| && n in t.bits && n in t.num
  {
    t.(slots := t.slots[j := Node(n)], bits := t.bits[n := t.bits[n] + {j}], num := t.num[n := t.num[n] + 1])
  }

  lemma {:induction false} UnbindAgrees(t: Table, j: nat)
    requires Agree(t) && j < SLOTS
    ensures Agree(Unbind(t, j)) && Unbind(t, j).slots == t.slots[j := NoOne]
  {
    var u := Unbind(t, j);
    if t.slots[j].Node? {
      assert j in t.bits[t.slots[j].name];
      assert BitsFit(u.slots, u.bits);
    }
  }

  lemma {:induction false} BindAgrees(t: Table, n: Name, j: nat)
    requires Agree(t) && j < SLOTS && n in t.bits && t.slots[j] == NoOne
    ensures Agree(Bind(t, n, j))
  {
    var u := Bind(t, n, j);
    assert j !in t.bits[n];
    assert BitsFit(u.slots, u.bits);
  }

  lemma {:induction false} DropAgrees(t: Table, n: Name)
    requires Agree(t) && Node(n) !in t.slots && Node(n) !in t.importing && Node(n) !in t.migrating
    ensures Agree(t.(bits := t.bits - {n}, num := t.num - {n}, epoch := t.epoch - {n}))
  {
    PointsWithout(t.slots, t.bits.Keys, n);
    PointsWithout(t.importing, t.bits.Keys, n);
    PointsWithout(t.migrating, t.bits.Keys, n);
  }

  lemma {:induction false} PointsWithout(owners: seq<Owner>, nodes: set<Name>, n: Name)
    requires Points(owners, nodes) && Node(n) !in owners
    ensures Points(owners, nodes - {n})
  {
    assert forall j | 0 <= j < |owners| :: owners[j] in owners;
  }

  // ------------------------------------------------- rebinding by epoch

  /** A claim with configEpoch `claimEpoch` beats the owner of a slot. */
  predicate Stronger(owner: Owner, epochs: map<Name, nat>, sender: Name, claimEpoch: nat) {
    owner != Node(sender) && (owner.Node? && owner.name in epochs ==> epochs[owner.name] < claimEpoch)
  }

  predicate Takes(t: Table, sender: Name, epoch: nat, claim: set<nat>, j: nat)
    requires j < |t.slots| && j < |t.importing|
  {
    j in claim && t.importing[j] == NoOne && Stronger(t.slots[j], t.epoch, sender, epoch)
  }

  function Claimed(t: Table, sender: Name, epoch: nat, claim: set<nat>): seq<Owner>
    requires |t.importing| == |t.slots|
  {
    seq(|t.slots|, j requires 0 <= j < |t.slots| =>
          if Takes(t, sender, epoch, claim, j) then Node(sender) else t.slots[j])
  }

  /** A header: the sender's configEpoch is raised, and its claim is looked at
      if it differs from the bitmap kept for the sender. */
  function Heard(t: Table, sender: Name, epoch: nat): Table
    requires sender in t.epoch
  {
    if epoch > t.epoch[sender] then t.(epoch := t.epoch[sender := epoch]) else t
  }

  function Receive(t: Table, sender: Name, epoch: nat, claim: set<nat>): Table
    requires sender in t.epoch && sender in t.bits && |t.importing| == |t.slots|
  {
    var h := Heard(t, sender, epoch);
    if h.bits[sender] == claim then h else Rebound(h, Claimed(h, sender, epoch, claim))
  }

  /** Skipping the scan when bitmap and claim are equal changes nothing. */
  lemma {:induction false} SkipIsSafe(t: Table, sender: Name, epoch: nat, claim: set<nat>)
    requires Agree(t) && sender in t.bits && claim == t.bits[sender]
    ensures Claimed(t, sender, epoch, claim) == t.slots
    ensures Rebound(t, Claimed(t, sender, epoch, claim)) == t
  {
    forall j | 0 <= j < SLOTS ensures !Takes(t, sender, epoch, claim, j) {
      assert j in claim <==> t.slots[j] == Node(sender);
    }
    assert Claimed(t, sender, epoch, claim) == t.slots;
    AgreementDetermines(t, t);
  }

  /** An UPDATE about node n, told by somebody else: only news count, and news
      about this node itself change no slot. */
  function Updated(t: Table, me: Name, n: Name, epoch: nat, claim: set<nat>): Table
    requires n in t.epoch && |t.importing| == |t.slots|
  {
    if t.epoch[n] >= epoch then t
    else
      var h := t.(epoch := t.epoch[n := epoch]);
      if n == me then h else Rebound(h, Claimed(h, n, epoch, claim))
  }

  /** News about another node do what a message of that node would have done. */
  lemma {:induction false} UpdateIsMessage(t: Table, me: Name, n: Name, epoch: nat, claim: set<nat>)
    requires Agree(t) && n in t.bits && n != me && epoch > t.epoch[n]
    ensures Updated(t, me, n, epoch, claim) == Receive(t, n, epoch, claim)
  {
    var h := Heard(t, n, epoch);
    if h.bits[n] == claim {
      SkipIsSafe(h, n, epoch, claim);
    }
  }

  /** Slots that hold keys here although neither assigned to this node nor being
      imported: taken if nobody has them, marked as imported otherwise. */
  predicate Stray(t: Table, me: Name, keys: set<nat>, j: nat)
    requires j < |t.slots| && j < |t.importing|
  {
    j in keys && t.slots[j] != Node(me) && t.importing[j] == NoOne
  }

  function Adopted(t: Table, me: Name, keys: set<nat>): seq<Owner>
    requires |t.importing| == |t.slots|
  {
    seq(|t.slots|, j requires 0 <= j < |t.slots| =>
          if Stray(t, me, keys, j) && t.slots[j] == NoOne then Node(me) else t.slots[j])
  }

  function Imported(t: Table, me: Name, keys: set<nat>): seq<Owner>
    requires |t.importing| == |t.slots|
  {
    seq(|t.slots|, j requires 0 <= j < |t.slots| => if Stray(t, me, keys, j) then t.slots[j] else t.importing[j])
  }

  /** The slots of one node moved to another (failover), or to nobody. */
  function Moved(slots: seq<Owner>, from: Name, to: Owner): seq<Owner> {
    seq(|slots|, j requires 0 <= j < |slots| => if slots[j] == Node(from) then to else slots[j])
  }

  function Assigned(slots: seq<Owner>, chosen: set<nat>, to: Owner): seq<Owner> {
    seq(|slots|, j requires 0 <= j < |slots| => if j in chosen then to else slots[j])
  }

  /** A scan that has reached slot j: new owners below, the old ones from j on. */
  function Scanned(was: seq<Owner>, target: seq<Owner>, j: nat): (r: seq<Owner>)
    requires j <= |was| == |target|
    ensures |r| == |was| && (j < |was| ==> r[j] == was[j])
  {
    seq(|was|, k requires 0 <= k < |was| == |target| => if k < j then target[k] else was[k])
  }

  lemma {:induction false} ScanDone(was: seq<Owner>, target: seq<Owner>)
    requires |was| == |target|
    ensures Scanned(was, target, 0) == was && Scanned(was, target, |was|) == target
  {
    assert Scanned(was, target, 0) == was;
    assert Scanned(was, target, |was|) == target;
  }

  lemma {:induction false} ScanStep(was: seq<Owner>, target: seq<Owner>, j: nat)
    requires j < |was| == |target|
    ensures Scanned(was, target, j + 1) == Scanned(was, target, j)[j := target[j]]
    ensures target[j] == was[j] ==> Scanned(was, target, j + 1) == Scanned(was, target, j)
  {
    var next := Scanned(was, target, j)[j := target[j]];
    assert Scanned(was, target, j + 1) == next;
  }

  // ------------------------------------------------------------- the node

  predicate Closed(owners: seq<Owner>) {
    forall j | 0 <= j < |owners| :: owners[j] == NoOne
  }

  predicate Lost(was: seq<Owner>, now: seq<Owner>, n: Name, j: nat)
    requires j < |was| == |now|
  {
    was[j] == Node(n) && now[j] != Node(n)
  }

  /** The slots below j that node n loses while keys are in them. */
  function DirtyBelow(was: seq<Owner>, now: seq<Owner>, n: Name, keys: set<nat>, j: nat): set<nat>
    requires j <= |was| == |now|
  {
    set k: nat | k < j && Lost(was, now, n, k) && k in keys
  }

  predicate LosesBelow(was: seq<Owner>, now: seq<Owner>, n: Name, j: nat)
    requires j <= |was| == |now|
  {
    exists k: nat :: k < j && Lost(was, now, n, k)
  }

  lemma {:induction false} NothingLost(slots: seq<Owner>, n: Name, keys: set<nat>)
    ensures DirtyBelow(slots, slots, n, keys, |slots|) == {} && !LosesBelow(slots, slots, n, |slots|)
  {
  }

  /** Slot j changes hands exactly when the claim takes it. */
  lemma {:induction false} LostToSender(t: Table, sender: Name, epoch: nat, claim: set<nat>, j: nat, n: Name)
    requires |t.importing| == |t.slots| && j < |t.slots|
    ensures Claimed(t, sender, epoch, claim)[j]
            == if Takes(t, sender, epoch, claim, j) then Node(sender) else t.slots[j]
    ensures Lost(t.slots, Claimed(t, sender, epoch, claim), n, j)
            == (Takes(t, sender, epoch, claim, j) && t.slots[j] == Node(n))
  {
  }

  lemma {:induction false} DirtyStep(was: seq<Owner>, now: seq<Owner>, n: Name, keys: set<nat>, j: nat)
    requires j < |was| == |now|
    ensures DirtyBelow(was, now, n, keys, j + 1)
            == DirtyBelow(was, now, n, keys, j) + (if Lost(was, now, n, j) && j in keys then {j} else {})
  {
    var next := DirtyBelow(was, now, n, keys, j) + if Lost(was, now, n, j) && j in keys then {j} else {};
    assert DirtyBelow(was, now, n, keys, j + 1) == next;
  }

  lemma {:induction false} LosesStep(was: seq<Owner>, now: seq<Owner>, n: Name, j: nat)
    requires j < |was| == |now|
    ensures LosesBelow(was, now, n, j + 1) == (LosesBelow(was, now, n, j) || Lost(was, now, n, j))
  {
  }

  /** What ADDSLOTS and DELSLOTS demand of their arguments. */
  predicate Acceptable(slots: seq<Owner>, args: seq<int>, del: bool) {
    && (forall k | 0 <= k < |args| :: 0 <= args[k] < |slots| && slots[args[k]].Node? == del)
    && (forall k, l | 0 <= k < l < |args| :: args[k] != args[l])
  }

  /** What a packet is about: a ping or pong of a master, a master that turned
      into a replica, an UPDATE about node n. */
  datatype Packet =
    | Message(sender: Name, epoch: nat, claim: set<nat>, master: Name, inhabited: set<nat>)
    | Demote(n: Name)
    | Update(n: Name, epoch: nat, claim: set<nat>, master: Name, inhabited: set<nat>)

  datatype Command =
    | Meet(n: Name)
    | Forget(n: Name)
    | AddSlots(args: seq<int>)
    | DelSlots(args: seq<int>)
    | SetSlotNode(slot: nat, n: Name, keys: nat)
    | SetSlotImporting(slot: nat, n: Name)
    | SetSlotMigrating(slot: nat, n: Name)
    | SetSlotStable(slot: nat)
    | FlushSlots
    | Failover(oldMaster: Name)
    | Arrive(packet: Packet)
    | Replicate(n: Name)
    | VerifyData(inhabited: set<nat>)
    | SoftReset

  class SlotTable {
    const me: Name
    var slots: seq<Owner>
    var bits: map<Name, set<nat>>
    var num: map<Name, int>
    var importing: seq<Owner>
    var migrating: seq<Owner>
    var epoch: map<Name, nat>

    ghost function Value(): Table
      reads this
    {
      Table(slots, bits, num, importing, migrating, epoch)
    }

    ghost predicate Valid()
      reads this
    {
      Agree(Value()) && me in bits
    }

    constructor (self: Name)
      ensures Valid() && me == self && bits == map[self := {}]
      ensures Closed(slots) && Closed(importing) && Closed(migrating)
    {
      me := self;
      slots := seq(SLOTS, _ => NoOne);
      importing := seq(SLOTS, _ => NoOne);
      migrating := seq(SLOTS, _ => NoOne);
      bits := map[self := {}];
      num := map[self := 0];
      epoch := map[self := 0];
    }

    /** clusterAddSlot: fails on an assigned slot. */
    method AddSlot(n: Name, j: nat) returns (ok: bool)
      requires Valid() && n in bits && j < SLOTS
      modifies `slots, `bits, `num
      ensures Valid() && bits.Keys == old(bits.Keys)
      ensures ok == old(slots[j] == NoOne)
      ensures slots == if ok then old(slots)[j := Node(n)] else old(slots)
    {
      if slots[j].Node? {
        return false;
      }
      BindAgrees(Value(), n, j);
      if j !in bits[n] {
        num := num[n := num[n] + 1];
      }
      bits := bits[n := bits[n] + {j}];
      slots := slots[j := Node(n)];
      return true;
    }

    /** clusterDelSlot; the assertion on the cleared bit holds. */
    method DelSlot(j: nat) returns (ok: bool)
      requires Valid() && j < SLOTS
      modifies `slots, `bits, `num
      ensures Valid() && bits.Keys == old(bits.Keys)
      ensures ok == old(slots[j].Node?)
      ensures slots == old(slots)[j := NoOne] && slots[j] == NoOne
    {
      if slots[j] == NoOne {
        return false;
      }
      UnbindAgrees(Value(), j);
      var n := slots[j].name;
      var was := j in bits[n];
      if was {
        num := num[n := num[n] - 1];
      }
      bits := bits[n := bits[n] - {j}];
      assert was;
      slots := slots[j := NoOne];
      return true;
    }

    /** A slot changes hands: clusterDelSlot, then clusterAddSlot. */
    method Rebind(n: Name, j: nat)
      requires Valid() && n in bits && j < SLOTS
      modifies `slots, `bits, `num
      ensures Valid() && bits.Keys == old(bits.Keys) && slots == old(slots)[j := Node(n)]
    {
      SetTwice(slots, j, NoOne, Node(n));
      var gone := DelSlot(j);
      var bound := AddSlot(n, j);
      assert bound;
    }

    /** clusterDelNodeSlots. */
    method DelNodeSlots(n: Name) returns (deleted: nat)
      requires Valid() && n in bits
      modifies `slots, `bits, `num
      ensures Valid() && bits.Keys == old(bits.Keys) && bits[n] == {}
      ensures slots == Moved(old(slots), n, NoOne)
      ensures deleted == old(num[n])
    {
      ghost var was := slots;
      ghost var target := Moved(slots, n, NoOne);
      deleted := 0;
      for j := 0 to |slots|
        invariant Valid() && bits.Keys == old(bits.Keys)
        invariant slots == Scanned(was, target, j)
        invariant deleted + num[n] == old(num[n])
      {
        ScanStep(was, target, j);
        ghost var before := Value();
        if j in bits[n] {
          var ok := DelSlot(j);
          OneFewer(before, Value(), n, j);
          deleted := deleted + 1;
        }
      }
      MovedAway(was, n, NoOne);
    }

    /** clusterDelNode: no pointer to the node is left behind. */
    method DelNode(n: Name)
      requires Valid() && n in bits && n != me
      modifies this
      ensures Valid() && bits.Keys == old(bits.Keys) - {n}
      ensures slots == Moved(old(slots), n, NoOne)
      ensures importing == Moved(old(importing), n, NoOne) && migrating == Moved(old(migrating), n, NoOne)
      ensures epoch == old(epoch) - {n}
    {
      ghost var was := Value();
      ReleaseAll(n);
      NoneLeft(was.slots, n);
      NoneLeft(was.importing, n);
      NoneLeft(was.migrating, n);
      DropNode(n);
    }

    method ReleaseAll(n: Name)
      requires Valid() && n in bits
      modifies `slots, `bits, `num, `importing, `migrating
      ensures Valid() && bits.Keys == old(bits.Keys)
      ensures slots == Moved(old(slots), n, NoOne)
      ensures importing == Moved(old(importing), n, NoOne) && migrating == Moved(old(migrating), n, NoOne)
    {
      ghost var was := Value();
      ghost var target, from, to := Moved(slots, n, NoOne), Moved(importing, n, NoOne), Moved(migrating, n, NoOne);
      ScanDone(was.slots, target);
      ScanDone(was.importing, from);
      ScanDone(was.migrating, to);
      for j := 0 to |slots|
        invariant Valid() && bits.Keys == was.bits.Keys
        invariant slots == Scanned(was.slots, target, j)
        invariant importing == Scanned(was.importing, from, j)
        invariant migrating == Scanned(was.migrating, to, j)
      {
        ScanStep(was.slots, target, j);
        ScanStep(was.importing, from, j);
        ScanStep(was.migrating, to, j);
        ReleaseSlot(n, j);
      }
    }

    method ReleaseSlot(n: Name, j: nat)
      requires Valid() && j < SLOTS
      modifies `slots, `bits, `num, `importing, `migrating
      ensures Valid() && bits.Keys == old(bits.Keys)
      ensures slots == old(slots)[j := if old(slots[j]) == Node(n) then NoOne else old(slots[j])]
      ensures importing == old(importing)[j := if old(importing[j]) == Node(n) then NoOne else old(importing[j])]
      ensures migrating == old(migrating)[j := if old(migrating[j]) == Node(n) then NoOne else old(migrating[j])]
    {
      CloseSlot(n, j);
      if slots[j] == Node(n) {
        var ok := DelSlot(j);
      }
    }

    method CloseSlot(n: Name, j: nat)
      requires Valid() && j < SLOTS
      modifies `importing, `migrating
      ensures Valid()
      ensures importing == old(importing)[j := if old(importing[j]) == Node(n) then NoOne else old(importing[j])]
      ensures migrating == old(migrating)[j := if old(migrating[j]) == Node(n) then NoOne else old(migrating[j])]
    {
      if importing[j] == Node(n) {
        importing := importing[j := NoOne];
      }
      if migrating[j] == Node(n) {
        migrating := migrating[j := NoOne];
      }
    }

    /** freeClusterNode, for a node nothing points to any more. */
    method DropNode(n: Name)
      requires Valid() && n in bits && n != me
      requires Node(n) !in slots && Node(n) !in importing && Node(n) !in migrating
      modifies `bits, `num, `epoch
      ensures Valid() && bits.Keys == old(bits.Keys) - {n} && epoch == old(epoch) - {n}
    {
      DropAgrees(Value(), n);
      bits, num, epoch := bits - {n}, num - {n}, epoch - {n};
    }

    /** clusterUpdateSlotsConfigWith. `master` is this node or the master it
        replicates; `keys` are the slots that hold keys here. Returns the slots
        whose keys must go and whether this node must follow the sender. */
    method UpdateSlots(sender: Name, senderEpoch: nat, claim: set<nat>, master: Name, keys: set<nat>)
      returns (dirty: set<nat>, follow: bool)
      requires Valid() && sender in bits && master in bits
      modifies `slots, `bits, `num
      ensures Valid() && bits.Keys == old(bits.Keys)
      ensures slots == if sender == me then old(slots) else Claimed(old(Value()), sender, senderEpoch, claim)
      ensures dirty == DirtyBelow(old(slots), slots, me, keys, |slots|)
      ensures follow <==> old(bits[master]) != {} && bits[master] == {}
    {
      dirty, follow := {}, false;
      if sender == me {
        NothingLost(slots, me, keys);
        return;
      }
      var newMaster;
      ghost var was := slots;
      BitmapIsHeld(Value(), master);
      dirty, newMaster := RebindClaimed(sender, senderEpoch, claim, master, keys);
      follow := newMaster && num[master] == 0;
      BitmapIsHeld(Value(), master);
      FollowMeaning(was, slots, master);
    }

    method RebindClaimed(sender: Name, senderEpoch: nat, claim: set<nat>, master: Name, keys: set<nat>)
      returns (dirty: set<nat>, newMaster: bool)
      requires Valid() && sender in bits
      modifies `slots, `bits, `num
      ensures Valid() && bits.Keys == old(bits.Keys)
      ensures slots == Claimed(old(Value()), sender, senderEpoch, claim)
      ensures dirty == DirtyBelow(old(slots), slots, me, keys, |slots|)
      ensures newMaster == LosesBelow(old(slots), slots, master, |slots|)
    {
      dirty, newMaster := {}, false;
      ghost var was := Value();
      ghost var target := Claimed(was, sender, senderEpoch, claim);
      ScanDone(was.slots, target);
      for j := 0 to |slots|
        invariant Valid() && bits.Keys == was.bits.Keys
        invariant importing == was.importing && epoch == was.epoch
        invariant slots == Scanned(was.slots, target, j)
        invariant dirty == DirtyBelow(was.slots, target, me, keys, j)
        invariant newMaster == LosesBelow(was.slots, target, master, j)
      {
        ScanStep(was.slots, target, j);
        LostToSender(was, sender, senderEpoch, claim, j, me);
        LostToSender(was, sender, senderEpoch, claim, j, master);
        DirtyStep(was.slots, target, me, keys, j);
        LosesStep(was.slots, target, master, j);
        var mine, masters := UpdateSlot(sender, senderEpoch, claim, master, j);
        dirty := dirty + if mine && j in keys then {j} else {};
        newMaster := newMaster || masters;
      }
    }

    /** One round of the scan: whether the slot is taken from this node, from its master. */
    method UpdateSlot(sender: Name, senderEpoch: nat, claim: set<nat>, master: Name, j: nat)
      returns (mine: bool, masters: bool)
      requires Valid() && sender in bits && j < SLOTS
      modifies `slots, `bits, `num
      ensures Valid() && bits.Keys == old(bits.Keys)
      ensures var taken := j in claim && importing[j] == NoOne && Stronger(old(slots[j]), epoch, sender, senderEpoch);
              && slots == old(slots)[j := if taken then Node(sender) else old(slots[j])]
              && mine == (taken && old(slots[j]) == Node(me)) && masters == (taken && old(slots[j]) == Node(master))
    {
      mine, masters := false, false;
      if j in claim && slots[j] != Node(sender) && importing[j] == NoOne {
        if slots[j] == NoOne || epoch[slots[j].name] < senderEpoch {
          mine, masters := slots[j] == Node(me), slots[j] == Node(master);
          Rebind(sender, j);
        }
      }
    }

    /** The slot part of processing a ping or pong of a known master. */
    method ReceiveMessage(sender: Name, senderEpoch: nat, claim: set<nat>, master: Name, keys: set<nat>)
      returns (dirty: set<nat>, follow: bool)
      requires Valid() && sender in bits && master in bits && sender != me
      modifies this
      ensures Valid()
      ensures Value() == Receive(old(Value()), sender, senderEpoch, claim)
      ensures dirty == DirtyBelow(old(slots), slots, me, keys, |slots|)
      ensures follow <==> old(bits[master]) != {} && bits[master] == {}
    {
      dirty, follow := {}, false;
      if senderEpoch > epoch[sender] {
        epoch := epoch[sender := senderEpoch];
      }
      ghost var h := Value();
      NothingLost(slots, me, keys);
      if bits[sender] != claim {
        dirty, follow := UpdateSlots(sender, senderEpoch, claim, master, keys);
        AgreementDetermines(h, Value());
      }
    }

    /** The slot part of processing an UPDATE about a known node. */
    method ReceiveUpdate(n: Name, reported: nat, claim: set<nat>, master: Name, keys: set<nat>)
      returns (dirty: set<nat>, follow: bool)
      requires Valid() && n in bits && master in bits
      modifies this
      ensures Valid()
      ensures Value() == Updated(old(Value()), me, n, reported, claim)
      ensures dirty == DirtyBelow(old(slots), slots, me, keys, |slots|)
      ensures follow <==> old(bits[master]) != {} && bits[master] == {}
    {
      dirty, follow := {}, false;
      NothingLost(slots, me, keys);
      if epoch[n] >= reported {
        return;
      }
      epoch := epoch[n := reported];
      ghost var h := Value();
      dirty, follow := UpdateSlots(n, reported, claim, master, keys);
      AgreementDetermines(h, Value());
      AgreementDetermines(h, h);
    }

    /** The slot part of clusterSetMaster, for a node without slots that was a
        master: nothing is migrated or imported any more. */
    method SetMaster()
      requires Valid() && num[me] == 0
      modifies `importing, `migrating
      ensures Valid() && Node(me) !in slots && Closed(importing) && Closed(migrating)
    {
      BitmapIsHeld(Value(), me);
      NotHeld(slots, me);
      CloseAll();
    }

    /** The slot part of verifyClusterConfigWithData. */
    method VerifyWithData(keys: set<nat>)
      requires Valid()
      modifies `slots, `bits, `num, `importing
      ensures Valid() && bits.Keys == old(bits.Keys)
      ensures slots == Adopted(old(Value()), me, keys) && importing == Imported(old(Value()), me, keys)
    {
      ghost var was := Value();
      ghost var target, from := Adopted(was, me, keys), Imported(was, me, keys);
      ScanDone(was.slots, target);
      ScanDone(was.importing, from);
      for j := 0 to |slots|
        invariant Valid() && bits.Keys == was.bits.Keys
        invariant slots == Scanned(was.slots, target, j)
        invariant importing == Scanned(was.importing, from, j)
      {
        ScanStep(was.slots, target, j);
        ScanStep(was.importing, from, j);
        if j in keys && slots[j] != Node(me) && importing[j] == NoOne {
          Adopt(j);
        }
      }
    }

    method Adopt(j: nat)
      requires Valid() && j < SLOTS && importing[j] == NoOne
      modifies `slots, `bits, `num, `importing
      ensures Valid() && bits.Keys == old(bits.Keys)
      ensures slots == if old(slots[j]) == NoOne then old(slots)[j := Node(me)] else old(slots)
      ensures importing == old(importing)[j := old(slots[j])]
    {
      if slots[j] == NoOne {
        var ok := AddSlot(me, j);
      } else {
        importing := importing[j := slots[j]];
      }
    }

    /** The slot part of clusterFailoverReplaceYourMaster. */
    method ReplaceMaster(oldMaster: Name)
      requires Valid() && oldMaster in bits && oldMaster != me
      modifies `slots, `bits, `num
      ensures Valid() && bits.Keys == old(bits.Keys)
      ensures slots == Moved(old(slots), oldMaster, Node(me))
    {
      ghost var was := slots;
      ghost var target := Moved(slots, oldMaster, Node(me));
      for j := 0 to |slots|
        invariant Valid() && bits.Keys == old(bits.Keys)
        invariant slots == Scanned(was, target, j)
      {
        ScanStep(was, target, j);
        if j in bits[oldMaster] {
          Rebind(me, j);
        }
      }
    }

    /** CLUSTER ADDSLOTS and DELSLOTS: all arguments are checked before the first
        change, and the assertion on every single change holds. */
    method ChangeSlots(args: seq<int>, del: bool) returns (ok: bool)
      requires Valid()
      modifies this
      ensures Valid() && bits.Keys == old(bits.Keys) && epoch == old(epoch) && migrating == old(migrating)
      ensures ok <==> Acceptable(old(slots), args, del)
      ensures !ok ==> slots == old(slots) && importing == old(importing)
      ensures ok ==> slots == Assigned(old(slots), set k | 0 <= k < |args| :: args[k], if del then NoOne else Node(me))
      ensures ok ==> importing == Assigned(old(importing), set k | 0 <= k < |args| :: args[k], NoOne)
    {
      var seen;
      ok, seen := CheckSlots(args, del);
      if ok {
        ApplySlots(seen, del);
      }
    }

    method ApplySlots(chosen: set<nat>, del: bool)
      requires Valid() && forall j | j in chosen :: j < SLOTS && slots[j].Node? == del
      modifies `slots, `bits, `num, `importing
      ensures Valid() && bits.Keys == old(bits.Keys)
      ensures slots == Assigned(old(slots), chosen, if del then NoOne else Node(me))
      ensures importing == Assigned(old(importing), chosen, NoOne)
    {
      ghost var was := Value();
      ghost var target := Assigned(slots, chosen, if del then NoOne else Node(me));
      ghost var closed := Assigned(importing, chosen, NoOne);
      ScanDone(was.slots, target);
      ScanDone(was.importing, closed);
      for j := 0 to |slots|
        invariant Valid() && bits.Keys == was.bits.Keys
        invariant slots == Scanned(was.slots, target, j)
        invariant importing == Scanned(was.importing, closed, j)
      {
        ScanStep(was.slots, target, j);
        ScanStep(was.importing, closed, j);
        if j in chosen {
          ChangeSlot(j, del);
        }
      }
    }

    method ChangeSlot(j: nat, del: bool)
      requires Valid() && j < SLOTS && slots[j].Node? == del
      modifies `slots, `bits, `num, `importing
      ensures Valid() && bits.Keys == old(bits.Keys)
      ensures slots == old(slots)[j := if del then NoOne else Node(me)]
      ensures importing == old(importing)[j := NoOne]
    {
      importing := importing[j := NoOne];
      var retval;
      if del {
        retval := DelSlot(j);
      } else {
        retval := AddSlot(me, j);
      }
      assert retval;
    }

    method CheckSlots(args: seq<int>, del: bool) returns (ok: bool, seen: set<nat>)
      requires |slots| == SLOTS
      ensures ok <==> Acceptable(slots, args, del)
      ensures ok ==> seen == set k | 0 <= k < |args| :: args[k]
      ensures ok ==> forall j | j in seen :: j < SLOTS && slots[j].Node? == del
    {
      seen := {};
      for i := 0 to |args|
        invariant forall x :: x in seen <==> x in args[..i]
        invariant Acceptable(slots, args[..i], del)
      {
        if !(0 <= args[i] < SLOTS) || slots[args[i]].Node? != del || args[i] in seen {
          return false, seen;
        }
        seen := seen + {args[i]};
      }
      assert args[..|args|] == args;
      ok := true;
    }

    /** CLUSTER SETSLOT <slot> NODE <n>; `bump` asks for a new configEpoch. */
    method AssignSlot(slot: nat, n: Name, keys: nat) returns (ok: bool, bump: bool)
      requires Valid() && slot < SLOTS
      modifies `slots, `bits, `num, `importing, `migrating
      ensures Valid() && bits.Keys == old(bits.Keys)
      ensures ok <==> n in bits && !(old(slots[slot]) == Node(me) && n != me && keys != 0)
      ensures slots == if ok then old(slots)[slot := Node(n)] else old(slots)
      ensures bump <==> ok && n == me && old(importing[slot]).Node?
      ensures importing == if bump then old(importing)[slot := NoOne] else old(importing)
      ensures migrating == if ok && keys == 0 then old(migrating)[slot := NoOne] else old(migrating)
    {
      ok, bump := false, false;
      if n !in bits || (slots[slot] == Node(me) && n != me && keys != 0) {
        return;
      }
      bump := ClearMarks(slot, n, keys);
      Rebind(n, slot);
      ok := true;
    }

    method ClearMarks(slot: nat, n: Name, keys: nat) returns (bump: bool)
      requires Valid() && slot < SLOTS
      modifies `importing, `migrating
      ensures Valid() && bump == (n == me && old(importing[slot]).Node?)
      ensures importing == if bump then old(importing)[slot := NoOne] else old(importing)
      ensures migrating == if keys == 0 then old(migrating)[slot := NoOne] else old(migrating)
    {
      bump := false;
      if keys == 0 {
        migrating := migrating[slot := NoOne];
      }
      if n == me && importing[slot].Node? {
        bump := true;
        importing := importing[slot := NoOne];
      }
    }

    /** The slot part of clusterReset. */
    method Reset()
      requires Valid()
      modifies this
      ensures Valid() && bits.Keys == {me}
      ensures Closed(slots) && Closed(importing) && Closed(migrating)
    {
      CloseAll();
      DelAllSlots();
      ForgetOthers();
    }

    method ForgetOthers()
      requires Valid() && Closed(slots) && Closed(importing) && Closed(migrating)
      modifies this
      ensures Valid() && bits.Keys == {me} && Closed(slots) && Closed(importing) && Closed(migrating)
    {
      var others := bits.Keys - {me};
      while others != {}
        invariant Valid() && others == bits.Keys - {me}
        invariant Closed(slots) && Closed(importing) && Closed(migrating)
        decreases others
      {
        ghost var some := Member(others);
        var n :| n in others;
        NothingToMove(slots, n);
        NothingToMove(importing, n);
        NothingToMove(migrating, n);
        DelNode(n);
        others := others - {n};
      }
      assert bits.Keys <= {me};
    }

    method DelAllSlots()
      requires Valid()
      modifies `slots, `bits, `num
      ensures Valid() && bits.Keys == old(bits.Keys) && Closed(slots)
    {
      for j := 0 to |slots|
        invariant Valid() && bits.Keys == old(bits.Keys)
        invariant forall k | 0 <= k < j :: slots[k] == NoOne
      {
        var ok := DelSlot(j);
      }
    }

    /** clusterCloseAllSlots. */
    method CloseAll()
      requires Valid()
      modifies `importing, `migrating
      ensures Valid() && Closed(importing) && Closed(migrating)
    {
      importing, migrating := seq(SLOTS, _ => NoOne), seq(SLOTS, _ => NoOne);
    }

    /** Whatever is asked of the node, in any order: the table and the bitmaps
        agree after every command, and no assertion on the way fails. */
    method Serve(commands: seq<Command>)
      requires Valid()
      modifies this
      ensures Valid()
    {
      for i := 0 to |commands|
        invariant Valid()
      {
        Execute(commands[i]);
      }
    }

    method Execute(command: Command)
      requires Valid()
      modifies this
      ensures Valid()
    {
      match command
      case Meet(n) =>
        if n !in bits {
          Introduce(n);
        }
      case Forget(n) =>
        if n in bits && n != me {
          DelNode(n);
        }
      case AddSlots(args) => var r := ChangeSlots(args, false);
      case DelSlots(args) => var r := ChangeSlots(args, true);
      case SetSlotNode(slot, n, keys) =>
        if slot < SLOTS {
          var ok, bump := AssignSlot(slot, n, keys);
        }
      case SetSlotImporting(slot, n) =>
        if slot < SLOTS && slots[slot] != Node(me) && n in bits {
          importing := importing[slot := Node(n)];
        }
      case SetSlotMigrating(slot, n) =>
        if slot < SLOTS && slots[slot] == Node(me) && n in bits {
          migrating := migrating[slot := Node(n)];
        }
      case SetSlotStable(slot) =>
        if slot < SLOTS {
          importing, migrating := importing[slot := NoOne], migrating[slot := NoOne];
        }
      case FlushSlots => var r := DelNodeSlots(me);
      case Failover(oldMaster) =>
        if oldMaster in bits && oldMaster != me {
          ReplaceMaster(oldMaster);
        }
      case Arrive(packet) => Process(packet);
      case Replicate(n) =>
        if n in bits && n != me && num[me] == 0 {
          SetMaster();
        }
      case VerifyData(keys) => VerifyWithData(keys);
      case SoftReset => Reset();
    }

    method Process(packet: Packet)
      requires Valid()
      modifies this
      ensures Valid()
    {
      match packet
      case Message(sender, e, claim, master, keys) =>
        if sender in bits && sender != me && master in bits {
          var dirty, follow := ReceiveMessage(sender, e, claim, master, keys);
          FollowIfLeft(master, follow);
        }
      case Demote(n) =>
        if n in bits {
          var deleted := DelNodeSlots(n);
        }
      case Update(n, e, claim, master, keys) =>
        if n in bits && master in bits {
          var dirty, follow := ReceiveUpdate(n, e, claim, master, keys);
          FollowIfLeft(master, follow);
        }
    }

    /** A master that lost its last slot follows the node that took it; the
        assertion that it has no slots holds. */
    method FollowIfLeft(master: Name, follow: bool)
      requires Valid() && master in bits && (follow ==> bits[master] == {})
      modifies `importing, `migrating
      ensures Valid()
    {
      if follow && master == me {
        assert num[me] == 0;
        SetMaster();
      }
    }

    /** A node that is met starts without slots. */
    method Introduce(n: Name)
      requires Valid() && n !in bits
      modifies `bits, `num, `epoch
      ensures Valid() && bits == old(bits)[n := {}]
    {
      bits, num, epoch := bits[n := {}], num[n := 0], epoch[n := 0];
      assert Held(slots, n) == {};
    }
  }

  lemma {:induction false} NotHeld(slots: seq<Owner>, n: Name)
    requires |Held(slots, n)| == 0
    ensures Node(n) !in slots
  {
    assert forall j | 0 <= j < |slots| && slots[j] == Node(n) :: j in Held(slots, n);
  }

  /** A node that lost slots and has none left is exactly one that had some and has none. */
  lemma {:induction false} FollowMeaning(was: seq<Owner>, now: seq<Owner>, n: Name)
    requires |was| == |now|
    ensures (LosesBelow(was, now, n, |was|) && |Held(now, n)| == 0) <==> (Held(was, n) != {} && Held(now, n) == {})
  {
    if Held(now, n) == {} {
      assert forall k | 0 <= k < |now| && now[k] == Node(n) :: k in Held(now, n);
      assert forall k: nat | k < |was| :: k in Held(was, n) <==> Lost(was, now, n, k);
      if Held(was, n) != {} {
        var k := Member(Held(was, n));
      }
    }
  }

  lemma {:induction false} SetTwice(slots: seq<Owner>, j: nat, a: Owner, b: Owner)
    requires j < |slots|
    ensures slots[j := a][j := b] == slots[j := b]
  {
  }

  lemma {:induction false} OneFewer(t: Table, u: Table, n: Name, j: nat)
    requires Agree(t) && Agree(u) && n in t.bits && n in u.bits && j in t.bits[n]
    requires u.slots == t.slots[j := NoOne]
    ensures u.num[n] == t.num[n] - 1
  {
    assert u.bits[n] == t.bits[n] - {j};
  }

  lemma {:induction false} NothingToMove(slots: seq<Owner>, n: Name)
    requires Closed(slots)
    ensures Moved(slots, n, NoOne) == slots
  {
    assert forall j | 0 <= j < |slots| :: Moved(slots, n, NoOne)[j] == slots[j];
  }

  lemma {:induction false} NoneLeft(slots: seq<Owner>, n: Name)
    ensures Node(n) !in Moved(slots, n, NoOne)
  {
  }

  lemma {:induction false} MovedAway(slots: seq<Owner>, n: Name, to: Owner)
    requires to != Node(n)
    ensures Held(Moved(slots, n, to), n) == {}
  {
    assert forall j | 0 <= j < |slots| :: Moved(slots, n, to)[j] != Node(n);
  }
}
