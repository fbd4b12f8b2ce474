/** The replicated list of t_rwflist.c. An element is named by its oid; an insert
    carries the identifier its issuer gave the element, and a replica that has
    the element already keeps the identifier it knows. Every replica sorts its
    chain by identifier as the inserts arrive. */
module ReplicatedList {
  import opened Collections
  import opened ListPosition

  type Oid = string

  datatype Item = Item(oid: Oid, id: Leid)

  /** RWFLINSERT as it is broadcast: the element, the one it was put behind (None
      at the head, and for an element that is added again), the identifier. */
  datatype Message = Message(oid: Oid, pre: Option<Oid>, id: Leid)

  /** Where the client wants the element. */
  datatype Where = AtHead | Behind(x: Oid) | Readd

  // ----------------------------------------------------------------- effect

  function Find(chain: seq<Item>, oid: Oid): (r: Option<nat>)
    ensures match r
            case None => forall i | 0 <= i < |chain| :: chain[i].oid != oid
            case Some(k) => k < |chain| && chain[k].oid == oid
  {
    if chain == [] then None
    else if chain[|chain| - 1].oid == oid then Some(|chain| - 1)
    else Find(chain[..|chain| - 1], oid)
  }

  predicate Knows(chain: seq<Item>, oid: Oid) {
    Find(chain, oid).Some?
  }

  /** The walk from q on passes everything smaller than the new identifier. */
  ghost function Walk(chain: seq<Item>, q: nat, id: Leid): (r: nat)
    requires q <= |chain|
    ensures q <= r <= |chain|
    ensures forall i | q <= i < r :: Less(chain[i].id, id)
    ensures r < |chain| ==> !Less(chain[r].id, id)
    decreases |chain| - q
  {
    if q == |chain| || !Less(chain[q].id, id) then q else Walk(chain, q + 1, id)
  }

  /** Where the walk starts: at the predecessor if it is here, at the head otherwise. */
  function Origin(chain: seq<Item>, pre: Option<Oid>): (p: nat)
    requires chain != []
    ensures p < |chain|
  {
    if pre.Some? && Find(chain, pre.value).Some? then Find(chain, pre.value).value else 0
  }

  ghost function Place(chain: seq<Item>, pre: Option<Oid>, id: Leid): (at: nat)
    ensures at <= |chain|
  {
    if chain == [] || Less(id, chain[0].id) then 0 else Walk(chain, Origin(chain, pre) + 1, id)
  }

  ghost function Effect(chain: seq<Item>, m: Message): seq<Item> {
    if Knows(chain, m.oid) then chain
    else Put(chain, Place(chain, m.pre, m.id), Item(m.oid, m.id))
  }

  function Put(chain: seq<Item>, at: nat, e: Item): seq<Item>
    requires at <= |chain|
  {
    chain[..at] + [e] + chain[at..]
  }

  /** The chain after the messages arrived in the given order. */
  ghost function Deliver(ms: seq<Message>): seq<Item> {
    if ms == [] then [] else Effect(Deliver(ms[..|ms| - 1]), ms[|ms| - 1])
  }

  // ---------------------------------------------------------------- prepare

  function IdAt(chain: seq<Item>, k: nat): Option<Leid> {
    if k < |chain| then Some(chain[k].id) else None
  }

  /** The identifier for a new element: between the one it is put behind and the
      next, or in front of the head. */
  function NewId(chain: seq<Item>, at: Where, me: nat, count: int, rand: nat): Leid {
    if at.Behind? && Knows(chain, at.x) then
      var k := Find(chain, at.x).value;
      Construct(IdAt(chain, k), IdAt(chain, k + 1), me, count, rand)
    else Construct(None, IdAt(chain, 0), me, count, rand)
  }

  /** What an insert broadcasts; None is an error reply. An element that is known
      can only be added again, and then keeps its identifier. */
  function Issue(chain: seq<Item>, oid: Oid, at: Where, me: nat, count: int, rand: nat): Option<Message> {
    if at.Behind? && !Knows(chain, at.x) then None
    else if Knows(chain, oid) != at.Readd? then None
    else if at.Readd? then Some(Message(oid, None, chain[Find(chain, oid).value].id))
    else Some(Message(oid, if at.Behind? then Some(at.x) else None, NewId(chain, at, me, count, rand)))
  }

  // -------------------------------------------------------- the C structures

  class ListReplica {
    const me: nat
    var chain: seq<Item>
    var clock: seq<int>

    constructor (me: nat, size: nat)
      ensures this.me == me && chain == [] && clock == seq(size, _ => 0)
    {
      this.me, chain, clock := me, [], seq(size, _ => 0);
    }

    /** The list part of the effect of RWFLINSERT. */
    method Apply(m: Message)
      modifies `chain
      ensures chain == Effect(old(chain), m)
    {
      if Find(chain, m.oid).Some? {
        return;
      }
      var e := Item(m.oid, m.id);
      if chain == [] {
        chain := [e];
        return;
      }
      var c := LeidCmp(m.id, chain[0].id);
      if c < 0 {
        chain := [e] + chain;
        return;
      }
      var p := Origin(chain, m.pre);
      var q := p + 1;
      while q < |chain|
        invariant p < q <= |chain| && chain == old(chain) && Walk(chain, p + 1, m.id) == Walk(chain, q, m.id)
      {
        c := LeidCmp(m.id, chain[q].id);
        if c <= 0 {
          break;
        }
        q := q + 1;
      }
      chain := chain[..q] + [e] + chain[q..];
    }

    /** The list part of the prepare phase of RWFLINSERT. `present` are the oids
        whose header says that the element exists. */
    method Prepare(oid: Oid, at: Where, present: set<Oid>, rand: nat) returns (m: Option<Message>)
      requires me < |clock|
      modifies `clock
      ensures var refused := oid in present || (at.Behind? && at.x !in present);
              m == if refused then None else Issue(chain, oid, at, me, Sum(old(clock)), rand)
      ensures clock == if m.Some? && !at.Readd? then old(clock)[me := old(clock)[me] + 1] else old(clock)
    {
      if at.Behind? && (at.x !in present || Find(chain, at.x).None?) {
        return None;
      }
      if oid in present {
        return None;
      }
      var e := Find(chain, oid);
      if e.None? {
        if at.Readd? {
          return None;
        }
        var left, right := None, IdAt(chain, 0);
        if at.Behind? {
          var k := Find(chain, at.x).value;
          left, right := IdAt(chain, k), IdAt(chain, k + 1);
        }
        var id := ConstructLeid(left, right, clock, me, rand);
        clock := clock[me := clock[me] + 1];
        return Some(Message(oid, if at.Behind? then Some(at.x) else None, id));
      }
      if !at.Readd? {
        return None;
      }
      return Some(Message(oid, None, chain[e.value].id));
    }
  }

  // -------------------------------------------------------------- one insert

  ghost predicate Sorted(chain: seq<Item>) {
    forall i, j | 0 <= i < j < |chain| :: Less(chain[i].id, chain[j].id)
  }

  predicate HasId(chain: seq<Item>, id: Leid) {
    exists i :: 0 <= i < |chain| && chain[i].id == id
  }

  lemma {:induction false} InsertedAt(chain: seq<Item>, at: nat, e: Item)
    requires Sorted(chain) && at <= |chain|
    ensures Sorted(Put(chain, at, e))
            <==> (at > 0 ==> Less(chain[at - 1].id, e.id)) && (at < |chain| ==> Less(e.id, chain[at].id))
  {
    var r := Put(chain, at, e);
    assert r[at] == e;
    assert at > 0 ==> r[at - 1] == chain[at - 1];
    assert at < |chain| ==> r[at + 1] == chain[at];
    if (at > 0 ==> Less(chain[at - 1].id, e.id)) && (at < |chain| ==> Less(e.id, chain[at].id)) {
      forall i, j | 0 <= i < j < |r| ensures Less(r[i].id, r[j].id) {
        if j == at && i < at - 1 {
          LessTransitive(chain[i].id, chain[at - 1].id, e.id);
        } else if i == at && j > at + 1 {
          LessTransitive(e.id, chain[at].id, chain[j - 1].id);
        }
      }
    }
  }

  /** The predecessor is here under an identifier that is not smaller than the new one. */
  ghost predicate Misplaced(chain: seq<Item>, m: Message) {
    && chain != [] && !Less(m.id, chain[0].id)
    && m.pre.Some? && Knows(chain, m.pre.value) && !Less(chain[Find(chain, m.pre.value).value].id, m.id)
  }

  /** A new element keeps the chain sorted exactly when it is not misplaced. */
  lemma {:induction false} SortedUnlessMisplaced(chain: seq<Item>, m: Message)
    requires Sorted(chain) && !Knows(chain, m.oid) && !HasId(chain, m.id)
    ensures Sorted(Effect(chain, m)) <==> !Misplaced(chain, m)
  {
    if chain == [] || Less(m.id, chain[0].id) {
      AtFront(chain, m);
    } else {
      AtWalk(chain, m);
      OriginTells(chain, m);
      WalkedIn(chain, Origin(chain, m.pre), Item(m.oid, m.id));
    }
  }

  lemma {:induction false} AtFront(chain: seq<Item>, m: Message)
    requires Sorted(chain) && !Knows(chain, m.oid) && (chain == [] || Less(m.id, chain[0].id))
    ensures Sorted(Effect(chain, m)) && !Misplaced(chain, m)
  {
    InsertedAt(chain, 0, Item(m.oid, m.id));
  }

  lemma {:induction false} AtWalk(chain: seq<Item>, m: Message)
    requires !Knows(chain, m.oid) && chain != [] && !Less(m.id, chain[0].id)
    ensures Effect(chain, m) == Put(chain, Walk(chain, Origin(chain, m.pre) + 1, m.id), Item(m.oid, m.id))
  {
  }

  /** Put where the walk from p ends. */
  lemma {:induction false} WalkedIn(chain: seq<Item>, p: nat, e: Item)
    requires Sorted(chain) && p < |chain| && !HasId(chain, e.id)
    ensures Sorted(Put(chain, Walk(chain, p + 1, e.id), e)) <==> Less(chain[p].id, e.id)
  {
    var at := Walk(chain, p + 1, e.id);
    WalkEnds(chain, p, e.id);
    WalkStops(chain, p + 1, e.id);
    InsertedAt(chain, at, e);
  }

  lemma {:induction false} WalkStops(chain: seq<Item>, q: nat, id: Leid)
    requires q <= |chain| && !HasId(chain, id)
    ensures var at := Walk(chain, q, id); at < |chain| ==> Less(id, chain[at].id)
  {
    var at := Walk(chain, q, id);
    if at < |chain| {
      LessTotal(id, chain[at].id);
    }
  }

  /** A walk ends behind something smaller exactly when it starts at something smaller. */
  lemma {:induction false} WalkEnds(chain: seq<Item>, p: nat, id: Leid)
    requires Sorted(chain) && p < |chain|
    ensures Less(chain[Walk(chain, p + 1, id) - 1].id, id) <==> Less(chain[p].id, id)
  {
    var at := Walk(chain, p + 1, id);
    if at > p + 1 {
      LessTransitive(chain[p].id, chain[at - 1].id, id);
    }
  }

  lemma {:induction false} OriginTells(chain: seq<Item>, m: Message)
    requires chain != [] && !Less(m.id, chain[0].id) && !HasId(chain, m.id)
    ensures Less(chain[Origin(chain, m.pre)].id, m.id) <==> !Misplaced(chain, m)
  {
    LessTotal(m.id, chain[0].id);
  }

  /** Where a local insert lands: right behind its predecessor unless the
      successor is squeezed, in which case it lands further right. */
  lemma {:induction false} LandsBehindPredecessor(chain: seq<Item>, m: Message, me: nat, count: nat, rand: nat)
    requires Sorted(chain) && (forall i | 0 <= i < |chain| :: Valid(chain[i].id))
    requires m.pre.Some? && Knows(chain, m.pre.value) && Find(chain, m.pre.value).value + 1 < |chain|
    requires m.id == NewId(chain, Behind(m.pre.value), me, count, rand)
    ensures var k := Find(chain, m.pre.value).value;
            Place(chain, m.pre, m.id) == k + 1 <==> !Squeezed(IdAt(chain, k), IdAt(chain, k + 1))
  {
    var k := Find(chain, m.pre.value).value;
    var p, q := chain[k].id, chain[k + 1].id;
    assert Less(p, q);
    BetweenNeighbours(p, q, m.id, me, count, rand);
    BehindHead(chain, k, m.id);
    assert Origin(chain, m.pre) == k;
  }

  lemma {:induction false} BetweenNeighbours(p: Leid, q: Leid, e: Leid, me: nat, count: nat, rand: nat)
    requires Less(p, q) && Valid(p) && Valid(q) && e == Construct(Some(p), Some(q), me, count, rand)
    ensures Less(p, e) && (Less(q, e) <==> Squeezed(Some(p), Some(q)))
  {
    LeftOfRight(Some(p), q, me, count, rand);
    RightOfLeft(p, Some(q), me, count, rand);
  }

  lemma {:induction false} BehindHead(chain: seq<Item>, k: nat, id: Leid)
    requires Sorted(chain) && k < |chain| && Less(chain[k].id, id)
    ensures !Less(id, chain[0].id)
  {
    if k > 0 {
      LessTransitive(chain[0].id, chain[k].id, id);
    }
    LessAsymmetric(chain[0].id, id);
  }
}
