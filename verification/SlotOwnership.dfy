/** Convergence of slot ownership: what a node that hears the headers of all
    masters, in any order and with any repetition, ends up believing. */
module SlotOwnership {
  import opened ClusterSlots

  /** What a master claims: the configEpoch and the slots of its headers. */
  datatype Claim = Claim(epoch: nat, slots: set<nat>)

  /** An observer knows the masters, has no slots, imports none, and has not
      heard anything yet. */
  ghost predicate Blank(t: Table, claims: map<Name, Claim>) {
    && Agree(t) && Closed(t.slots) && Closed(t.importing) && claims.Keys <= t.bits.Keys
    && (forall n | n in claims :: t.epoch[n] <= claims[n].epoch)
  }

  predicate DistinctEpochs(claims: map<Name, Claim>) {
    forall n, m | n in claims && m in claims && n != m :: claims[n].epoch != claims[m].epoch
  }

  /** Headers arrive in the order of `senders`, with any repetition. */
  ghost function Observe(t: Table, claims: map<Name, Claim>, senders: seq<Name>): (r: Table)
    requires Agree(t) && claims.Keys <= t.bits.Keys && (forall n | n in senders :: n in claims)
    ensures Agree(r) && |r.slots| == SLOTS && r.bits.Keys == t.bits.Keys && r.importing == t.importing
  {
    if senders == [] then t
    else
      var last := senders[|senders| - 1];
      var before := Observe(t, claims, senders[..|senders| - 1]);
      ReceiveAgrees(before, last, claims[last].epoch, claims[last].slots);
      Receive(before, last, claims[last].epoch, claims[last].slots)
  }

  lemma {:induction false} ReceiveAgrees(t: Table, sender: Name, epoch: nat, claim: set<nat>)
    requires Agree(t) && sender in t.bits
    ensures var r := Receive(t, sender, epoch, claim);
            Agree(r) && r.bits.Keys == t.bits.Keys && r.importing == t.importing
    ensures Receive(t, sender, epoch, claim).slots == Claimed(Heard(t, sender, epoch), sender, epoch, claim)
  {
    var h := Heard(t, sender, epoch);
    HeardAgrees(t, sender, epoch);
    if h.bits[sender] == claim {
      SkipIsSafe(h, sender, epoch, claim);
    } else {
      ReboundAgrees(h, Claimed(h, sender, epoch, claim));
    }
  }

  lemma {:induction false} HeardAgrees(t: Table, sender: Name, epoch: nat)
    requires Agree(t) && sender in t.bits
    ensures Agree(Heard(t, sender, epoch))
  {
  }

  lemma {:induction false} ReboundAgrees(t: Table, owners: seq<Owner>)
    requires Agree(t) && Points(owners, t.bits.Keys)
    ensures Agree(Rebound(t, owners))
  {
  }

  /** n is the claimer of slot j with the greatest epoch among `heard`. */
  ghost predicate Greatest(claims: map<Name, Claim>, heard: set<Name>, j: nat, n: Name) {
    && n in heard && n in claims && j in claims[n].slots
    && (forall m | m in heard && m in claims && j in claims[m].slots && m != n :: claims[m].epoch < claims[n].epoch)
  }

  ghost predicate Settled(t: Table, claims: map<Name, Claim>, heard: set<Name>) {
    EpochsSettled(t.epoch, claims, heard) && SlotsSettled(t.slots, claims, heard)
  }

  predicate EpochsSettled(epochs: map<Name, nat>, claims: map<Name, Claim>, heard: set<Name>) {
    && (forall n | n in heard && n in claims && n in epochs :: epochs[n] == claims[n].epoch)
    && (forall n | n in claims && n in epochs :: epochs[n] <= claims[n].epoch)
  }

  ghost predicate SlotsSettled(slots: seq<Owner>, claims: map<Name, Claim>, heard: set<Name>) {
    forall j | 0 <= j < |slots| :: SlotSettled(slots[j], claims, heard, j)
  }

  ghost predicate SlotSettled(owner: Owner, claims: map<Name, Claim>, heard: set<Name>, j: nat) {
    match owner
    case NoOne => forall m | m in heard && m in claims :: j !in claims[m].slots
    case Node(n) => Greatest(claims, heard, j, n)
  }

  lemma {:induction false} SettledStep(t: Table, claims: map<Name, Claim>, heard: set<Name>, n: Name)
    requires Agree(t) && Closed(t.importing) && claims.Keys <= t.bits.Keys && DistinctEpochs(claims)
    requires heard <= claims.Keys && n in claims && Settled(t, claims, heard)
    ensures Settled(Receive(t, n, claims[n].epoch, claims[n].slots), claims, heard + {n})
  {
    var e, claim := claims[n].epoch, claims[n].slots;
    ReceiveAgrees(t, n, e, claim);
    assert EpochsSettled(Heard(t, n, e).epoch, claims, heard + {n});
    SlotsReceived(t, claims, heard, n);
  }

  lemma {:induction false} SlotsReceived(t: Table, claims: map<Name, Claim>, heard: set<Name>, n: Name)
    requires Agree(t) && Closed(t.importing) && claims.Keys <= t.bits.Keys && DistinctEpochs(claims)
    requires heard <= claims.Keys && n in claims && Settled(t, claims, heard)
    ensures SlotsSettled(Claimed(Heard(t, n, claims[n].epoch), n, claims[n].epoch, claims[n].slots), claims, heard
            + {n})
  {
    var slots := Claimed(Heard(t, n, claims[n].epoch), n, claims[n].epoch, claims[n].slots);
    forall j | 0 <= j < |slots| ensures SlotSettled(slots[j], claims, heard + {n}, j) {
      SlotReceived(t, claims, heard, n, j);
    }
  }

  lemma {:induction false} SlotReceived(t: Table, claims: map<Name, Claim>, heard: set<Name>, n: Name, j: nat)
    requires Agree(t) && Closed(t.importing) && claims.Keys <= t.bits.Keys && DistinctEpochs(claims)
    requires heard <= claims.Keys && n in claims && Settled(t, claims, heard) && j < SLOTS
    ensures SlotSettled(Claimed(Heard(t, n, claims[n].epoch), n, claims[n].epoch, claims[n].slots)[j], claims, heard
            + {n}, j)
  {
    assert SlotSettled(t.slots[j], claims, heard, j);
    SlotStep(t.slots[j], Heard(t, n, claims[n].epoch).epoch, claims, heard, n, j);
  }

  lemma {:induction false} SlotStep(owner: Owner, epochs: map<Name, nat>, claims: map<Name, Claim>, heard: set<Name>,
                                    n: Name, j: nat)
    requires SlotSettled(owner, claims, heard, j) && n in claims && DistinctEpochs(claims)
    requires owner.Node? ==> owner.name in epochs && epochs[owner.name] == claims[owner.name].epoch
    ensures SlotSettled(if j in claims[n].slots
            && Stronger(owner, epochs, n, claims[n].epoch) then Node(n) else owner, claims, heard + {n}, j)
  {
  }

  function Senders(senders: seq<Name>): set<Name> {
    set n | n in senders
  }

  lemma {:induction false} SendersSplit(senders: seq<Name>)
    requires senders != []
    ensures Senders(senders) == Senders(senders[..|senders| - 1]) + {senders[|senders| - 1]}
  {
    assert senders == senders[..|senders| - 1] + [senders[|senders| - 1]];
  }

  lemma {:induction false} BlankSettled(t: Table, claims: map<Name, Claim>)
    requires Blank(t, claims)
    ensures Settled(t, claims, {})
  {
  }

  lemma {:induction false} ObserverSettles(t: Table, claims: map<Name, Claim>, senders: seq<Name>)
    requires Blank(t, claims) && DistinctEpochs(claims) && (forall n | n in senders :: n in claims)
    ensures Settled(Observe(t, claims, senders), claims, Senders(senders))
  {
    if senders == [] {
      BlankSettled(t, claims);
      assert Senders(senders) == {};
    } else {
      var front, last := senders[..|senders| - 1], senders[|senders| - 1];
      ObserverSettles(t, claims, front);
      SendersSplit(senders);
      SettledStep(Observe(t, claims, front), claims, Senders(front), last);
    }
  }

  /** A settled slot has one possible owner. */
  lemma {:induction false} SettledMeans(owner: Owner, claims: map<Name, Claim>, j: nat)
    requires SlotSettled(owner, claims, claims.Keys, j)
    ensures forall n :: owner == Node(n) <==> Greatest(claims, claims.Keys, j, n)
    ensures owner == NoOne <==> forall m | m in claims :: j !in claims[m].slots
  {
  }

  lemma {:induction false} ObserverSlot(t: Table, claims: map<Name, Claim>, senders: seq<Name>, j: nat)
    requires Blank(t, claims) && DistinctEpochs(claims)
    requires Senders(senders) == claims.Keys && j < SLOTS && (forall n | n in senders :: n in claims)
    ensures SlotSettled(Observe(t, claims, senders).slots[j], claims, claims.Keys, j)
  {
    ObserverSettles(t, claims, senders);
  }

  /** Whatever the order and repetition of the headers, each slot ends with the
      claimer of the greatest epoch, and stays free only if nobody claims it. */
  lemma {:induction false} OwnershipConverges(t: Table, claims: map<Name, Claim>, senders: seq<Name>, j: nat)
    requires Blank(t, claims) && DistinctEpochs(claims)
    requires Senders(senders) == claims.Keys && j < SLOTS && (forall n | n in senders :: n in claims)
    ensures var owner := Observe(t, claims, senders).slots[j];
            && (forall n :: owner == Node(n) <==> Greatest(claims, claims.Keys, j, n))
            && (owner == NoOne <==> forall m | m in claims :: j !in claims[m].slots)
  {
    ObserverSlot(t, claims, senders, j);
    SettledMeans(Observe(t, claims, senders).slots[j], claims, j);
  }

  lemma {:induction false} SettledUnique(a: Owner, b: Owner, claims: map<Name, Claim>, j: nat)
    requires SlotSettled(a, claims, claims.Keys, j) && SlotSettled(b, claims, claims.Keys, j)
    ensures a == b
  {
    if a.Node? {
      assert Greatest(claims, claims.Keys, j, a.name);
    }
  }

  lemma {:induction false} SlotsUnique(a: seq<Owner>, b: seq<Owner>, claims: map<Name, Claim>)
    requires SlotsSettled(a, claims, claims.Keys) && SlotsSettled(b, claims, claims.Keys) && |a| == |b| == SLOTS
    ensures a == b
  {
    forall j | 0 <= j < SLOTS ensures a[j] == b[j] {
      SettledUnique(a[j], b[j], claims, j);
    }
  }

  /** Two observers that heard every master end with the same table. */
  lemma {:induction false} ObserversAgree(t: Table, u: Table, claims: map<Name, Claim>, s1: seq<Name>, s2: seq<Name>)
    requires Blank(t, claims) && Blank(u, claims) && DistinctEpochs(claims)
    requires Senders(s1) == claims.Keys == Senders(s2)
    requires (forall n | n in s1 :: n in claims) && (forall n | n in s2 :: n in claims)
    ensures Observe(t, claims, s1).slots == Observe(u, claims, s2).slots
  {
    ObserverSettles(t, claims, s1);
    ObserverSettles(u, claims, s2);
    SlotsUnique(Observe(t, claims, s1).slots, Observe(u, claims, s2).slots, claims);
  }
}
