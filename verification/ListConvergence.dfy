/** When replicas of a list agree: every order and repetition of the inserts of a
    run gives the same list if and only if no element was given two identifiers. */
module ListConvergence {
  import opened Collections
  import opened ListPosition
  import opened ReplicatedList

  /** No element comes with two identifiers. */
  predicate OneId(ms: seq<Message>) {
    forall i, j | 0 <= i < |ms| && 0 <= j < |ms| && ms[i].oid == ms[j].oid :: ms[i].id == ms[j].id
  }

  /** No identifier comes with two elements. */
  predicate OneOid(ms: seq<Message>) {
    forall i, j | 0 <= i < |ms| && 0 <= j < |ms| && ms[i].id == ms[j].id :: ms[i].oid == ms[j].oid
  }

  /** Message a was issued behind an element with a smaller identifier. */
  ghost predicate Based(ms: seq<Message>, a: Message) {
    a.pre.Some? ==> exists b :: b in ms && b.oid == a.pre.value && Less(b.id, a.id)
  }

  ghost predicate AllBased(ms: seq<Message>) {
    forall a | a in ms :: Based(ms, a)
  }

  /** The predecessor has a smaller identifier in whatever message it comes. */
  ghost predicate InOrder(ms: seq<Message>) {
    forall a, b | a in ms && b in ms && a.pre == Some(b.oid) :: Less(b.id, a.id)
  }

  ghost predicate SameMessages(a: seq<Message>, b: seq<Message>) {
    forall m :: m in a <==> m in b
  }

  /** All orders and repetitions of the messages give the same list. */
  ghost predicate OrdersAgree(ms: seq<Message>) {
    forall a, b | SameMessages(a, ms) && SameMessages(b, ms) :: Deliver(a) == Deliver(b)
  }

  // ----------------------------------------------------- what a chain holds

  /** The identifier of the first message about an element. */
  function FirstId(ms: seq<Message>, oid: Oid): Option<Leid> {
    if ms == [] then None
    else
      var before := FirstId(ms[..|ms| - 1], oid);
      if before.Some? then before else if ms[|ms| - 1].oid == oid then Some(ms[|ms| - 1].id) else None
  }

  lemma {:induction false} EffectHolds(chain: seq<Item>, m: Message)
    ensures forall x :: x in Effect(chain, m) <==> x in chain || (!Knows(chain, m.oid) && x == Item(m.oid, m.id))
  {
    if !Knows(chain, m.oid) {
      var at := Place(chain, m.pre, m.id);
      assert chain == chain[..at] + chain[at..];
    }
  }

  lemma {:induction false} KnownIsIn(chain: seq<Item>, oid: Oid)
    ensures Knows(chain, oid) <==> exists x :: x in chain && x.oid == oid
  {
    if Knows(chain, oid) {
      assert chain[Find(chain, oid).value] in chain;
    }
    if x :| x in chain && x.oid == oid {
      var i :| 0 <= i < |chain| && chain[i] == x;
    }
  }

  /** The first message about an element wins. */
  lemma {:induction false} FirstWins(ms: seq<Message>, oid: Oid)
    ensures Knows(Deliver(ms), oid) <==> FirstId(ms, oid).Some?
    ensures forall id :: Item(oid, id) in Deliver(ms) <==> FirstId(ms, oid) == Some(id)
  {
    if ms != [] {
      var front, m := ms[..|ms| - 1], ms[|ms| - 1];
      FirstWins(front, oid);
      EffectHolds(Deliver(front), m);
    }
    AnyIdIsKnown(Deliver(ms), oid, FirstId(ms, oid));
  }

  lemma {:induction false} AnyIdIsKnown(chain: seq<Item>, oid: Oid, first: Option<Leid>)
    requires forall id :: Item(oid, id) in chain <==> first == Some(id)
    ensures Knows(chain, oid) <==> first.Some?
  {
    KnownIsIn(chain, oid);
    if x :| x in chain && x.oid == oid {
      assert x == Item(oid, x.id);
    }
    if first.Some? {
      assert Item(oid, first.value) in chain;
    }
  }

  lemma {:induction false} FirstIsSome(ms: seq<Message>, oid: Oid)
    ensures FirstId(ms, oid).Some? ==> exists m :: m in ms && m.oid == oid && m.id == FirstId(ms, oid).value
    ensures FirstId(ms, oid).None? ==> forall m | m in ms :: m.oid != oid
  {
    if ms != [] {
      var front, last := ms[..|ms| - 1], ms[|ms| - 1];
      FirstIsSome(front, oid);
      assert ms == front + [last];
      assert last in ms;
    }
  }

  /** With one identifier for each element, the chain holds exactly what the messages say. */
  lemma {:induction false} HoldsMessages(ms: seq<Message>, x: Item)
    requires OneId(ms)
    ensures x in Deliver(ms) <==> exists m :: m in ms && m.oid == x.oid && m.id == x.id
  {
    FirstWins(ms, x.oid);
    FirstIsSome(ms, x.oid);
    assert x == Item(x.oid, x.id);
    if m :| m in ms && m.oid == x.oid && m.id == x.id {
      var f :| f in ms && f.oid == x.oid && f.id == FirstId(ms, x.oid).value;
      var i, j :| 0 <= i < |ms| && ms[i] == m && 0 <= j < |ms| && ms[j] == f;
    }
  }

  // -------------------------------------------------------------- sortedness

  predicate Sub(a: seq<Message>, ms: seq<Message>) {
    forall i | 0 <= i < |a| :: a[i] in ms
  }

  lemma {:induction false} SubOneId(a: seq<Message>, ms: seq<Message>)
    requires Sub(a, ms) && OneId(ms)
    ensures OneId(a)
  {
    forall i, j | 0 <= i < |a| && 0 <= j < |a| && a[i].oid == a[j].oid ensures a[i].id == a[j].id {
      var k, l :| 0 <= k < |ms| && ms[k] == a[i] && 0 <= l < |ms| && ms[l] == a[j];
    }
  }

  lemma {:induction false} ChainSorted(a: seq<Message>, ms: seq<Message>)
    requires Sub(a, ms) && OneId(ms) && OneOid(ms) && InOrder(ms)
    ensures Sorted(Deliver(a))
    decreases |a|
  {
    if a != [] {
      var front, m := a[..|a| - 1], a[|a| - 1];
      ChainSorted(front, ms);
      if !Knows(Deliver(front), m.oid) {
        NewcomerFits(front, m, ms);
        SortedUnlessMisplaced(Deliver(front), m);
      }
    }
  }

  lemma {:induction false} NewcomerFits(front: seq<Message>, m: Message, ms: seq<Message>)
    requires Sub(front, ms) && m in ms && OneId(ms) && OneOid(ms) && InOrder(ms) && !Knows(Deliver(front), m.oid)
    ensures !HasId(Deliver(front), m.id) && !Misplaced(Deliver(front), m)
  {
    var chain := Deliver(front);
    SubOneId(front, ms);
    forall i | 0 <= i < |chain|
      ensures chain[i].id != m.id && (m.pre == Some(chain[i].oid) ==> Less(chain[i].id, m.id))
    {
      assert chain[i] in chain;
      HoldsMessages(front, chain[i]);
      var b :| b in front && b.oid == chain[i].oid && b.id == chain[i].id;
      InMessages(front, ms, b);
      OtherId(ms, m, b, chain, i);
    }
  }

  lemma {:induction false} InMessages(a: seq<Message>, ms: seq<Message>, b: Message)
    requires Sub(a, ms) && b in a
    ensures b in ms
  {
    var i :| 0 <= i < |a| && a[i] == b;
  }

  lemma {:induction false} OtherId(ms: seq<Message>, m: Message, b: Message, chain: seq<Item>, i: nat)
    requires OneOid(ms) && m in ms && b in ms && i < |chain| && chain[i].oid == b.oid && !Knows(chain, m.oid)
    ensures b.id != m.id
  {
    var k, l :| 0 <= k < |ms| && ms[k] == m && 0 <= l < |ms| && ms[l] == b;
  }

  // ------------------------------------------------------------ convergence

  /** One sorted chain for each set of items. */
  lemma {:induction false} ChainsConverge(a: seq<Item>, b: seq<Item>)
    requires Sorted(a) && Sorted(b) && forall x :: x in a <==> x in b
    ensures a == b
    decreases |a|
  {
    if a == [] && b == [] {
    } else if a == [] {
      HasMember(b);
      assert false;
    } else if b == [] {
      HasMember(a);
      assert false;
    } else {
      HeadsMeet(a, b);
      HeadsMeet(b, a);
      assert a[0] == b[0] by {
        if a[0] != b[0] {
          LessAsymmetric(a[0].id, b[0].id);
        }
      }
      TailMembers(a, b);
      TailMembers(b, a);
      ChainsConverge(a[1..], b[1..]);
      assert a == [a[0]] + a[1..] && b == [b[0]] + b[1..];
    }
  }

  lemma {:induction false} HasMember(a: seq<Item>)
    requires a != []
    ensures exists x :: x in a
  {
    assert a[0] in a;
  }

  lemma {:induction false} HeadsMeet(a: seq<Item>, b: seq<Item>)
    requires a != [] && b != [] && Sorted(a) && (forall x :: x in b ==> x in a)
    ensures a[0] == b[0] || Less(a[0].id, b[0].id)
  {
    assert b[0] in a;
  }

  lemma {:induction false} TailMembers(a: seq<Item>, b: seq<Item>)
    requires a != [] && b != [] && a[0] == b[0] && Sorted(a) && (forall x :: x in a ==> x in b)
    ensures forall x :: x in a[1..] ==> x in b[1..]
  {
    forall x | x in a[1..] ensures x in b[1..] {
      var i :| 1 <= i < |a| && a[i] == x;
      assert Less(a[0].id, a[i].id);
      LessIrreflexive(a[0].id);
      assert x in b;
      var j :| 0 <= j < |b| && b[j] == x;
      assert b[1..][j - 1] == x;
    }
  }

  /** Whatever the orders and repetitions, the same messages give the same list,
      sorted, if no element comes with two identifiers. */
  lemma {:induction false} ListsConverge(a: seq<Message>, b: seq<Message>, ms: seq<Message>)
    requires Sub(a, ms) && SameMessages(a, b) && OneId(ms) && OneOid(ms) && InOrder(ms)
    ensures Deliver(a) == Deliver(b) && Sorted(Deliver(a))
  {
    forall i | 0 <= i < |b| ensures b[i] in ms {
      assert b[i] in a;
      InMessages(a, ms, b[i]);
    }
    ChainSorted(a, ms);
    ChainSorted(b, ms);
    SubOneId(a, ms);
    SubOneId(b, ms);
    forall x ensures x in Deliver(a) <==> x in Deliver(b) {
      HoldsMessages(a, x);
      HoldsMessages(b, x);
    }
    ChainsConverge(Deliver(a), Deliver(b));
  }

  /** Two identifiers for one element, and the order of arrival decides. */
  lemma {:induction false} TwoIdsDiverge(ms: seq<Message>, m: Message, k: Message)
    requires m in ms && k in ms && m.oid == k.oid && m.id != k.id
    ensures SameMessages([m] + ms, ms) && SameMessages([k] + ms, ms) && Deliver([m] + ms) != Deliver([k] + ms)
  {
    FirstIsFirst(m, ms);
    FirstIsFirst(k, ms);
    FirstWins([m] + ms, m.oid);
    FirstWins([k] + ms, m.oid);
    assert Item(m.oid, m.id) in Deliver([m] + ms) && Item(m.oid, m.id) !in Deliver([k] + ms);
  }

  lemma {:induction false} FirstIsFirst(m: Message, ms: seq<Message>)
    ensures FirstId([m] + ms, m.oid) == Some(m.id)
  {
    if ms == [] {
      assert [m] + ms == [m];
      assert [m][..0] == [];
    } else {
      FirstIsFirst(m, ms[..|ms| - 1]);
      assert ([m] + ms)[..|ms|] == [m] + ms[..|ms| - 1];
    }
  }

  lemma {:induction false} BasedInOrder(ms: seq<Message>)
    requires AllBased(ms) && OneId(ms)
    ensures InOrder(ms)
  {
    forall a, c | a in ms && c in ms && a.pre == Some(c.oid) ensures Less(c.id, a.id) {
      assert Based(ms, a);
      var b :| b in ms && b.oid == a.pre.value && Less(b.id, a.id);
      var i, j :| 0 <= i < |ms| && ms[i] == b && 0 <= j < |ms| && ms[j] == c;
    }
  }

  /** For messages built on predecessors and identifiers that name one element
      each, all orders agree if and only if no element has two identifiers. */
  lemma {:induction false} OrdersAgreeIff(ms: seq<Message>)
    requires AllBased(ms) && OneOid(ms)
    ensures OrdersAgree(ms) <==> OneId(ms)
  {
    if OneId(ms) {
      BasedInOrder(ms);
      forall a, b | SameMessages(a, ms) && SameMessages(b, ms) ensures Deliver(a) == Deliver(b) {
        ListsConverge(a, b, ms);
      }
    } else {
      var i, j :| 0 <= i < |ms| && 0 <= j < |ms| && ms[i].oid == ms[j].oid && ms[i].id != ms[j].id;
      TwoIdsDiverge(ms, ms[i], ms[j]);
    }
  }
}
