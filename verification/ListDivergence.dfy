/** What two identifiers for one element lead to. */
module ListDivergence {
  import opened Collections
  import opened ListPosition
  import opened ReplicatedList
  import opened ListConvergence
  import opened ListRun

  lemma {:induction false} Extend(n: nat, steps: seq<Step>, trace: seq<System>, step: Step)
    returns (more: seq<Step>, longer: seq<System>)
    requires Run(n, steps, trace) && Shape(n, trace[|steps|]) && Enabled(n, trace[|steps|], step)
    ensures Run(n, more, longer) && longer[|more|] == Do(n, trace[|steps|], step)
  {
    var next := Do(n, trace[|steps|], step);
    more, longer := steps + [step], trace + [next];
    forall i | 0 <= i < |more| ensures Linked(n, longer[i], more[i], longer[i + 1]) {
      if i < |steps| {
        assert Linked(n, trace[i], steps[i], trace[i + 1]);
      }
    }
  }

  lemma {:induction false} FreshClock(n: nat)
    ensures Sum(seq(n, _ => 0)) == 0
  {
    if n > 0 {
      FreshClock(n - 1);
      var s: seq<int> := seq(n, _ => 0);
      assert s[..n - 1] == seq(n - 1, _ => 0);
    }
  }

  /** The first element of a list, at a replica that has made none before. */
  lemma {:induction false} FirstInsert(n: nat, s: System, r: nat, oid: Oid, x: nat)
    requires Shape(n, s) && r < n && s.chains[r] == [] && Sum(s.clocks[r]) == 0
    ensures var step, m := Insert(r, oid, AtHead, x), Message(oid, None, Construct(None, None, r, 0, x));
            && Enabled(n, s, step)
            && var t := Do(n, s, step);
               && t.chains == s.chains[r := [Item(oid, m.id)]] && t.net == s.net + [m]
               && t.seen == s.seen[r := s.seen[r] + [|s.net|]]
               && (forall q | 0 <= q < n && q != r :: t.clocks[q] == s.clocks[q])
  {
    var m := Message(oid, None, Construct(None, None, r, 0, x));
    assert Issued(s, Insert(r, oid, AtHead, x)) == Some(m);
    assert Effect([], m) == [Item(oid, m.id)];
  }

  /** A replica that has the element ignores the identifier of another. */
  lemma {:induction false} Ignored(n: nat, s: System, r: nat, k: nat)
    requires Shape(n, s) && r < n && k < |s.net| && Knows(s.chains[r], s.net[k].oid)
    ensures Do(n, s, Receive(r, k)) == s.(seen := s.seen[r := s.seen[r] + [k]])
  {
    assert s.chains[r := s.chains[r]] == s.chains;
  }

  /** Two replicas insert the same element at the same time, and hold different
      lists ever after: neither takes the identifier of the other. */
  lemma {:induction false} SameElementTwice(x: nat, y: nat) returns (steps: seq<Step>, trace: seq<System>)
    ensures Run(2, steps, trace) && Shape(2, trace[|steps|])
    ensures var s := trace[|steps|];
            (forall k :: k in s.seen[0] <==> k in s.seen[1]) && s.chains[0] != s.chains[1]
  {
    var a, b := Construct(None, None, 0, 0, x), Construct(None, None, 1, 0, y);
    steps, trace := BothInserted(x, y);
    steps, trace := Exchanged(steps, trace, a, b);
    assert a[|a| - 1].pid == 0 && b[|b| - 1].pid == 1;
  }

  lemma {:induction false} BothInserted(x: nat, y: nat) returns (steps: seq<Step>, trace: seq<System>)
    ensures Run(2, steps, trace) && Shape(2, trace[|steps|])
    ensures var s, a, b := trace[|steps|], Construct(None, None, 0, 0, x), Construct(None, None, 1, 0, y);
            && s.chains == [[Item("a", a)], [Item("a", b)]] && s.seen[0] == [0] && s.seen[1] == [1]
            && s.net == [Message("a", None, a), Message("a", None, b)]
  {
    steps, trace := [], [Init(2)];
    FreshClock(2);
    FirstInsert(2, trace[|steps|], 0, "a", x);
    steps, trace := Extend(2, steps, trace, Insert(0, "a", AtHead, x));
    RunsKeepInv(2, steps, trace, |steps|);
    FirstInsert(2, trace[|steps|], 1, "a", y);
    steps, trace := Extend(2, steps, trace, Insert(1, "a", AtHead, y));
    RunsKeepInv(2, steps, trace, |steps|);
  }

  lemma {:induction false} Exchanged(steps: seq<Step>, trace: seq<System>, a: Leid, b: Leid)
    returns (more: seq<Step>, longer: seq<System>)
    requires Run(2, steps, trace) && Shape(2, trace[|steps|])
    requires var s := trace[|steps|];
             && s.chains == [[Item("a", a)], [Item("a", b)]] && s.seen[0] == [0] && s.seen[1] == [1]
             && s.net == [Message("a", None, a), Message("a", None, b)]
    ensures Run(2, more, longer) && Shape(2, longer[|more|])
    ensures var s := longer[|more|];
            s.chains == [[Item("a", a)], [Item("a", b)]] && s.seen[0] == [0, 1] && s.seen[1] == [1, 0]
  {
    var s := trace[|steps|];
    Ignored(2, s, 0, 1);
    more, longer := Extend(2, steps, trace, Receive(0, 1));
    Ignored(2, longer[|more|], 1, 0);
    more, longer := Extend(2, more, longer, Receive(1, 0));
  }

  // ----------------------------------------------------------- out of order

  lemma {:induction false} DeliverMore(ms: seq<Message>, m: Message)
    ensures Deliver(ms + [m]) == Effect(Deliver(ms), m)
  {
    assert (ms + [m])[..|ms|] == ms;
  }

  /** Behind the last element, whatever the identifiers. */
  lemma {:induction false} BehindLast(chain: seq<Item>, m: Message)
    requires chain != [] && !Knows(chain, m.oid) && !Less(m.id, chain[0].id) && m.pre == Some(chain[|chain| - 1].oid)
    ensures Effect(chain, m) == chain + [Item(m.oid, m.id)]
  {
  }

  lemma {:induction false} SingleOrder(a: Position, b: Position)
    ensures Less([a], [b]) <==> PosCmp(a, b) < 0
  {
    SplitDecides([a], [b], if a == b then 1 else 0);
  }

  /** An element with two identifiers puts its successors out of order. Replica 0
      makes c, then x behind c, then e behind x; replica 1, which had put x
      further to the right, finds its x greater than e and puts e behind it. */
  lemma {:induction false} OutOfOrder()
    ensures var c, x, z, e := [Position(1, 0, 0)], [Position(3, 0, 1)], [Position(9, 1, 0)], [Position(5, 0, 2)];
            && c == Construct(None, None, 0, 0, 0) && x == Construct(Some(c), None, 0, 1, 1)
            && z == Construct(Some(c), None, 1, 0, 7) && e == Construct(Some(x), None, 0, 2, 1)
            && Deliver([Message("c", None, c)] + [Message("x", Some("c"), z)] + [Message("x", Some("c"), x)]
                       + [Message("e", Some("x"), e)])
               == [Item("c", c), Item("x", z), Item("e", e)]
            && !Sorted([Item("c", c), Item("x", z), Item("e", e)])
  {
    var c, x, z, e := [Position(1, 0, 0)], [Position(3, 0, 1)], [Position(9, 1, 0)], [Position(5, 0, 2)];
    SingleOrder(z[0], c[0]);
    SingleOrder(e[0], c[0]);
    SingleOrder(z[0], e[0]);
    DeliverThree(c, x, z);
    var three := [Message("c", None, c)] + [Message("x", Some("c"), z)] + [Message("x", Some("c"), x)];
    DeliverMore(three, Message("e", Some("x"), e));
    BehindLast([Item("c", c), Item("x", z)], Message("e", Some("x"), e));
    var end := [Item("c", c), Item("x", z), Item("e", e)];
    assert end[1].id == z && end[2].id == e;
  }

  lemma {:induction false} DeliverThree(c: Leid, x: Leid, z: Leid)
    requires !Less(z, c)
    ensures Deliver([Message("c", None, c)] + [Message("x", Some("c"), z)] + [Message("x", Some("c"), x)])
            == [Item("c", c), Item("x", z)]
  {
    var m, k, l := Message("c", None, c), Message("x", Some("c"), z), Message("x", Some("c"), x);
    assert [] + [m] == [m];
    DeliverMore([], m);
    assert Deliver([m]) == [Item("c", c)];
    DeliverMore([m], k);
    BehindLast([Item("c", c)], k);
    DeliverMore([m] + [k], l);
    assert [Item("c", c), Item("x", z)][1].oid == "x";
  }
}
