/** Clients blocked on list keys (blocked.c, with serveClientBlockedOnList of
    t_list.c): who waits for what, and how ready keys are served. Keys are
    numbered; everything is in one DB. */
module Blocked {
  import opened Collections

  type Client = nat

  type Value = string

  /** A key holds nothing, a list, or something of another type. */
  datatype Entry = Missing | ListOf(items: seq<Value>) | OtherType

  datatype Kind = OnList | OnOther

  /** A blocked client: what it waits for, whether it pops the head (BLPOP) or
      the tail, and where BRPOPLPUSH is to put the value. */
  datatype Wait = Wait(kind: Kind, keys: set<nat>, head: bool, target: Option<nat>)

  datatype Reply = Popped(client: Client, key: nat, value: Value) | Moved(client: Client, value: Value)
    | WrongType(client: Client)

  /** `waiters[k]` is the list in blocking_keys (no entry when empty), `ready`
      is server.ready_keys and `signaled` db->ready_keys. */
  datatype Server = Server(db: seq<Entry>, waiters: seq<seq<Client>>, blocked: map<Client, Wait>,
                           ready: seq<nat>, signaled: set<nat>, unblocked: seq<Client>, replies: seq<Reply>)

  // ----------------------------------------------------------- operations

  /** unblockClient, with unblockClientWaitingData and queueClientForReprocessing. */
  function Unblock(s: Server, c: Client): Server
    requires c in s.blocked
  {
    s.(waiters := seq(|s.waiters|, k requires 0 <= k < |s.waiters| =>
                      if k in s.blocked[c].keys then Without(s.waiters[k], c) else s.waiters[k]),
       blocked := s.blocked - {c},
       unblocked := if c in s.unblocked then s.unblocked else s.unblocked + [c])
  }

  /** signalKeyAsReady. */
  function Signal(s: Server, k: nat): Server
    requires k < |s.waiters|
  {
    if s.waiters[k] == [] || k in s.signaled then s
    else s.(ready := s.ready + [k], signaled := s.signaled + {k})
  }

  function Popped1(items: seq<Value>, head: bool): Value
    requires items != []
  {
    if head then items[0] else items[|items| - 1]
  }

  function Rest(items: seq<Value>, head: bool): seq<Value>
    requires items != []
  {
    if head then items[1..] else items[..|items| - 1]
  }

  function PushBack(items: seq<Value>, v: Value, head: bool): seq<Value> {
    if head then [v] + items else items + [v]
  }

  predicate Keys(s: Server) {
    && |s.waiters| == |s.db|
    && (forall c | c in s.blocked :: s.blocked[c].target.Some? ==> s.blocked[c].target.value < |s.db|)
  }

  /** serveClientBlockedOnList for a client that is no longer blocked: the value
      goes to the client, or to the target list and the client; when the target
      is of another type, it goes back where it came from. */
  function Give(s: Server, c: Client, w: Wait, k: nat, v: Value): Server
    requires Keys(s) && k < |s.db| && s.db[k].ListOf? && (w.target.Some? ==> w.target.value < |s.db|)
  {
    match w.target
    case None => s.(replies := s.replies + [Popped(c, k, v)])
    case Some(t) =>
      match s.db[t]
      case OtherType =>
        s.(db := s.db[k := ListOf(PushBack(s.db[k].items, v, w.head))], replies := s.replies + [WrongType(c)])
      case Missing => Signal(s, t).(db := s.db[t := ListOf([v])], replies := s.replies + [Moved(c, v)])
      case ListOf(items) => s.(db := s.db[t := ListOf([v] + items)], replies := s.replies + [Moved(c, v)])
  }

  /** The first waiter of the key is not waiting for a list. */
  predicate Mismatch(s: Server, k: nat)
    requires k < |s.waiters| && s.waiters[k] != []
  {
    !(s.waiters[k][0] in s.blocked && s.blocked[s.waiters[k][0]].kind == OnList)
  }

  function Rotate(s: Server, k: nat): Server
    requires k < |s.waiters| && s.waiters[k] != []
  {
    s.(waiters := s.waiters[k := s.waiters[k][1..] + [s.waiters[k][0]]])
  }

  function ServeFirst(s: Server, k: nat): Server
    requires Keys(s) && k < |s.db| && s.waiters[k] != [] && !Mismatch(s, k)
    requires s.db[k].ListOf? && s.db[k].items != []
  {
    var c, items := s.waiters[k][0], s.db[k].items;
    var w := s.blocked[c];
    Give(Unblock(s.(db := s.db[k := ListOf(Rest(items, w.head))]), c), c, w, k, Popped1(items, w.head))
  }

  /** One round of the loop. */
  function Round(s: Server, k: nat): Server
    requires Keys(s) && k < |s.db| && s.db[k].ListOf? && s.waiters[k] != [] && (!Mismatch(s, k) ==> s.db[k].items != [])
  {
    if Mismatch(s, k) then Rotate(s, k) else ServeFirst(s, k)
  }

  /** serveClientsBlockedOnListKey: at most n rounds, ended early by an empty list. */
  function Serve(s: Server, k: nat, n: nat): (r: Server)
    requires Keys(s) && k < |s.db| && s.db[k].ListOf?
    ensures Keys(r) && |r.db| == |s.db| && r.db[k].ListOf?
    decreases n
  {
    if n == 0 || s.waiters[k] == [] || (!Mismatch(s, k) && s.db[k].items == []) then s
    else
      RoundShape(s, k);
      Serve(Round(s, k), k, n - 1)
  }

  lemma {:induction false} RoundShape(s: Server, k: nat)
    requires Keys(s) && k < |s.db| && s.db[k].ListOf? && s.waiters[k] != [] && (!Mismatch(s, k) ==> s.db[k].items != [])
    ensures var r := Round(s, k);
            Keys(r) && |r.db| == |s.db| && r.db[k].ListOf?
  {
  }

  function DropIfEmpty(s: Server, k: nat): Server
    requires k < |s.db|
  {
    if s.db[k] == ListOf([]) then s.(db := s.db[k := Missing]) else s
  }

  /** What handleClientsBlockedOnKeys does with one ready key. */
  function HandleKey(s: Server, k: nat): (r: Server)
    requires Keys(s) && k < |s.db|
    ensures Keys(r) && |r.db| == |s.db|
  {
    var t := s.(signaled := s.signaled - {k});
    if t.db[k].ListOf? then DropIfEmpty(Serve(t, k, |t.waiters[k]|), k) else t
  }

  // ------------------------------------------------------------ invariant

  /** The two-way index: a client is in the list of a key exactly when the key is
      among those of the client. */
  ghost predicate Index(s: Server) {
    && Keys(s)
    && (forall k | 0 <= k < |s.waiters| :: Distinct(s.waiters[k]))
    && (forall k, c {:trigger c in s.waiters[k]} | 0 <= k < |s.waiters| ::
          c in s.waiters[k] <==> c in s.blocked && k in s.blocked[c].keys)
    && (forall c | c in s.blocked :: s.blocked[c].keys != {} && forall k | k in s.blocked[c].keys :: k < |s.waiters|)
  }

  lemma {:induction false} UnblockKeepsIndex(s: Server, c: Client)
    requires Index(s) && c in s.blocked
    ensures Index(Unblock(s, c))
  {
    var t := Unblock(s, c);
    forall k | 0 <= k < |s.waiters|
      ensures Distinct(t.waiters[k]) && forall x :: x in t.waiters[k] <==> x in s.waiters[k] && x != c
    {
      WithoutKeeps(s.waiters[k], c);
      assert c in s.waiters[k] <==> k in s.blocked[c].keys;
    }
  }

  lemma {:induction false} RotateKeepsIndex(s: Server, k: nat)
    requires Index(s) && k < |s.waiters| && s.waiters[k] != []
    ensures Index(Rotate(s, k))
  {
    RotatedMeans(s.waiters[k]);
  }

  lemma {:induction false} RotatedMeans(q: seq<Client>)
    requires q != [] && Distinct(q)
    ensures Distinct(q[1..] + [q[0]]) && forall x :: x in q[1..] + [q[0]] <==> x in q
  {
    assert q == [q[0]] + q[1..];
    assert q[0] !in q[1..];
  }

  /** Serving changes the index only by unblocking the one client. */
  lemma {:induction false} ServeFirstIndex(s: Server, k: nat)
    requires Index(s) && k < |s.db| && s.waiters[k] != [] && !Mismatch(s, k)
    requires s.db[k].ListOf? && s.db[k].items != []
    ensures var r, u := ServeFirst(s, k), Unblock(s, s.waiters[k][0]);
            Index(r) && r.waiters == u.waiters && r.blocked == u.blocked
  {
    var items, c := s.db[k].items, s.waiters[k][0];
    var w := s.blocked[c];
    var popped := s.(db := s.db[k := ListOf(Rest(items, w.head))]);
    SameIndex(s, popped);
    UnblockKeepsIndex(popped, c);
    GiveKeepsIndex(Unblock(popped, c), c, w, k, Popped1(items, w.head));
  }

  lemma {:induction false} SameIndex(s: Server, t: Server)
    requires Index(s) && t.waiters == s.waiters && t.blocked == s.blocked && |t.db| == |s.db|
    ensures Index(t)
  {
  }

  lemma {:induction false} GiveKeepsIndex(s: Server, c: Client, w: Wait, k: nat, v: Value)
    requires Index(s) && k < |s.db| && s.db[k].ListOf? && (w.target.Some? ==> w.target.value < |s.db|)
    ensures var r := Give(s, c, w, k, v);
            Index(r) && r.waiters == s.waiters && r.blocked == s.blocked
  {
    SameIndex(s, Give(s, c, w, k, v));
  }

  /** Some client waits on the key for a list. */
  ghost predicate Waiting(s: Server, k: nat)
    requires k < |s.waiters|
  {
    exists c :: c in s.waiters[k] && c in s.blocked && s.blocked[c].kind == OnList
  }

  predicate HasItems(s: Server, k: nat)
    requires k < |s.db|
  {
    s.db[k].ListOf? && s.db[k].items != []
  }

  /** Apart from the key `skip`, every non-empty list somebody waits for is signaled. */
  ghost predicate Covered(s: Server, skip: int)
    requires Keys(s)
  {
    forall j | 0 <= j < |s.db| && j != skip :: HasItems(s, j) && Waiting(s, j) ==> j in s.signaled
  }

  /** Apart from `skip`, no empty list is kept. */
  predicate Tidy(s: Server, skip: int) {
    forall j | 0 <= j < |s.db| && j != skip :: s.db[j] != ListOf([])
  }

  /** `todo` and the ready list together hold each signaled key once. */
  ghost predicate Pending(s: Server, todo: seq<nat>) {
    && Distinct(todo + s.ready) && (forall j :: j in todo + s.ready <==> j in s.signaled)
    && (forall j | j in s.signaled :: j < |s.db|)
  }

  ghost predicate Inv(s: Server, todo: seq<nat>, skip: int) {
    Index(s) && Covered(s, skip) && Tidy(s, skip) && Pending(s, todo)
  }

  lemma {:induction false} SignalPending(s: Server, k: nat, todo: seq<nat>)
    requires Pending(s, todo) && k < |s.waiters| == |s.db|
    ensures Pending(Signal(s, k), todo)
  {
    if k !in s.signaled {
      assert todo + (s.ready + [k]) == (todo + s.ready) + [k];
      assert k !in todo + s.ready;
    }
  }

  /** Fewer waiters leave fewer keys to cover. */
  lemma {:induction false} FewerWaiting(s: Server, t: Server, skip: int)
    requires Keys(s) && Keys(t) && Covered(s, skip) && |t.waiters| == |s.waiters| && s.signaled <= t.signaled
    requires forall k | 0 <= k < |s.waiters| :: Waiting(t, k) ==> Waiting(s, k)
    requires forall k | 0 <= k < |s.db| && k != skip ::
               HasItems(t, k) && !HasItems(s, k) ==> !Waiting(t, k) || k in t.signaled
    ensures Covered(t, skip)
  {
    forall j | 0 <= j < |t.db| && j != skip && HasItems(t, j) && Waiting(t, j) ensures j in t.signaled {
      if HasItems(s, j) {
        assert Waiting(s, j);
      }
    }
  }

  lemma {:induction false} UnblockWaiting(s: Server, c: Client, k: nat)
    requires Index(s) && c in s.blocked && k < |s.waiters| && Waiting(Unblock(s, c), k)
    ensures Waiting(s, k)
  {
    var t := Unblock(s, c);
    var x :| x in t.waiters[k] && x in t.blocked && t.blocked[x].kind == OnList;
    WithoutKeeps(s.waiters[k], c);
  }

  lemma {:induction false} RotateWaiting(s: Server, k: nat, j: nat)
    requires k < |s.waiters| && j < |s.waiters| && s.waiters[k] != [] && Distinct(s.waiters[k])
    ensures Waiting(Rotate(s, k), j) <==> Waiting(s, j)
  {
    RotatedMeans(s.waiters[k]);
    var t := Rotate(s, k);
    assert forall x :: x in t.waiters[j] <==> x in s.waiters[j];
  }

  /** How the lists and signals change when the first client is served. */
  lemma {:induction false} ServeFirstData(s: Server, k: nat)
    requires Index(s) && Tidy(s, k) && k < |s.db| && s.waiters[k] != [] && !Mismatch(s, k)
    requires s.db[k].ListOf? && s.db[k].items != []
    ensures var r := ServeFirst(s, k);
            && Tidy(r, k) && s.signaled <= r.signaled && |r.db| == |s.db|
            && (forall j | 0 <= j < |s.db| && j != k && HasItems(r, j) && !HasItems(s, j) ::
                  r.waiters[j] == [] || j in r.signaled)
  {
    var c, items := s.waiters[k][0], s.db[k].items;
    var w := s.blocked[c];
    var popped := s.(db := s.db[k := ListOf(Rest(items, w.head))]);
    var u := Unblock(popped, c);
    assert u.db == popped.db;
    match w.target
    case None =>
    case Some(t) => assert u.db[t] == if t == k then ListOf(Rest(items, w.head)) else s.db[t];
  }

  lemma {:induction false} ServeFirstPending(s: Server, k: nat, todo: seq<nat>)
    requires Keys(s) && Pending(s, todo) && k < |s.db| && s.waiters[k] != [] && !Mismatch(s, k)
    requires s.db[k].ListOf? && s.db[k].items != []
    ensures Pending(ServeFirst(s, k), todo)
  {
    var c, items := s.waiters[k][0], s.db[k].items;
    var w := s.blocked[c];
    var u := Unblock(s.(db := s.db[k := ListOf(Rest(items, w.head))]), c);
    assert Pending(u, todo);
    match w.target
    case None =>
    case Some(t) => SignalPending(u, t, todo);
  }

  lemma {:induction false} ServeFirstKeeps(s: Server, k: nat, todo: seq<nat>)
    requires Inv(s, todo, k) && k < |s.db| && s.waiters[k] != [] && !Mismatch(s, k)
    requires s.db[k].ListOf? && s.db[k].items != []
    ensures Inv(ServeFirst(s, k), todo, k)
  {
    var r := ServeFirst(s, k);
    ServeFirstIndex(s, k);
    ServeFirstData(s, k);
    ServeFirstPending(s, k, todo);
    var u := Unblock(s, s.waiters[k][0]);
    forall j | 0 <= j < |s.waiters| && Waiting(r, j) ensures Waiting(s, j) {
      assert Waiting(u, j);
      UnblockWaiting(s, s.waiters[k][0], j);
    }
    forall j | 0 <= j < |s.db| && j != k && HasItems(r, j) && !HasItems(s, j)
      ensures !Waiting(r, j) || j in r.signaled
    {
    }
    FewerWaiting(s, r, k);
  }

  lemma {:induction false} RotateKeeps(s: Server, k: nat, todo: seq<nat>)
    requires Inv(s, todo, k) && k < |s.waiters| && s.waiters[k] != []
    ensures Inv(Rotate(s, k), todo, k)
  {
    RotateKeepsIndex(s, k);
    var t := Rotate(s, k);
    forall j | 0 <= j < |s.db| && j != k && HasItems(t, j) && Waiting(t, j) ensures j in t.signaled {
      RotateWaiting(s, k, j);
      assert HasItems(s, j);
    }
  }

  /** Nobody new is blocked, and what unblocks nobody signals nothing. */
  predicate Progresses(s: Server, r: Server) {
    r.blocked.Keys <= s.blocked.Keys && (r.blocked.Keys == s.blocked.Keys ==> r.ready == s.ready)
  }

  lemma {:induction false} RoundProgresses(s: Server, k: nat)
    requires Keys(s) && k < |s.db| && s.db[k].ListOf? && s.waiters[k] != [] && (!Mismatch(s, k) ==> s.db[k].items != [])
    ensures Progresses(s, Round(s, k))
  {
    if !Mismatch(s, k) {
      assert s.waiters[k][0] in s.blocked && s.waiters[k][0] !in ServeFirst(s, k).blocked;
    }
  }

  lemma {:induction false} ProgressAdds(s: Server, t: Server, r: Server)
    requires Progresses(s, t) && Progresses(t, r)
    ensures Progresses(s, r)
  {
  }

  /** All rounds together. */
  lemma {:induction false} ServeKeeps(s: Server, k: nat, n: nat, todo: seq<nat>)
    requires Inv(s, todo, k) && k < |s.db| && s.db[k].ListOf?
    ensures Inv(Serve(s, k, n), todo, k)
    decreases n
  {
    var over, t := NextRound(s, k, n, todo);
    if !over {
      ServeKeeps(t, k, n - 1, todo);
    }
  }

  /** Whether the rounds are over, and if not the state after the next one. */
  lemma {:induction false} NextRound(s: Server, k: nat, n: nat, todo: seq<nat>) returns (over: bool, t: Server)
    requires Inv(s, todo, k) && k < |s.db| && s.db[k].ListOf?
    ensures Inv(t, todo, k) && k < |t.db| && t.db[k].ListOf?
    ensures if over then t == s == Serve(s, k, n) else n > 0 && Serve(s, k, n) == Serve(t, k, n - 1)
  {
    over := n == 0 || s.waiters[k] == [] || (!Mismatch(s, k) && s.db[k].items == []);
    if over {
      t := s;
      ServeStops(s, k, n);
    } else {
      t := Round(s, k);
      ServeRound(s, k, n);
      RoundKeeps(s, k, todo);
    }
  }

  /** The same without the invariant: what every round does to the clients and the values. */
  lemma {:induction false} NextState(s: Server, k: nat, n: nat) returns (over: bool, t: Server)
    requires Keys(s) && k < |s.db| && s.db[k].ListOf?
    ensures Keys(t) && k < |t.db| && t.db[k].ListOf? && Progresses(s, t)
    ensures if over then t == s == Serve(s, k, n) else n > 0 && Serve(s, k, n) == Serve(t, k, n - 1)
    ensures forall x :: Amount(t, x) == Amount(s, x)
  {
    over := n == 0 || s.waiters[k] == [] || (!Mismatch(s, k) && s.db[k].items == []);
    if over {
      t := s;
      ServeStops(s, k, n);
    } else {
      t := Round(s, k);
      ServeRound(s, k, n);
      RoundProgresses(s, k);
      forall x {
        RoundConserves(s, k, x);
      }
    }
  }

  lemma {:induction false} ServeProgresses(s: Server, k: nat, n: nat)
    requires Keys(s) && k < |s.db| && s.db[k].ListOf?
    ensures Progresses(s, Serve(s, k, n))
    decreases n
  {
    var over, t := NextState(s, k, n);
    if !over {
      ServeProgresses(t, k, n - 1);
      ProgressAdds(s, t, Serve(s, k, n));
    }
  }

  lemma {:induction false} RoundKeeps(s: Server, k: nat, todo: seq<nat>)
    requires Inv(s, todo, k) && k < |s.db| && s.db[k].ListOf? && s.waiters[k] != []
             && (!Mismatch(s, k) ==> s.db[k].items != [])
    ensures Inv(Round(s, k), todo, k)
  {
    if Mismatch(s, k) {
      RotateKeeps(s, k, todo);
    } else {
      ServeFirstKeeps(s, k, todo);
    }
  }

  /** The rounds end early when nobody waits or the list is empty. */
  lemma {:induction false} ServeStops(s: Server, k: nat, n: nat)
    requires Keys(s) && k < |s.db| && s.db[k].ListOf?
    requires n == 0 || s.waiters[k] == [] || (!Mismatch(s, k) && s.db[k].items == [])
    ensures Serve(s, k, n) == s
  {
  }

  // ---------------------------------------- every waiter gets its turn

  ghost predicate NoneForList(s: Server, q: seq<Client>) {
    forall c | c in q :: c in s.blocked ==> s.blocked[c].kind != OnList
  }

  lemma {:induction false} WithoutFirst(q: seq<Client>)
    requires q != []
    ensures Without(q, q[0]) == q[1..]
  {
  }

  /** Those still to come stand in front, those passed over behind. When the
      rounds are over, nobody is left that could be served. */
  lemma {:induction false} ServeReachesAll(s: Server, k: nat, front: seq<Client>, back: seq<Client>)
    requires Index(s) && k < |s.db| && s.db[k].ListOf? && s.waiters[k] == front + back && NoneForList(s, back)
    ensures var r := Serve(s, k, |front|);
            r.db[k] == ListOf([]) || NoneForList(r, r.waiters[k])
    decreases |front|
  {
    if front == [] {
      assert front + back == back;
      ServeStops(s, k, 0);
    } else if !Mismatch(s, k) && s.db[k].items == [] {
      ServeStops(s, k, |front|);
    } else {
      ServeRound(s, k, |front|);
      if Mismatch(s, k) {
        AfterRotate(s, k, front, back);
        ServeReachesAll(Rotate(s, k), k, front[1..], back + [front[0]]);
      } else {
        AfterServe(s, k, front, back);
        ServeReachesAll(ServeFirst(s, k), k, front[1..], back);
      }
    }
  }

  /** The clients of a queue that wait for a list, in the order of the queue. */
  function ForList(blocked: map<Client, Wait>, q: seq<Client>): seq<Client> {
    if q == [] then [] else IfForList(blocked, q[0]) + ForList(blocked, q[1..])
  }

  function IfForList(blocked: map<Client, Wait>, c: Client): seq<Client> {
    if c in blocked && blocked[c].kind == OnList then [c] else []
  }

  function ClientsOf(replies: seq<Reply>): seq<Client> {
    seq(|replies|, i requires 0 <= i < |replies| => replies[i].client)
  }

  lemma {:induction false} ForListConcat(blocked: map<Client, Wait>, p: seq<Client>, q: seq<Client>)
    ensures ForList(blocked, p + q) == ForList(blocked, p) + ForList(blocked, q)
  {
    if p == [] {
      assert p + q == q;
    } else {
      ForListConcat(blocked, p[1..], q);
      ForListStep(blocked, p + q, p[0], p[1..] + q);
      Regroup(IfForList(blocked, p[0]), ForList(blocked, p[1..]), ForList(blocked, q));
    }
  }

  lemma {:induction false} ForListStep(blocked: map<Client, Wait>, q: seq<Client>, first: Client, rest: seq<Client>)
    requires q == [first] + rest
    ensures ForList(blocked, q) == IfForList(blocked, first) + ForList(blocked, rest)
  {
    assert q[1..] == rest;
  }

  lemma {:induction false} Regroup(a: seq<Client>, b: seq<Client>, c: seq<Client>)
    ensures a + (b + c) == (a + b) + c
  {
  }

  lemma {:induction false} ForListNone(s: Server, q: seq<Client>)
    requires NoneForList(s, q)
    ensures ForList(s.blocked, q) == []
  {
    if q != [] {
      ForListNone(s, q[1..]);
    }
  }

  lemma {:induction false} ForListOthers(blocked: map<Client, Wait>, c: Client, q: seq<Client>)
    requires c !in q
    ensures ForList(blocked - {c}, q) == ForList(blocked, q)
  {
    if q != [] {
      ForListOthers(blocked, c, q[1..]);
    }
  }

  /** The waiters are served in the order they blocked: the clients that get a
      reply are the first of those waiting for a list, in that order, and if some
      are left the list is empty and they still stand in that order. */
  lemma {:induction false} ServedInOrder(s: Server, k: nat, front: seq<Client>, back: seq<Client>)
    requires Index(s) && k < |s.db| && s.db[k].ListOf? && s.waiters[k] == front + back && NoneForList(s, back)
    ensures var r, line := Serve(s, k, |front|), ForList(s.blocked, front);
            Orderly(s.replies, r, k, line)
    decreases |front|
  {
    if front == [] || (!Mismatch(s, k) && s.db[k].items == []) {
      NoneServed(s, k, front, back);
    } else if Mismatch(s, k) {
      AfterRotate(s, k, front, back);
      ServedInOrder(Rotate(s, k), k, front[1..], back + [front[0]]);
      PassedOver(s, k, front, back);
    } else {
      AfterServe(s, k, front, back);
      RoundShape(s, k);
      ServedInOrder(ServeFirst(s, k), k, front[1..], back);
      ServedThen(s, k, front, back);
    }
  }

  lemma {:induction false} PassedOver(s: Server, k: nat, front: seq<Client>, back: seq<Client>)
    requires Keys(s) && k < |s.db| && s.db[k].ListOf? && s.waiters[k] == front + back && front != [] && Mismatch(s, k)
    requires var t := Rotate(s, k);
             Orderly(t.replies, Serve(t, k, |front| - 1), k, ForList(t.blocked, front[1..]))
    ensures Orderly(s.replies, Serve(s, k, |front|), k, ForList(s.blocked, front))
  {
    ServeRound(s, k, |front|);
    assert s.waiters[k][0] == front[0];
    assert ForList(s.blocked, front) == ForList(s.blocked, front[1..]);
  }

  lemma {:induction false} ServedThen(s: Server, k: nat, front: seq<Client>, back: seq<Client>)
    requires Index(s) && k < |s.db| && s.waiters[k] == front + back && front != []
    requires !Mismatch(s, k) && s.db[k].ListOf? && s.db[k].items != []
    requires var t := ServeFirst(s, k);
             && Keys(t) && |t.db| == |s.db| && t.db[k].ListOf?
             && Orderly(t.replies, Serve(t, k, |front| - 1), k, ForList(t.blocked, front[1..]))
    ensures Orderly(s.replies, Serve(s, k, |front|), k, ForList(s.blocked, front))
  {
    var t := ServeFirst(s, k);
    ServeRound(s, k, |front|);
    FrontIsGone(s, k, front, back);
    OneReplyMore(s.replies, t.replies, Serve(t, k, |front| - 1), k, front[0], ForList(t.blocked, front[1..]));
  }

  lemma {:induction false} ServeRound(s: Server, k: nat, n: nat)
    requires Keys(s) && k < |s.db| && s.db[k].ListOf? && s.waiters[k] != [] && n > 0
             && (!Mismatch(s, k) ==> s.db[k].items != [])
    ensures Keys(Round(s, k)) && |Round(s, k).db| == |s.db| && Round(s, k).db[k].ListOf?
    ensures Serve(s, k, n) == Serve(Round(s, k), k, n - 1)
  {
    RoundShape(s, k);
  }

  lemma {:induction false} NoneServed(s: Server, k: nat, front: seq<Client>, back: seq<Client>)
    requires Index(s) && k < |s.db| && s.db[k].ListOf? && s.waiters[k] == front + back && NoneForList(s, back)
    requires front == [] || (!Mismatch(s, k) && s.db[k].items == [])
    ensures Serve(s, k, |front|) == s && Orderly(s.replies, s, k, ForList(s.blocked, front))
  {
    ForListConcat(s.blocked, front, back);
    ForListNone(s, back);
    NoReplies(s, k, ForList(s.blocked, front));
  }

  /** What was replied after `before` went to a prefix of `line`. */
  ghost predicate Orderly(before: seq<Reply>, r: Server, k: nat, line: seq<Client>)
    requires k < |r.db| && k < |r.waiters|
  {
    && before <= r.replies
    && var served := ClientsOf(r.replies[|before|..]);
       && line == served + ForList(r.blocked, r.waiters[k])
       && (served != line ==> r.db[k] == ListOf([]))
  }

  lemma {:induction false} NoReplies(s: Server, k: nat, line: seq<Client>)
    requires k < |s.db| && k < |s.waiters| && line == ForList(s.blocked, s.waiters[k])
             && (line != [] ==> s.db[k] == ListOf([]))
    ensures Orderly(s.replies, s, k, line)
  {
    assert s.replies[|s.replies|..] == [];
  }

  lemma {:induction false} FrontIsGone(s: Server, k: nat, front: seq<Client>, back: seq<Client>)
    requires Index(s) && k < |s.db| && s.waiters[k] == front + back && front != []
    requires !Mismatch(s, k) && s.db[k].ListOf? && s.db[k].items != []
    ensures ForList(s.blocked, front) == [front[0]] + ForList(ServeFirst(s, k).blocked, front[1..])
    ensures exists reply: Reply :: reply.client == front[0] && ServeFirst(s, k).replies == s.replies + [reply]
  {
    assert s.waiters[k][0] == front[0];
    assert front[0] !in front[1..] by {
      assert forall i | 1 <= i < |front| :: s.waiters[k][i] == front[i];
    }
    ForListOthers(s.blocked, front[0], front[1..]);
    ServeFirstIndex(s, k);
    ServeFirstReplies(s, k);
  }

  lemma {:induction false} OneReplyMore(before: seq<Reply>, after: seq<Reply>, r: Server, k: nat, c: Client,
                                        line: seq<Client>)
    requires k < |r.db| && k < |r.waiters| && Orderly(after, r, k, line)
    requires exists reply: Reply :: reply.client == c && after == before + [reply]
    ensures Orderly(before, r, k, [c] + line)
  {
    var n := |before|;
    var served, more := ClientsOf(r.replies[n..]), ClientsOf(r.replies[n + 1..]);
    assert r.replies[n] == after[n];
    assert served == [c] + more;
    assert served != [c] + line ==> more != line;
  }

  lemma {:induction false} AfterRotate(s: Server, k: nat, front: seq<Client>, back: seq<Client>)
    requires Index(s) && k < |s.db| && s.waiters[k] == front + back && front != [] && NoneForList(s, back)
             && Mismatch(s, k)
    ensures var r := Rotate(s, k);
            Index(r) && r.waiters[k] == front[1..] + (back + [front[0]]) && NoneForList(r, back + [front[0]])
  {
    RotateKeepsIndex(s, k);
    assert (front + back)[0] == front[0] && (front + back)[1..] == front[1..] + back;
  }

  lemma {:induction false} AfterServe(s: Server, k: nat, front: seq<Client>, back: seq<Client>)
    requires Index(s) && k < |s.db| && s.waiters[k] == front + back && front != [] && NoneForList(s, back)
    requires !Mismatch(s, k) && s.db[k].ListOf? && s.db[k].items != []
    ensures var r := ServeFirst(s, k);
            Index(r) && r.waiters[k] == front[1..] + back && NoneForList(r, back)
  {
    ServeFirstIndex(s, k);
    WithoutFirst(s.waiters[k]);
    assert s.waiters[k][0] == front[0] && front[0] in s.waiters[k];
    assert (front + back)[1..] == front[1..] + back;
  }

  /** The list of waiters is never looked at when it is empty: it holds at least
      as many clients as there are rounds left. */
  lemma {:induction false} EnoughWaiters(s: Server, k: nat, n: nat)
    requires Index(s) && k < |s.db| && s.db[k].ListOf? && 0 < n <= |s.waiters[k]|
    requires !Mismatch(s, k) ==> s.db[k].items != []
    ensures n - 1 <= |Round(s, k).waiters[k]|
  {
    if !Mismatch(s, k) {
      ServeFirstIndex(s, k);
      WithoutFirst(s.waiters[k]);
      assert s.waiters[k][0] in s.waiters[k];
    }
  }

  /** Serving one ready key restores the full invariant. */
  lemma {:induction false} HandleKeyKeeps(s: Server, k: nat, todo: seq<nat>)
    requires Inv(s, [k] + todo, -1) && k < |s.db|
    ensures var r := HandleKey(s, k);
            Inv(r, todo, -1) && Progresses(s, r)
  {
    var t := s.(signaled := s.signaled - {k});
    TakenOff(s, k, todo);
    if t.db[k].ListOf? {
      var n := |t.waiters[k]|;
      ServeKeeps(t, k, n, todo);
      ServeProgresses(t, k, n);
      assert t.waiters[k] == t.waiters[k] + [];
      ServeReachesAll(t, k, t.waiters[k], []);
      Settle(Serve(t, k, n), k, todo);
    } else {
      Settle(t, k, todo);
    }
  }

  lemma {:induction false} NoRepeatTail(k: nat, q: seq<nat>)
    requires Distinct([k] + q)
    ensures Distinct(q) && k !in q
  {
    assert forall i | 0 <= i < |q| :: q[i] == ([k] + q)[i + 1];
    assert ([k] + q)[0] == k;
  }

  lemma {:induction false} TakenOff(s: Server, k: nat, todo: seq<nat>)
    requires Inv(s, [k] + todo, -1) && k < |s.db|
    ensures Inv(s.(signaled := s.signaled - {k}), todo, k)
  {
    var t := s.(signaled := s.signaled - {k});
    assert ([k] + todo) + s.ready == [k] + (todo + s.ready);
    NoRepeatTail(k, todo + s.ready);
    assert forall j :: j in [k] + (todo + s.ready) <==> j == k || j in todo + s.ready;
    forall j | 0 <= j < |t.db| && j != k && HasItems(t, j) && Waiting(t, j) ensures j in t.signaled {
      assert HasItems(s, j) && Waiting(s, j);
    }
  }

  /** After the key, it needs no exception any more. */
  lemma {:induction false} Settle(s: Server, k: nat, todo: seq<nat>)
    requires Inv(s, todo, k) && k < |s.db|
    requires !s.db[k].ListOf? || s.db[k] == ListOf([]) || NoneForList(s, s.waiters[k])
    ensures Inv(DropIfEmpty(s, k), todo, -1)
  {
    var r := DropIfEmpty(s, k);
    forall j | 0 <= j < |r.db| && HasItems(r, j) && Waiting(r, j) ensures j in r.signaled {
      var c :| c in r.waiters[j] && c in r.blocked && r.blocked[c].kind == OnList;
      if j != k {
        assert HasItems(s, j) && Waiting(s, j);
      }
    }
  }

  // ----------------------------------------------------------- conservation

  /** How often a value is in a sequence of values, in an entry, in all lists. */
  function Times(items: seq<Value>, x: Value): nat {
    if items == [] then 0 else Times(items[..|items| - 1], x) + if items[|items| - 1] == x then 1 else 0
  }

  function InEntry(e: Entry, x: Value): nat {
    if e.ListOf? then Times(e.items, x) else 0
  }

  function InLists(db: seq<Entry>, x: Value): nat {
    if db == [] then 0 else InLists(db[..|db| - 1], x) + InEntry(db[|db| - 1], x)
  }

  /** How often it was handed to a client that keeps it. */
  function InReplies(replies: seq<Reply>, x: Value): nat {
    if replies == [] then 0
    else
      var last := replies[|replies| - 1];
      InReplies(replies[..|replies| - 1], x) + if last.Popped? && last.value == x then 1 else 0
  }

  function Amount(s: Server, x: Value): nat {
    InLists(s.db, x) + InReplies(s.replies, x)
  }

  lemma {:induction false} TimesConcat(a: seq<Value>, b: seq<Value>, x: Value)
    ensures Times(a + b, x) == Times(a, x) + Times(b, x)
  {
    if b == [] {
      assert a + b == a;
    } else {
      assert (a + b)[..|a + b| - 1] == a + b[..|b| - 1];
      TimesConcat(a, b[..|b| - 1], x);
    }
  }

  lemma {:induction false} TimesOne(v: Value, x: Value)
    ensures Times([v], x) == if v == x then 1 else 0
  {
    assert [v][..0] == [];
  }

  lemma {:induction false} PushBackTimes(items: seq<Value>, v: Value, head: bool, x: Value)
    ensures Times(PushBack(items, v, head), x) == Times(items, x) + if v == x then 1 else 0
  {
    TimesOne(v, x);
    TimesConcat([v], items, x);
    TimesConcat(items, [v], x);
  }

  lemma {:induction false} PopSplits(items: seq<Value>, head: bool)
    requires items != []
    ensures PushBack(Rest(items, head), Popped1(items, head), head) == items
  {
  }

  lemma {:induction false} InListsUpdate(db: seq<Entry>, k: nat, e: Entry, x: Value)
    requires k < |db|
    ensures InLists(db[k := e], x) + InEntry(db[k], x) == InLists(db, x) + InEntry(e, x)
  {
    var front := db[..|db| - 1];
    if k == |db| - 1 {
      assert db[k := e][..|db| - 1] == front;
    } else {
      assert db[k := e][..|db| - 1] == front[k := e];
      InListsUpdate(front, k, e, x);
    }
  }

  lemma {:induction false} InRepliesMore(replies: seq<Reply>, r: Reply, x: Value)
    ensures InReplies(replies + [r], x) == InReplies(replies, x) + if r.Popped? && r.value == x then 1 else 0
  {
    assert (replies + [r])[..|replies|] == replies;
  }

  /** What is given away was in hand. */
  lemma {:induction false} GiveConserves(s: Server, c: Client, w: Wait, k: nat, v: Value, x: Value)
    requires Keys(s) && k < |s.db| && s.db[k].ListOf? && (w.target.Some? ==> w.target.value < |s.db|)
    ensures Amount(Give(s, c, w, k, v), x) == Amount(s, x) + if v == x then 1 else 0
  {
    match w.target
    case None => InRepliesMore(s.replies, Popped(c, k, v), x);
    case Some(t) =>
      InRepliesMore(s.replies, WrongType(c), x);
      InRepliesMore(s.replies, Moved(c, v), x);
      match s.db[t]
      case OtherType =>
        InListsUpdate(s.db, k, ListOf(PushBack(s.db[k].items, v, w.head)), x);
        PushBackTimes(s.db[k].items, v, w.head, x);
      case Missing =>
        InListsUpdate(s.db, t, ListOf([v]), x);
        TimesOne(v, x);
      case ListOf(items) =>
        InListsUpdate(s.db, t, ListOf([v] + items), x);
        PushBackTimes(items, v, true, x);
  }

  /** A value popped for a client is delivered once, moved once, or put back. */
  lemma {:induction false} ServeFirstConserves(s: Server, k: nat, x: Value)
    requires Keys(s) && k < |s.db| && s.waiters[k] != [] && !Mismatch(s, k)
    requires s.db[k].ListOf? && s.db[k].items != []
    ensures Amount(ServeFirst(s, k), x) == Amount(s, x)
  {
    var c, items := s.waiters[k][0], s.db[k].items;
    var w := s.blocked[c];
    var rest, v := Rest(items, w.head), Popped1(items, w.head);
    PopLoses(s.db, k, w.head, x);
    var u := Unblock(s.(db := s.db[k := ListOf(rest)]), c);
    GiveConserves(u, c, w, k, v, x);
    assert ServeFirst(s, k) == Give(u, c, w, k, v);
  }

  lemma {:induction false} PopLoses(db: seq<Entry>, k: nat, head: bool, x: Value)
    requires k < |db| && db[k].ListOf? && db[k].items != []
    ensures InLists(db[k := ListOf(Rest(db[k].items, head))], x) + (if Popped1(db[k].items, head) == x then 1 else 0)
            == InLists(db, x)
  {
    var items := db[k].items;
    InListsUpdate(db, k, ListOf(Rest(items, head)), x);
    PopSplits(items, head);
    PushBackTimes(Rest(items, head), Popped1(items, head), head, x);
  }

  /** Every client that is served gets one reply. */
  lemma {:induction false} ServeFirstReplies(s: Server, k: nat)
    requires Keys(s) && k < |s.db| && s.waiters[k] != [] && !Mismatch(s, k)
    requires s.db[k].ListOf? && s.db[k].items != []
    ensures exists r: Reply :: r.client == s.waiters[k][0] && ServeFirst(s, k).replies == s.replies + [r]
  {
    var c, items := s.waiters[k][0], s.db[k].items;
    var w := s.blocked[c];
    var v := Popped1(items, w.head);
    var r := ServeFirst(s, k);
    assert r.replies == s.replies + [Popped(c, k, v)] || r.replies == s.replies + [WrongType(c)]
           || r.replies == s.replies + [Moved(c, v)];
  }

  lemma {:induction false} ServeConserves(s: Server, k: nat, n: nat, x: Value)
    requires Keys(s) && k < |s.db| && s.db[k].ListOf?
    ensures Amount(Serve(s, k, n), x) == Amount(s, x)
    decreases n
  {
    var over, t := NextState(s, k, n);
    if !over {
      ServeConserves(t, k, n - 1, x);
    }
  }

  lemma {:induction false} RoundConserves(s: Server, k: nat, x: Value)
    requires Keys(s) && k < |s.db| && s.db[k].ListOf? && s.waiters[k] != [] && (!Mismatch(s, k) ==> s.db[k].items != [])
    ensures Amount(Round(s, k), x) == Amount(s, x)
  {
    if !Mismatch(s, k) {
      ServeFirstConserves(s, k, x);
    }
  }

  lemma {:induction false} HandleKeyConserves(s: Server, k: nat, x: Value)
    requires Keys(s) && k < |s.db|
    ensures Amount(HandleKey(s, k), x) == Amount(s, x)
  {
    var t := s.(signaled := s.signaled - {k});
    if t.db[k].ListOf? {
      var r := Serve(t, k, |t.waiters[k]|);
      ServeConserves(t, k, |t.waiters[k]|, x);
      InListsUpdate(r.db, k, Missing, x);
    }
  }

  // --------------------------------------------------------------- blocking

  function Enqueued(waiters: seq<seq<Client>>, keys: set<nat>, c: Client): seq<seq<Client>> {
    seq(|waiters|, k requires 0 <= k < |waiters| => if k in keys then waiters[k] + [c] else waiters[k])
  }

  function KeySet(keys: seq<nat>): set<nat> {
    set k | k in keys
  }

  lemma {:induction false} EnqueuedMore(waiters: seq<seq<Client>>, keys: set<nat>, c: Client, k: nat)
    requires k < |waiters| && k !in keys
    ensures Enqueued(waiters, keys + {k}, c) == Enqueued(waiters, keys, c)[k := waiters[k] + [c]]
    ensures Enqueued(waiters, keys, c)[k] == waiters[k]
  {
    assert forall i | 0 <= i < |waiters| ::
        Enqueued(waiters, keys + {k}, c)[i] == Enqueued(waiters, keys, c)[k := waiters[k] + [c]][i];
  }

  /** blockForKeys. */
  function Block(s: Server, c: Client, w: Wait): Server {
    s.(waiters := Enqueued(s.waiters, w.keys, c), blocked := s.blocked[c := w])
  }

  lemma {:induction false} BlockKeepsIndex(s: Server, c: Client, w: Wait)
    requires Index(s) && c !in s.blocked && w.keys != {} && (forall k | k in w.keys :: k < |s.waiters|)
    requires w.target.Some? ==> w.target.value < |s.db|
    ensures Index(Block(s, c, w))
  {
    var t := Block(s, c, w);
    forall k | 0 <= k < |s.waiters|
      ensures Distinct(t.waiters[k]) && forall x :: x in t.waiters[k] <==> x in s.waiters[k] || (x == c && k in w.keys)
    {
      assert c !in s.waiters[k];
    }
  }

  /** A client that blocks because all its keys are empty breaks nothing. */
  lemma {:induction false} BlockKeepsInv(s: Server, c: Client, w: Wait)
    requires Inv(s, [], -1) && c !in s.blocked && w.keys != {} && (forall k | k in w.keys :: k < |s.waiters|)
    requires w.target.Some? ==> w.target.value < |s.db|
    requires w.kind == OnList ==> forall k | k in w.keys :: !HasItems(s, k)
    ensures Inv(Block(s, c, w), [], -1)
  {
    BlockKeepsIndex(s, c, w);
    var t := Block(s, c, w);
    forall j | 0 <= j < |t.db| && HasItems(t, j) && Waiting(t, j) ensures j in t.signaled {
      var x :| x in t.waiters[j] && x in t.blocked && t.blocked[x].kind == OnList;
      assert HasItems(s, j);
      assert x in s.waiters[j] || (x == c && j in w.keys);
      if x in s.waiters[j] {
        assert x in s.blocked && x != c;
        assert Waiting(s, j);
      }
    }
  }

  /** The values pushed one by one at the head or at the tail. */
  function PushAll(items: seq<Value>, values: seq<Value>, head: bool): (r: seq<Value>)
    ensures |r| == |items| + |values|
    decreases |values|
  {
    if values == [] then items else PushAll(PushBack(items, values[0], head), values[1..], head)
  }

  /** A push by a command: a list that appears is signaled. */
  function Push(s: Server, k: nat, values: seq<Value>, head: bool): Server
    requires Keys(s) && k < |s.db|
  {
    match s.db[k]
    case Missing => if values == [] then s else Signal(s, k).(db := s.db[k := ListOf(PushAll([], values, head))])
    case ListOf(items) => s.(db := s.db[k := ListOf(PushAll(items, values, head))])
    case OtherType => s
  }

  lemma {:induction false} PushKeepsInv(s: Server, k: nat, values: seq<Value>, head: bool)
    requires Inv(s, [], -1) && k < |s.db|
    ensures Inv(Push(s, k, values, head), [], -1)
  {
    SignalPending(s, k, []);
    var t := Push(s, k, values, head);
    SameIndex(s, t);
    assert s.db[k] != ListOf([]);
    forall j | 0 <= j < |t.db| && HasItems(t, j) && Waiting(t, j) ensures j in t.signaled {
      StillWaiting(s, t, j);
      assert j != k ==> HasItems(s, j);
      assert s.db[k].ListOf? ==> HasItems(s, k);
    }
  }

  /** A command that deletes a key or gives it a value of another type. */
  lemma {:induction false} ReplaceKeepsInv(s: Server, k: nat, e: Entry)
    requires Inv(s, [], -1) && k < |s.db| && !e.ListOf?
    ensures Inv(s.(db := s.db[k := e]), [], -1)
  {
    var t := s.(db := s.db[k := e]);
    SameIndex(s, t);
    forall j | 0 <= j < |t.db| && HasItems(t, j) && Waiting(t, j) ensures j in t.signaled {
      StillWaiting(s, t, j);
      assert HasItems(s, j);
    }
  }

  /** A command that stores a whole list (genericSetKey): a key that was there is
      overwritten, and then nobody is told. */
  function Store(s: Server, k: nat, items: seq<Value>): Server
    requires Keys(s) && k < |s.db|
  {
    if s.db[k] == Missing then Signal(s, k).(db := s.db[k := ListOf(items)])
    else s.(db := s.db[k := ListOf(items)])
  }

  /** Storing keeps the invariant if and only if it does not put the list in place
      of another type while a client waits for one and the key is not signaled. */
  lemma {:induction false} StoreKeepsInvIff(s: Server, k: nat, items: seq<Value>)
    requires Inv(s, [], -1) && k < |s.db| && items != []
    ensures Inv(Store(s, k, items), [], -1) <==> !(s.db[k] == OtherType && Waiting(s, k) && k !in s.signaled)
  {
    var t := Store(s, k, items);
    SignalPending(s, k, []);
    SameIndex(s, t);
    assert s.db[k] != ListOf([]);
    if s.db[k] == OtherType && Waiting(s, k) && k !in s.signaled {
      StillWaiting(t, s, k);
      assert HasItems(t, k);
    } else {
      forall j | 0 <= j < |t.db| && HasItems(t, j) && Waiting(t, j) ensures j in t.signaled {
        StillWaiting(s, t, j);
        assert j != k ==> HasItems(s, j);
        assert s.db[k].ListOf? ==> HasItems(s, k);
      }
    }
  }

  /** BLPOP on a missing key, SET of the key, SORT with STORE into it: the client is
      left waiting for a list that has an element, and no key is ready. */
  lemma {:induction false} NobodyTold(v: Value)
    ensures var w := Wait(OnList, {0}, true, None);
            var start := Server([Missing], [[]], map[], [], {}, [], []);
            var blocked := Block(start, 7, w);
            var other := blocked.(db := blocked.db[0 := OtherType]);
            var end := Store(other, 0, [v]);
            && Inv(start, [], -1) && Inv(blocked, [], -1) && Inv(other, [], -1)
            && end.ready == [] && HasItems(end, 0) && Waiting(end, 0)
  {
    var w := Wait(OnList, {0}, true, None);
    var start := Server([Missing], [[]], map[], [], {}, [], []);
    EmptyServer(start);
    var blocked := Block(start, 7, w);
    BlockKeepsInv(start, 7, w);
    Blocks(start, 7, w, 0);
    ReplaceKeepsInv(blocked, 0, OtherType);
    var other := blocked.(db := blocked.db[0 := OtherType]);
    StillWaiting(other, blocked, 0);
    StillWaiting(Store(other, 0, [v]), other, 0);
  }

  lemma {:induction false} EmptyServer(s: Server)
    requires |s.db| == |s.waiters| && s.blocked == map[] && s.ready == [] && s.signaled == {}
    requires forall k | 0 <= k < |s.db| :: s.waiters[k] == [] && s.db[k] == Missing
    ensures Inv(s, [], -1)
  {
  }

  lemma {:induction false} Blocks(s: Server, c: Client, w: Wait, k: nat)
    requires k < |s.waiters| && k in w.keys && w.kind == OnList
    ensures Waiting(Block(s, c, w), k)
  {
    var t := Block(s, c, w);
    assert t.waiters[k] == s.waiters[k] + [c];
    assert c in t.waiters[k];
  }

  lemma {:induction false} StillWaiting(s: Server, t: Server, j: nat)
    requires j < |s.waiters| && t.waiters == s.waiters && t.blocked == s.blocked && Waiting(t, j)
    ensures Waiting(s, j)
  {
  }

  // -------------------------------------------------------------- scheduler

  class Scheduler {
    var db: seq<Entry>
    var waiters: seq<seq<Client>>
    var blocked: map<Client, Wait>
    var ready: seq<nat>
    var signaled: set<nat>
    var unblocked: seq<Client>
    var replies: seq<Reply>

    ghost function State(): Server
      reads this
    {
      Server(db, waiters, blocked, ready, signaled, unblocked, replies)
    }

    constructor (keys: nat)
      ensures Inv(State(), [], -1) && |db| == keys && blocked == map[]
    {
      db := seq(keys, _ => Missing);
      waiters := seq(keys, _ => []);
      blocked, ready, signaled, unblocked, replies := map[], [], {}, [], [];
    }

    /** blockForKeys; a key named twice counts once. */
    method BlockForKeys(c: Client, kind: Kind, keys: seq<nat>, head: bool, target: Option<nat>)
      requires Index(State()) && c !in blocked && (forall k | k in keys :: k < |waiters|)
      modifies `waiters, `blocked
      ensures State() == Block(old(State()), c, Wait(kind, KeySet(keys), head, target))
    {
      var seen: set<nat> := {};
      ghost var was := waiters;
      for j := 0 to |keys|
        invariant seen == KeySet(keys[..j]) && blocked == old(blocked)
        invariant waiters == Enqueued(was, seen, c)
      {
        assert keys[j] in keys;
        assert keys[..j + 1] == keys[..j] + [keys[j]];
        if keys[j] !in seen {
          EnqueuedMore(was, seen, c, keys[j]);
          waiters := waiters[keys[j] := waiters[keys[j]] + [c]];
          seen := seen + {keys[j]};
        }
      }
      assert keys[..|keys|] == keys;
      blocked := blocked[c := Wait(kind, seen, head, target)];
    }

    /** unblockClient: the assertions on the client's keys and lists hold. */
    method UnblockClient(c: Client)
      requires Index(State()) && c in blocked
      modifies `waiters, `blocked, `unblocked
      ensures State() == Unblock(old(State()), c)
    {
      assert blocked[c].keys != {};
      RemoveWaiter(c, blocked[c].keys);
      blocked := blocked - {c};
      if c !in unblocked {
        unblocked := unblocked + [c];
      }
    }

    method RemoveWaiter(c: Client, keys: set<nat>)
      requires forall k | k in keys :: k < |waiters| && c in waiters[k]
      modifies `waiters
      ensures |waiters| == |old(waiters)|
      ensures forall k | 0 <= k < |waiters| ::
                waiters[k] == if k in keys then Without(old(waiters[k]), c) else old(waiters[k])
    {
      var rest := keys;
      while rest != {}
        invariant rest <= keys && |waiters| == |old(waiters)|
        invariant forall k | 0 <= k < |waiters| ::
                    waiters[k] == if k in keys - rest then Without(old(waiters[k]), c) else old(waiters[k])
        decreases rest
      {
        ghost var some := Member(rest);
        var k :| k in rest;
        assert waiters[k] != [];
        waiters := waiters[k := Without(waiters[k], c)];
        rest := rest - {k};
      }
    }

    /** signalKeyAsReady. */
    method SignalKeyAsReady(k: nat)
      requires k < |waiters|
      modifies `ready, `signaled
      ensures State() == Signal(old(State()), k)
    {
      if waiters[k] == [] || k in signaled {
        return;
      }
      ready := ready + [k];
      signaled := signaled + {k};
    }

    /** serveClientBlockedOnList. */
    method ServeClient(c: Client, k: nat, target: Option<nat>, v: Value) returns (ok: bool)
      requires Keys(State()) && k < |db| && db[k].ListOf? && (target.Some? ==> target.value < |db|)
      modifies `db, `ready, `signaled, `replies
      ensures ok == !(target.Some? && old(db[target.value]) == OtherType)
      ensures !ok ==> State() == old(State()).(replies := old(replies) + [WrongType(c)])
      ensures ok ==> forall head :: State() == Give(old(State()), c, Wait(OnList, {}, head, target), k, v)
    {
      if target.None? {
        replies := replies + [Popped(c, k, v)];
        return true;
      }
      var t := target.value;
      if db[t] == OtherType {
        replies := replies + [WrongType(c)];
        return false;
      }
      if db[t] == Missing {
        SignalKeyAsReady(t);
        db := db[t := ListOf([])];
      }
      db := db[t := ListOf([v] + db[t].items)];
      assert [v] + [] == [v];
      replies := replies + [Moved(c, v)];
      return true;
    }

    /** The body of the loop for a client that waits for a list. */
    method ServeReceiver(k: nat)
      requires Index(State()) && k < |db| && waiters[k] != [] && !Mismatch(State(), k)
      requires db[k].ListOf? && db[k].items != []
      modifies this
      ensures State() == ServeFirst(old(State()), k)
    {
      var c := waiters[k][0];
      var w, items := blocked[c], db[k].items;
      var v := Popped1(items, w.head);
      db := db[k := ListOf(Rest(items, w.head))];
      assert Index(State());
      UnblockClient(c);
      ghost var before := State();
      var ok := ServeClient(c, k, w.target, v);
      if ok {
        assert Give(before, c, Wait(OnList, {}, w.head, w.target), k, v) == Give(before, c, w, k, v);
      } else {
        db := db[k := ListOf(PushBack(db[k].items, v, w.head))];
      }
    }

    /** serveClientsBlockedOnListKey. The list of waiters is never empty when it
        is looked at, although unblocking its last client frees it. */
    method ServeClientsBlockedOnListKey(k: nat)
      requires Index(State()) && k < |db| && db[k].ListOf?
      modifies this
      ensures State() == DropIfEmpty(Serve(old(State()), k, |old(waiters[k])|), k)
    {
      var numclients: nat := |waiters[k]|;
      ghost var was, rounds := State(), numclients;
      while numclients > 0
        invariant Index(State()) && |db| == |was.db| && db[k].ListOf? && numclients <= |waiters[k]|
        invariant Serve(was, k, rounds) == Serve(State(), k, numclients)
        decreases numclients
      {
        var done := ServeRound(k, numclients);
        if done {
          break;
        }
        numclients := numclients - 1;
      }
      if db[k].items == [] {
        db := db[k := Missing];
      }
    }

    method ServeRound(k: nat, numclients: nat) returns (done: bool)
      requires Index(State()) && k < |db| && db[k].ListOf? && 0 < numclients <= |waiters[k]|
      modifies this
      ensures Index(State()) && |db| == |old(db)| && db[k].ListOf?
      ensures done ==> State() == old(State()) && !Mismatch(State(), k) && db[k].items == []
      ensures !done ==> (!old(Mismatch(State(), k)) ==> old(db[k].items) != []) && State() == Round(old(State()), k)
      ensures !done ==> numclients - 1 <= |waiters[k]|
    {
      assert waiters[k] != [];
      var c := waiters[k][0];
      assert c in waiters[k];
      ghost var before := State();
      done := false;
      if blocked[c].kind != OnList {
        RotateKeepsIndex(before, k);
        waiters := waiters[k := waiters[k][1..] + [c]];
      } else if db[k].items == [] {
        done := true;
      } else {
        EnoughWaiters(before, k, numclients);
        ServeFirstIndex(before, k);
        RoundShape(before, k);
        ServeReceiver(k);
      }
    }

    method HandleReadyKey(k: nat)
      requires Index(State()) && k < |db|
      modifies this
      ensures State() == HandleKey(old(State()), k)
    {
      signaled := signaled - {k};
      if db[k].ListOf? {
        ServeClientsBlockedOnListKey(k);
      }
    }

    /** handleClientsBlockedOnKeys comes to an end (every signal on the way costs
        a blocked client), no value is lost, duplicated or made up, and
        afterwards no client waits for a list that has something to pop. */
    method HandleClientsBlockedOnKeys()
      requires Inv(State(), [], -1)
      modifies this
      ensures Inv(State(), [], -1) && ready == [] && signaled == {} && |db| == |old(db)|
      ensures forall x :: Amount(State(), x) == old(Amount(State(), x))
      ensures forall c, k | c in blocked && blocked[c].kind == OnList && k in blocked[c].keys ::
                k < |db| && !HasItems(State(), k)
    {
      while ready != []
        invariant Inv(State(), [], -1) && |db| == |old(db)|
        invariant forall x :: Amount(State(), x) == old(Amount(State(), x))
        decreases blocked.Keys, |ready|
      {
        var l := ready;
        ready := [];
        assert l + [] == [] + l;
        assert Inv(State(), l, -1);
        HandleBatch(l);
      }
      assert forall j :: j !in [] + ready;
      NobodyWaits(State());
    }

    /** The inner loop, over the keys that were ready. */
    method HandleBatch(batch: seq<nat>)
      requires Inv(State(), batch, -1) && ready == []
      modifies this
      ensures Inv(State(), [], -1) && |db| == |old(db)|
      ensures forall x :: Amount(State(), x) == old(Amount(State(), x))
      ensures blocked.Keys <= old(blocked.Keys) && (blocked.Keys == old(blocked.Keys) ==> ready == [])
    {
      var l := batch;
      while l != []
        invariant Inv(State(), l, -1) && |db| == |old(db)|
        invariant forall x :: Amount(State(), x) == old(Amount(State(), x))
        invariant blocked.Keys <= old(blocked.Keys) && (blocked.Keys == old(blocked.Keys) ==> ready == [])
        decreases |l|
      {
        var k := l[0];
        assert l == [k] + l[1..];
        assert k in l + ready;
        HandleKeyKeeps(State(), k, l[1..]);
        forall x {
          HandleKeyConserves(State(), k, x);
        }
        HandleReadyKey(k);
        l := l[1..];
      }
    }
  }

  lemma {:induction false} NobodyWaits(s: Server)
    requires Inv(s, [], -1) && s.ready == []
    ensures forall c, k | c in s.blocked && s.blocked[c].kind == OnList && k in s.blocked[c].keys ::
              k < |s.db| && !HasItems(s, k)
    ensures s.signaled == {}
  {
    assert forall j :: j in s.signaled ==> j in [] + s.ready;
    forall c, k | c in s.blocked && s.blocked[c].kind == OnList && k in s.blocked[c].keys
      ensures k < |s.db| && !HasItems(s, k)
    {
      assert c in s.waiters[k];
      assert Waiting(s, k);
    }
  }
}
