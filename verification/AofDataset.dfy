/** Rewriting the dataset as commands (aof.c): strings, lists, sets and hashes
    of any size are written as SET, RPUSH, SADD and HMSET commands of at most 64
    elements, and replaying them rebuilds the dataset. */
module AofDataset {
  import opened Collections
  import opened Resp
  import opened AofRewrite

  const ITEMS_PER_COMMAND: nat := 64

  const SET: Bytes := [83, 69, 84]
  const RPUSH: Bytes := [82, 80, 85, 83, 72]
  const SADD: Bytes := [83, 65, 68, 68]
  const HMSET: Bytes := [72, 77, 83, 69, 84]
  const PEXPIREAT: Bytes := [80, 69, 88, 80, 73, 82, 69, 65, 84]

  // ------------------------------------------------ what the commands do

  datatype Value =
    | Str(text: Bytes)
    | List(items: seq<Bytes>)
    | Set(members: set<Bytes>)
    | Hash(fields: map<Bytes, Bytes>)

  datatype Entry = Entry(value: Value, expire: Option<nat>)

  /** Keys are per DB. */
  type Data = map<(nat, Bytes), Entry>

  function Lookup(d: Data, db: nat, key: Bytes): Option<Entry> {
    if (db, key) in d then Some(d[(db, key)]) else None
  }

  function Store(d: Data, db: nat, key: Bytes, e: Option<Entry>): Data {
    match e case None => d case Some(entry) => d[(db, key) := entry]
  }

  function SetOf(args: seq<Bytes>): set<Bytes> {
    set a | a in args
  }

  /** Field and value alternate. */
  function SetFields(m: map<Bytes, Bytes>, args: seq<Bytes>): map<Bytes, Bytes> {
    if |args| < 2 then m else SetFields(m, args[..|args| - 2])[args[|args| - 2] := args[|args| - 1]]
  }

  /** RPUSH, SADD and HMSET on the entry of a key; another type is left alone. */
  function Extend(e: Option<Entry>, name: Bytes, args: seq<Bytes>): Option<Entry> {
    if name == RPUSH then
      match e
      case None => Some(Entry(List(args), None))
      case Some(Entry(List(items), ex)) => Some(Entry(List(items + args), ex))
      case _ => e
    else if name == SADD then
      match e
      case None => Some(Entry(Set(SetOf(args)), None))
      case Some(Entry(Set(members), ex)) => Some(Entry(Set(members + SetOf(args)), ex))
      case _ => e
    else
      match e
      case None => Some(Entry(Hash(SetFields(map[], args)), None))
      case Some(Entry(Hash(fields), ex)) => Some(Entry(Hash(SetFields(fields, args)), ex))
      case _ => e
  }

  predicate Extends(name: Bytes) {
    name == RPUSH || name == SADD || name == HMSET
  }

  /** The commands of a rewritten file; `other` stands for all the rest. */
  function Execute(d: Data, db: nat, argv: Argv, other: (Data, nat, Argv) -> Data): Data {
    if |argv| >= 3 && Extends(argv[0]) then
      Store(d, db, argv[1], Extend(Lookup(d, db, argv[1]), argv[0], argv[2..]))
    else if |argv| == 3 && argv[0] == SET then d[(db, argv[1]) := Entry(Str(argv[2]), None)]
    else if |argv| == 3 && argv[0] == PEXPIREAT then
      (if (db, argv[1]) in d && Number(argv[2], 0) >= 0
       then d[(db, argv[1]) := d[(db, argv[1])].(expire := Some(Number(argv[2], 0)))] else d)
    else other(d, db, argv)
  }

  function DataSemantics(other: (Data, nat, Argv) -> Data): Semantics<Data> {
    Semantics(map[], (d, db, argv) => Execute(d, db, argv, other))
  }

  // ------------------------------------------------------------- chunking

  function Flatten(groups: seq<seq<Bytes>>): seq<Bytes> {
    if groups == [] then [] else Flatten(groups[..|groups| - 1]) + groups[|groups| - 1]
  }

  function Least(a: nat, b: nat): nat {
    if a < b then a else b
  }

  /** The elements in commands of at most 64. */
  function ChunkCommands(name: Bytes, key: Bytes, groups: seq<seq<Bytes>>): seq<Argv> {
    if groups == [] then []
    else
      var n := Least(ITEMS_PER_COMMAND, |groups|);
      [[name, key] + Flatten(groups[..n])] + ChunkCommands(name, key, groups[n..])
  }

  /** The beginning of a command for the next of `items` remaining elements. */
  function CommandHead(name: Bytes, key: Bytes, items: nat, width: nat): Bytes {
    Header(STAR, 2 + Least(ITEMS_PER_COMMAND, items) * width) + (Bulk(name) + Bulk(key))
  }

  /** The counter after i elements: it starts again after every full command. */
  function Count(i: nat): (r: nat)
    ensures r < ITEMS_PER_COMMAND
  {
    if i == 0 then 0 else if Count(i - 1) + 1 == ITEMS_PER_COMMAND then 0 else Count(i - 1) + 1
  }

  lemma {:induction false} CountWithin(i: nat)
    requires i <= ITEMS_PER_COMMAND
    ensures Count(i) == if i == ITEMS_PER_COMMAND then 0 else i
  {
    if i > 0 {
      CountWithin(i - 1);
    }
  }

  lemma {:induction false} CountAgain(n: nat, i: nat)
    requires n == ITEMS_PER_COMMAND
    ensures Count(n + i) == Count(i)
    decreases i
  {
    if i == 0 {
      CountWithin(n);
    } else {
      CountAgain(n, i - 1);
    }
  }

  /** What is written before element i. */
  function Opening(name: Bytes, key: Bytes, total: nat, width: nat, i: nat): Bytes
    requires i < total
  {
    if Count(i) == 0 then CommandHead(name, key, total - i, width) else []
  }

  /** What is written for element i. */
  function Piece(name: Bytes, key: Bytes, groups: seq<seq<Bytes>>, width: nat, i: nat): Bytes
    requires i < |groups|
  {
    Opening(name, key, |groups|, width, i) + Bulks(groups[i])
  }

  function Pieces(name: Bytes, key: Bytes, groups: seq<seq<Bytes>>, width: nat): seq<Bytes> {
    seq(|groups|, i requires 0 <= i < |groups| => Piece(name, key, groups, width, i))
  }

  function Concat(pieces: seq<Bytes>): Bytes {
    if pieces == [] then [] else Concat(pieces[..|pieces| - 1]) + pieces[|pieces| - 1]
  }

  /** The bytes written for the first i elements. */
  function Written(name: Bytes, key: Bytes, groups: seq<seq<Bytes>>, width: nat, i: nat): Bytes
    requires i <= |groups|
  {
    Concat(Pieces(name, key, groups, width)[..i])
  }

  lemma {:induction false} ConcatMore(pieces: seq<Bytes>, i: nat)
    requires i < |pieces|
    ensures Concat(pieces[..i + 1]) == Concat(pieces[..i]) + pieces[i]
  {
    assert pieces[..i + 1][..i] == pieces[..i];
  }

  lemma {:induction false} ConcatSplit(pieces: seq<Bytes>, n: nat, m: nat)
    requires n <= m <= |pieces|
    ensures Concat(pieces[..m]) == Concat(pieces[..n]) + Concat(pieces[n..][..m - n])
    decreases m
  {
    if n == m {
      assert pieces[n..][..0] == [];
    } else {
      ConcatSplit(pieces, n, m - 1);
      ConcatMore(pieces, m - 1);
      ConcatMore(pieces[n..], m - 1 - n);
      Regroup(Concat(pieces[..n]), Concat(pieces[n..][..m - 1 - n]), pieces[m - 1]);
    }
  }

  lemma {:induction false} WrittenMore(name: Bytes, key: Bytes, groups: seq<seq<Bytes>>, width: nat, i: nat)
    requires i < |groups|
    ensures Written(name, key, groups, width, i + 1)
            == Written(name, key, groups, width, i) + Piece(name, key, groups, width, i)
  {
    ConcatMore(Pieces(name, key, groups, width), i);
  }

  /** The loop of rewriteListObject, rewriteSetObject (one argument for each
      element) and rewriteHashObject (two): every command declares exactly as
      many arguments as it is given. */
  method RewriteObject(name: Bytes, key: Bytes, groups: seq<seq<Bytes>>, width: nat) returns (out: Bytes)
    requires forall k | 0 <= k < |groups| :: |groups[k]| == width
    ensures out == EncodeAll(ChunkCommands(name, key, groups))
  {
    var count, items := 0, |groups|;
    out := [];
    for i := 0 to |groups|
      invariant out == Written(name, key, groups, width, i)
      invariant count == Count(i) && items == |groups| - i
    {
      out := EmitElement(out, name, key, groups, width, count, items, i);
      count := NextCount(count, i);
      items := items - 1;
    }
    WrittenIsEncoded(name, key, groups, width);
  }

  method NextCount(count: nat, ghost i: nat) returns (next: nat)
    requires count == Count(i)
    ensures next == Count(i + 1)
  {
    next := count + 1;
    if next == ITEMS_PER_COMMAND {
      next := 0;
    }
  }

  method EmitElement(dst: Bytes, name: Bytes, key: Bytes, groups: seq<seq<Bytes>>, width: nat, count: nat, items: nat,
                     i: nat)
    returns (out: Bytes)
    requires i < |groups| && count == Count(i) && items == |groups| - i
    requires dst == Written(name, key, groups, width, i)
    ensures out == Written(name, key, groups, width, i + 1)
  {
    out := dst;
    if count == 0 {
      out := EmitHead(out, name, key, items, width);
    }
    assert out == dst + Opening(name, key, |groups|, width, i);
    out := EmitArguments(out, groups[i]);
    Regroup(dst, Opening(name, key, |groups|, width, i), Bulks(groups[i]));
    WrittenMore(name, key, groups, width, i);
  }

  method EmitHead(dst: Bytes, name: Bytes, key: Bytes, items: nat, width: nat) returns (out: Bytes)
    ensures out == dst + CommandHead(name, key, items, width)
  {
    var cmdItems := if items > ITEMS_PER_COMMAND then ITEMS_PER_COMMAND else items;
    var h := Header(STAR, 2 + cmdItems * width);
    out := dst + h;
    out := out + Bulk(name);
    out := out + Bulk(key);
    Regroup(dst + h, Bulk(name), Bulk(key));
    Regroup(dst, h, Bulk(name) + Bulk(key));
  }

  method EmitArguments(dst: Bytes, args: seq<Bytes>) returns (out: Bytes)
    ensures out == dst + Bulks(args)
  {
    out := dst;
    for k := 0 to |args|
      invariant out == dst + Bulks(args[..k])
    {
      assert args[..k + 1] == args[..k] + [args[k]];
      BulksAppend(args[..k], args[k]);
      Regroup(dst, Bulks(args[..k]), Bulk(args[k]));
      out := out + Bulk(args[k]);
    }
    assert args[..|args|] == args;
  }

  lemma {:induction false} FlattenAppend(groups: seq<seq<Bytes>>, g: seq<Bytes>)
    ensures Flatten(groups + [g]) == Flatten(groups) + g
  {
    assert (groups + [g])[..|groups|] == groups;
  }

  lemma {:induction false} FlattenLength(groups: seq<seq<Bytes>>, width: nat)
    requires forall k | 0 <= k < |groups| :: |groups[k]| == width
    ensures |Flatten(groups)| == |groups| * width
  {
    if groups != [] {
      FlattenLength(groups[..|groups| - 1], width);
      assert |groups| * width == (|groups| - 1) * width + width;
    }
  }

  /** Inside the first command. */
  lemma {:induction false} FirstChunk(name: Bytes, key: Bytes, groups: seq<seq<Bytes>>, width: nat, j: nat)
    requires 1 <= j <= Least(ITEMS_PER_COMMAND, |groups|)
    ensures Written(name, key, groups, width, j)
            == CommandHead(name, key, |groups|, width) + Bulks(Flatten(groups[..j]))
  {
    FlattenMore(groups, j);
    if j == 1 {
      FirstElement(name, key, groups, width);
    } else {
      FirstChunk(name, key, groups, width, j - 1);
      NextElement(name, key, groups, width, j);
      SkipEmpty(CommandHead(name, key, |groups|, width), Bulks(Flatten(groups[..j - 1])), Bulks(groups[j - 1]));
    }
  }

  lemma {:induction false} FirstElement(name: Bytes, key: Bytes, groups: seq<seq<Bytes>>, width: nat)
    requires groups != []
    ensures Bulks(Flatten(groups[..0])) == []
    ensures Written(name, key, groups, width, 1) == CommandHead(name, key, |groups|, width) + ([] + Bulks(groups[0]))
  {
    assert Written(name, key, groups, width, 0) == [];
    WrittenMore(name, key, groups, width, 0);
    assert Opening(name, key, |groups|, width, 0) == CommandHead(name, key, |groups|, width);
    EmptyFront(CommandHead(name, key, |groups|, width), Bulks(groups[0]));
  }

  lemma {:induction false} EmptyFront(a: Bytes, b: Bytes)
    ensures [] + a + b == a + ([] + b)
  {
  }

  lemma {:induction false} NextElement(name: Bytes, key: Bytes, groups: seq<seq<Bytes>>, width: nat, j: nat)
    requires 2 <= j <= Least(ITEMS_PER_COMMAND, |groups|)
    ensures Written(name, key, groups, width, j) == Written(name, key, groups, width, j - 1) + [] + Bulks(groups[j - 1])
  {
    CountWithin(j - 1);
    WrittenMore(name, key, groups, width, j - 1);
    assert Piece(name, key, groups, width, j - 1) == [] + Bulks(groups[j - 1]);
    Regroup(Written(name, key, groups, width, j - 1), [], Bulks(groups[j - 1]));
  }

  lemma {:induction false} FlattenMore(groups: seq<seq<Bytes>>, j: nat)
    requires 1 <= j <= |groups|
    ensures Bulks(Flatten(groups[..j])) == Bulks(Flatten(groups[..j - 1])) + Bulks(groups[j - 1])
  {
    assert groups[..j] == groups[..j - 1] + [groups[j - 1]];
    FlattenAppend(groups[..j - 1], groups[j - 1]);
    BulksConcat(Flatten(groups[..j - 1]), groups[j - 1]);
  }

  lemma {:induction false} SkipEmpty(a: Bytes, b: Bytes, c: Bytes)
    ensures (a + b) + [] + c == a + (b + c)
  {
  }

  lemma {:induction false} PieceShift(name: Bytes, key: Bytes, groups: seq<seq<Bytes>>, width: nat, n: nat, i: nat)
    requires n + i < |groups| && Count(n + i) == Count(i)
    ensures Piece(name, key, groups, width, n + i) == Piece(name, key, groups[n..], width, i)
  {
    OpeningShift(name, key, |groups|, width, n, i);
    assert groups[n..][i] == groups[n + i];
  }

  lemma {:induction false} OpeningShift(name: Bytes, key: Bytes, total: nat, width: nat, n: nat, i: nat)
    requires n + i < total && Count(n + i) == Count(i)
    ensures Opening(name, key, total, width, n + i) == Opening(name, key, total - n, width, i)
  {
  }

  lemma {:induction false} PiecesShift(name: Bytes, key: Bytes, groups: seq<seq<Bytes>>, width: nat, n: nat)
    requires n == ITEMS_PER_COMMAND <= |groups|
    ensures Pieces(name, key, groups, width)[n..] == Pieces(name, key, groups[n..], width)
  {
    var all, rest := Pieces(name, key, groups, width), Pieces(name, key, groups[n..], width);
    forall i | 0 <= i < |rest| ensures all[n..][i] == rest[i] {
      CountAgain(n, i);
      PieceShift(name, key, groups, width, n, i);
    }
  }

  /** After a full command the rest is written as if it were alone. */
  lemma {:induction false} LaterChunks(name: Bytes, key: Bytes, groups: seq<seq<Bytes>>, width: nat, n: nat)
    requires n <= |groups| && Pieces(name, key, groups, width)[n..] == Pieces(name, key, groups[n..], width)
    ensures Written(name, key, groups, width, |groups|)
            == Written(name, key, groups, width, n) + Written(name, key, groups[n..], width, |groups[n..]|)
  {
    ConcatSplit(Pieces(name, key, groups, width), n, |groups|);
  }

  lemma {:induction false} ChunkEncoded(name: Bytes, key: Bytes, groups: seq<seq<Bytes>>, width: nat)
    requires groups != [] && (forall k | 0 <= k < |groups| :: |groups[k]| == width)
    ensures var n := Least(ITEMS_PER_COMMAND, |groups|);
            Written(name, key, groups, width, n) == Encode([name, key] + Flatten(groups[..n]))
  {
    var n := Least(ITEMS_PER_COMMAND, |groups|);
    var args := Flatten(groups[..n]);
    FirstChunk(name, key, groups, width, n);
    FlattenLength(groups[..n], width);
    assert |[name, key] + args| == 2 + n * width;
    BulksConcat([name, key], args);
    assert [name, key] == [name] + [key];
    BulksConcat([name], [key]);
    SingleBulk(name);
    SingleBulk(key);
    Regroup(Header(STAR, 2 + n * width), Bulk(name) + Bulk(key), Bulks(args));
  }

  lemma {:induction false} SingleBulk(a: Bytes)
    ensures Bulks([a]) == Bulk(a)
  {
    assert [a][..0] == [];
    assert [] + Bulk(a) == Bulk(a);
  }

  lemma {:induction false} WrittenIsEncoded(name: Bytes, key: Bytes, groups: seq<seq<Bytes>>, width: nat)
    requires forall k | 0 <= k < |groups| :: |groups[k]| == width
    ensures Written(name, key, groups, width, |groups|) == EncodeAll(ChunkCommands(name, key, groups))
    decreases |groups|
  {
    if groups != [] {
      var n := Least(ITEMS_PER_COMMAND, |groups|);
      var first, rest := [name, key] + Flatten(groups[..n]), groups[n..];
      ChunkEncoded(name, key, groups, width);
      WrittenIsEncoded(name, key, rest, width);
      EncodeAllConcat([first], ChunkCommands(name, key, rest));
      assert [first] == [] + [first];
      EncodeAllAppend([], first);
      assert EncodeAll([first]) == Encode(first);
      if n == ITEMS_PER_COMMAND {
        PiecesShift(name, key, groups, width, n);
        LaterChunks(name, key, groups, width, n);
      } else {
        assert rest == [] && Written(name, key, groups, width, n) + [] == Written(name, key, groups, width, n);
      }
    }
  }

  // ------------------------------------------------------------ replaying

  lemma {:induction false} SetFieldsConcat(m: map<Bytes, Bytes>, a: seq<Bytes>, b: seq<Bytes>)
    requires |a| % 2 == 0 && |b| % 2 == 0
    ensures SetFields(m, a + b) == SetFields(SetFields(m, a), b)
    decreases |b|
  {
    if |b| < 2 {
      assert a + b == a;
    } else {
      assert (a + b)[..|a + b| - 2] == a + b[..|b| - 2];
      SetFieldsConcat(m, a, b[..|b| - 2]);
    }
  }

  lemma {:induction false} ExtendTwice(e: Option<Entry>, name: Bytes, a: seq<Bytes>, b: seq<Bytes>)
    requires Extends(name) && (name == HMSET ==> |a| % 2 == 0 && |b| % 2 == 0)
    ensures Extend(Extend(e, name, a), name, b) == Extend(e, name, a + b)
  {
    if name == RPUSH {
      assert forall items: seq<Bytes> :: items + a + b == items + (a + b);
    } else if name == SADD {
      assert SetOf(a + b) == SetOf(a) + SetOf(b);
      assert forall members: set<Bytes> :: members + SetOf(a) + SetOf(b) == members + SetOf(a + b);
    } else {
      SetFieldsConcat(map[], a, b);
      if e.Some? && e.value.value.Hash? {
        SetFieldsConcat(e.value.value.fields, a, b);
      }
    }
  }

  lemma {:induction false} FlattenSplit(groups: seq<seq<Bytes>>, n: nat)
    requires n <= |groups|
    ensures Flatten(groups) == Flatten(groups[..n]) + Flatten(groups[n..])
    decreases |groups| - n
  {
    if n == |groups| {
      assert groups[..n] == groups && groups[n..] == [];
    } else {
      var front := groups[..|groups| - 1];
      assert front[..n] == groups[..n] && groups[n..] == front[n..] + [groups[|groups| - 1]];
      FlattenSplit(front, n);
      FlattenAppend(front[n..], groups[|groups| - 1]);
      FlattenAgain(Flatten(groups[..n]), Flatten(front[n..]), groups[|groups| - 1]);
    }
  }

  lemma {:induction false} FlattenAgain(a: seq<Bytes>, b: seq<Bytes>, c: seq<Bytes>)
    ensures (a + b) + c == a + (b + c)
  {
  }

  lemma {:induction false} FlattenShape(groups: seq<seq<Bytes>>, width: nat)
    requires width >= 1 && (forall k | 0 <= k < |groups| :: |groups[k]| == width)
    ensures (groups != [] ==> Flatten(groups) != []) && (width == 2 ==> |Flatten(groups)| % 2 == 0)
  {
    if groups != [] {
      FlattenShape(groups[..|groups| - 1], width);
    }
  }

  lemma {:induction false} StoreTwice(d: Data, db: nat, key: Bytes, a: Option<Entry>, b: Option<Entry>)
    requires a.Some? && b.Some?
    ensures Store(Store(d, db, key, a), db, key, b) == Store(d, db, key, b)
    ensures Lookup(Store(d, db, key, a), db, key) == a
  {
  }

  lemma {:induction false} ExtendGives(e: Option<Entry>, name: Bytes, args: seq<Bytes>)
    ensures Extend(e, name, args).Some?
  {
  }

  /** One command of a chunked object. */
  lemma {:induction false} ReplayChunk(r: Replayed<Data>, name: Bytes, key: Bytes, args: seq<Bytes>,
                                       sem: Semantics<Data>, other: (Data, nat, Argv) -> Data)
    requires Extends(name) && args != [] && sem == DataSemantics(other)
    ensures ReplayFrom(r, [[name, key] + args], sem)
            == r.(data := Store(r.data, r.db, key, Extend(Lookup(r.data, r.db, key), name, args)))
  {
    var argv: Argv := [name, key] + args;
    ReplaySingle(r, argv, sem);
    assert argv[0] == name && argv[1] == key && argv[2..] == args && name != SELECT;
  }

  /** Replaying the chunks is one command with all the elements. */
  lemma {:induction false} ReplayChunks(r: Replayed<Data>, name: Bytes, key: Bytes, groups: seq<seq<Bytes>>,
                                        width: nat, sem: Semantics<Data>, other: (Data, nat, Argv) -> Data)
    requires Extends(name) && groups != [] && width >= 1 && (forall k | 0 <= k < |groups| :: |groups[k]| == width)
    requires (name == HMSET ==> width == 2) && sem == DataSemantics(other)
    ensures ReplayFrom(r, ChunkCommands(name, key, groups), sem)
            == r.(data := Store(r.data, r.db, key, Extend(Lookup(r.data, r.db, key), name, Flatten(groups))))
    decreases |groups|
  {
    var n := Least(ITEMS_PER_COMMAND, |groups|);
    var first, rest := Flatten(groups[..n]), groups[n..];
    FlattenShape(groups[..n], width);
    FlattenSplit(groups, n);
    ReplayChunk(r, name, key, first, sem, other);
    ReplayConcat(r, [[name, key] + first], ChunkCommands(name, key, rest), sem);
    if rest == [] {
      assert Flatten(groups) == first + [] == first;
    } else {
      var mid := ReplayFrom(r, [[name, key] + first], sem);
      ReplayChunks(mid, name, key, rest, width, sem, other);
      FlattenShape(rest, width);
      StoreChunks(r.data, r.db, key, name, first, Flatten(rest));
    }
  }

  lemma {:induction false} StoreChunks(d: Data, db: nat, key: Bytes, name: Bytes, a: seq<Bytes>, b: seq<Bytes>)
    requires Extends(name) && (name == HMSET ==> |a| % 2 == 0 && |b| % 2 == 0)
    ensures var mid := Store(d, db, key, Extend(Lookup(d, db, key), name, a));
            Store(mid, db, key, Extend(Lookup(mid, db, key), name, b))
              == Store(d, db, key, Extend(Lookup(d, db, key), name, a + b))
  {
    var e := Lookup(d, db, key);
    ExtendGives(e, name, a);
    ExtendTwice(e, name, a, b);
    ExtendGives(Extend(e, name, a), name, b);
    StoreTwice(d, db, key, Extend(e, name, a), Extend(e, name, a + b));
  }

  // ---------------------------------------------------------- the dataset

  /** An object as the iterators of the source deliver it: the elements of a set
      or hash in some order. */
  datatype Object =
    | StringObject(text: Bytes)
    | ListObject(items: seq<Bytes>)
    | SetObject(members: seq<Bytes>)
    | HashObject(fields: seq<(Bytes, Bytes)>)

  datatype Dumped = Dumped(key: Bytes, content: Object, expire: Option<nat>)

  datatype Database = Database(db: nat, keys: seq<Dumped>)

  function Singles(items: seq<Bytes>): seq<seq<Bytes>> {
    seq(|items|, i requires 0 <= i < |items| => [items[i]])
  }

  function Pairs(fields: seq<(Bytes, Bytes)>): seq<seq<Bytes>> {
    seq(|fields|, i requires 0 <= i < |fields| => [fields[i].0, fields[i].1])
  }

  function FieldMap(fields: seq<(Bytes, Bytes)>): map<Bytes, Bytes> {
    if fields == [] then map[]
    else FieldMap(fields[..|fields| - 1])[fields[|fields| - 1].0 := fields[|fields| - 1].1]
  }

  function Meaning(o: Object): Value {
    match o
    case StringObject(text) => Str(text)
    case ListObject(items) => List(items)
    case SetObject(members) => Set(SetOf(members))
    case HashObject(fields) => Hash(FieldMap(fields))
  }

  /** A key never holds an empty list, set or hash. */
  predicate NonEmpty(o: Object) {
    match o
    case StringObject(_) => true
    case ListObject(items) => items != []
    case SetObject(members) => members != []
    case HashObject(fields) => fields != []
  }

  function ObjectCommands(key: Bytes, o: Object): seq<Argv> {
    match o
    case StringObject(text) => [[SET, key, text]]
    case ListObject(items) => ChunkCommands(RPUSH, key, Singles(items))
    case SetObject(members) => ChunkCommands(SADD, key, Singles(members))
    case HashObject(fields) => ChunkCommands(HMSET, key, Pairs(fields))
  }

  function KeyCommands(k: Dumped): seq<Argv> {
    ObjectCommands(k.key, k.content)
      + (match k.expire case None => [] case Some(at) => [[PEXPIREAT, k.key, Decimal(at)]])
  }

  function KeysCommands(keys: seq<Dumped>): seq<Argv> {
    if keys == [] then [] else KeysCommands(keys[..|keys| - 1]) + KeyCommands(keys[|keys| - 1])
  }

  /** rewriteAppendOnlyFileRio: DBs without keys are skipped. */
  function DatasetCommands(dbs: seq<Database>): seq<Argv> {
    if dbs == [] then []
    else
      var last := dbs[|dbs| - 1];
      DatasetCommands(dbs[..|dbs| - 1])
        + if last.keys == [] then [] else [SelectCommand(last.db)] + KeysCommands(last.keys)
  }

  function AddKeys(d: Data, db: nat, keys: seq<Dumped>): Data {
    if keys == [] then d
    else
      var k := keys[|keys| - 1];
      AddKeys(d, db, keys[..|keys| - 1])[(db, k.key) := Entry(Meaning(k.content), k.expire)]
  }

  function DatasetOf(dbs: seq<Database>): Data {
    if dbs == [] then map[] else AddKeys(DatasetOf(dbs[..|dbs| - 1]), dbs[|dbs| - 1].db, dbs[|dbs| - 1].keys)
  }

  /** Every DB once, every key of a DB once. */
  predicate WellFormed(dbs: seq<Database>) {
    && (forall i, j | 0 <= i < j < |dbs| :: dbs[i].db != dbs[j].db)
    && (forall i | 0 <= i < |dbs| :: DistinctKeys(dbs[i].keys))
  }

  predicate DistinctKeys(keys: seq<Dumped>) {
    && (forall i, j | 0 <= i < j < |keys| :: keys[i].key != keys[j].key)
    && (forall i | 0 <= i < |keys| :: NonEmpty(keys[i].content))
  }

  lemma {:induction false} SinglesFlat(items: seq<Bytes>)
    ensures Flatten(Singles(items)) == items
  {
    if items != [] {
      var front := items[..|items| - 1];
      assert Singles(items) == Singles(front) + [[items[|items| - 1]]];
      FlattenAppend(Singles(front), [items[|items| - 1]]);
      SinglesFlat(front);
    }
  }

  lemma {:induction false} PairsFlat(fields: seq<(Bytes, Bytes)>)
    ensures SetFields(map[], Flatten(Pairs(fields))) == FieldMap(fields)
  {
    if fields != [] {
      var front, last := fields[..|fields| - 1], fields[|fields| - 1];
      assert Pairs(fields) == Pairs(front) + [[last.0, last.1]];
      FlattenAppend(Pairs(front), [last.0, last.1]);
      PairsFlat(front);
      var flat := Flatten(Pairs(front));
      assert (flat + [last.0, last.1])[..|flat|] == flat;
    }
  }

  /** The commands of an object rebuild it under a key that was free. */
  lemma {:induction false} ObjectRebuilt(r: Replayed<Data>, key: Bytes, o: Object, sem: Semantics<Data>,
                                         other: (Data, nat, Argv) -> Data)
    requires sem == DataSemantics(other) && NonEmpty(o) && (r.db, key) !in r.data
    ensures ReplayFrom(r, ObjectCommands(key, o), sem) == r.(data := r.data[(r.db, key) := Entry(Meaning(o), None)])
  {
    match o
    case StringObject(text) =>
      ReplaySingle(r, [SET, key, text], sem);
    case ListObject(items) =>
      ReplayChunks(r, RPUSH, key, Singles(items), 1, sem, other);
      SinglesFlat(items);
    case SetObject(members) =>
      ReplayChunks(r, SADD, key, Singles(members), 1, sem, other);
      SinglesFlat(members);
    case HashObject(fields) =>
      ReplayChunks(r, HMSET, key, Pairs(fields), 2, sem, other);
      PairsFlat(fields);
  }

  lemma {:induction false} ExpireSet(d: Data, db: nat, key: Bytes, at: nat, other: (Data, nat, Argv) -> Data)
    requires (db, key) in d
    ensures Execute(d, db, [PEXPIREAT, key, Decimal(at)], other) == d[(db, key) := d[(db, key)].(expire := Some(at))]
  {
    SelectedNumber(at);
    assert |PEXPIREAT| == 9 && !Extends(PEXPIREAT) && PEXPIREAT != SET;
  }

  lemma {:induction false} KeyRebuilt(r: Replayed<Data>, k: Dumped, sem: Semantics<Data>,
                                      other: (Data, nat, Argv) -> Data)
    requires sem == DataSemantics(other) && NonEmpty(k.content) && (r.db, k.key) !in r.data
    ensures ReplayFrom(r, KeyCommands(k), sem)
            == r.(data := r.data[(r.db, k.key) := Entry(Meaning(k.content), k.expire)])
  {
    ObjectRebuilt(r, k.key, k.content, sem, other);
    var mid := r.(data := r.data[(r.db, k.key) := Entry(Meaning(k.content), None)]);
    match k.expire
    case None => assert ObjectCommands(k.key, k.content) + [] == ObjectCommands(k.key, k.content);
    case Some(at) =>
      var argv: Argv := [PEXPIREAT, k.key, Decimal(at)];
      ReplayConcat(r, ObjectCommands(k.key, k.content), [argv], sem);
      SelectedNumber(at);
      ReplaySingle(mid, argv, sem);
      ExpireSet(mid.data, mid.db, k.key, at, other);
      assert ReplayFrom(r, KeyCommands(k), sem) == ReplayOne(mid, argv, sem);
      assert sem.apply(mid.data, mid.db, argv) == r.data[(r.db, k.key) := Entry(Meaning(k.content), Some(at))];
  }

  lemma {:induction false} KeysRebuilt(r: Replayed<Data>, keys: seq<Dumped>, sem: Semantics<Data>,
                                       other: (Data, nat, Argv) -> Data)
    requires sem == DataSemantics(other) && DistinctKeys(keys)
    requires forall i | 0 <= i < |keys| :: (r.db, keys[i].key) !in r.data
    ensures ReplayFrom(r, KeysCommands(keys), sem) == r.(data := AddKeys(r.data, r.db, keys))
    decreases |keys|
  {
    if keys != [] {
      var front, last := keys[..|keys| - 1], keys[|keys| - 1];
      KeysRebuilt(r, front, sem, other);
      ReplayConcat(r, KeysCommands(front), KeyCommands(last), sem);
      AddedKeys(r.data, r.db, front);
      KeyRebuilt(r.(data := AddKeys(r.data, r.db, front)), last, sem, other);
    }
  }

  lemma {:induction false} AddedKeys(d: Data, db: nat, keys: seq<Dumped>)
    ensures forall x ::
              x in AddKeys(d, db, keys) <==> x in d || (x.0 == db && exists i :: 0 <= i < |keys| && keys[i].key == x.1)
    decreases |keys|
  {
    if keys != [] {
      var front := keys[..|keys| - 1];
      AddedKeys(d, db, front);
      assert keys == front + [keys[|keys| - 1]];
    }
  }

  lemma {:induction false} DatabasesSeen(dbs: seq<Database>)
    ensures forall x :: x in DatasetOf(dbs) ==> exists i :: 0 <= i < |dbs| && dbs[i].db == x.0
  {
    if dbs != [] {
      var front, last := dbs[..|dbs| - 1], dbs[|dbs| - 1];
      DatabasesSeen(front);
      AddedKeys(DatasetOf(front), last.db, last.keys);
      forall x | x in DatasetOf(dbs) ensures exists i :: 0 <= i < |dbs| && dbs[i].db == x.0 {
        if x in DatasetOf(front) {
          var i :| 0 <= i < |front| && front[i].db == x.0;
          assert dbs[i].db == x.0;
        }
      }
    }
  }

  /** Replaying what the child writes rebuilds the dataset it was forked with,
      whatever its objects and their sizes. */
  lemma {:induction false} DatasetRebuilt(dbs: seq<Database>, sem: Semantics<Data>, other: (Data, nat, Argv) -> Data)
    requires sem == DataSemantics(other) && WellFormed(dbs)
    ensures Replay(DatasetCommands(dbs), sem).data == DatasetOf(dbs)
  {
    if dbs != [] {
      var front, last := dbs[..|dbs| - 1], dbs[|dbs| - 1];
      DatasetRebuilt(front, sem, other);
      var before := Replay(DatasetCommands(front), sem);
      if last.keys == [] {
        assert DatasetCommands(front) + [] == DatasetCommands(front);
      } else {
        DatabaseRebuilt(before, front, last, sem, other);
        ReplayConcat(Replayed(0, sem.empty), DatasetCommands(front),
                     [SelectCommand(last.db)] + KeysCommands(last.keys), sem);
      }
    }
  }

  lemma {:induction false} DatabaseRebuilt(r: Replayed<Data>, front: seq<Database>, last: Database,
                                           sem: Semantics<Data>, other: (Data, nat, Argv) -> Data)
    requires sem == DataSemantics(other) && DistinctKeys(last.keys) && r.data == DatasetOf(front)
    requires forall i | 0 <= i < |front| :: front[i].db != last.db
    ensures ReplayFrom(r, [SelectCommand(last.db)] + KeysCommands(last.keys), sem)
            == Replayed(last.db, AddKeys(r.data, last.db, last.keys))
  {
    var select := [SelectCommand(last.db)];
    ReplayConcat(r, select, KeysCommands(last.keys), sem);
    SelectedNumber(last.db);
    ReplaySingle(r, SelectCommand(last.db), sem);
    DatabasesSeen(front);
    KeysRebuilt(r.(db := last.db), last.keys, sem, other);
  }

  /** So a fork may take what the source writes as the child's snapshot. */
  lemma {:induction false} DumpIsSnapshot(s: Server<Data>, dbs: seq<Database>, sem: Semantics<Data>,
                                          other: (Data, nat, Argv) -> Data)
    requires sem == DataSemantics(other) && WellFormed(dbs) && s.live == DatasetOf(dbs) && s.child.None?
    requires forall k | 0 <= k < |DatasetCommands(dbs)| :: Fits(DatasetCommands(dbs)[k])
    ensures Enabled(s, Fork(DatasetCommands(dbs)), sem)
  {
    DatasetRebuilt(dbs, sem, other);
  }
}
