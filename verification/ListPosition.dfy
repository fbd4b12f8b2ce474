/** Positions of the replicated list (list_basics.c, t_rwflist.c). An element
    gets an identifier between those of its neighbours; every replica keeps its
    elements sorted by identifier, whatever the order the inserts arrive in. */
module ListPosition {
  import opened Collections

  datatype Position = Position(pos: int, pid: int, count: int)

  type Leid = seq<Position>

  const BASE := 0x100_0000
  const RDM_STEP := 128

  // ------------------------------------------------------------------ order

  /** pos_cmp */
  function PosCmp(a: Position, b: Position): (r: int) {
    if a.pos != b.pos then a.pos - b.pos
    else if a.pid != b.pid then a.pid - b.pid
    else a.count - b.count
  }

  /** Identifiers agree below k. */
  predicate Agree(a: Leid, b: Leid, k: nat) {
    k <= |a| && k <= |b| && forall i | 0 <= i < k :: a[i] == b[i]
  }

  /** The identifiers part at k, and a is the smaller one there; running out
      first counts as smaller. */
  predicate SplitsAt(a: Leid, b: Leid, k: nat) {
    Agree(a, b, k) && k < |b| && (k == |a| || PosCmp(a[k], b[k]) < 0)
  }

  ghost predicate Less(a: Leid, b: Leid) {
    exists k: nat :: SplitsAt(a, b, k)
  }

  /** leid_cmp */
  method LeidCmp(a: Leid, b: Leid) returns (c: int)
    ensures c < 0 <==> Less(a, b)
    ensures c > 0 <==> Less(b, a)
    ensures c == 0 <==> a == b
  {
    var n := if |a| < |b| then |a| else |b|;
    var i := 0;
    while i < n && PosCmp(a[i], b[i]) == 0
      invariant 0 <= i <= n && Agree(a, b, i)
    {
      i := i + 1;
    }
    SplitDecides(a, b, i);
    if i == n {
      c := |a| - |b|;
    } else {
      c := PosCmp(a[i], b[i]);
    }
  }

  /** Where two identifiers stop agreeing decides between them. */
  lemma {:induction false} SplitDecides(a: Leid, b: Leid, i: nat)
    requires Agree(a, b, i) && (i < |a| && i < |b| ==> a[i] != b[i])
    ensures Less(a, b) <==> SplitsAt(a, b, i)
    ensures Less(b, a) <==> SplitsAt(b, a, i)
    ensures a == b <==> i == |a| == |b|
  {
    SplitUnique(a, b, i);
    SplitUnique(b, a, i);
  }

  lemma {:induction false} SplitUnique(a: Leid, b: Leid, i: nat)
    requires Agree(a, b, i) && (i < |a| && i < |b| ==> a[i] != b[i])
    ensures forall k: nat | SplitsAt(a, b, k) :: k == i
  {
  }

  lemma {:induction false} LessIrreflexive(a: Leid)
    ensures !Less(a, a)
  {
    SplitDecides(a, a, |a|);
  }

  lemma {:induction false} LessTransitive(a: Leid, b: Leid, c: Leid)
    requires Less(a, b) && Less(b, c)
    ensures Less(a, c)
  {
    var i: nat :| SplitsAt(a, b, i);
    var j: nat :| SplitsAt(b, c, j);
    var k := if i < j then i else j;
    assert SplitsAt(a, c, k);
  }

  lemma {:induction false} LessTotal(a: Leid, b: Leid)
    ensures Less(a, b) || Less(b, a) || a == b
  {
    var i := CommonPrefix(a, b);
    SplitDecides(a, b, i);
  }

  function CommonPrefix(a: Leid, b: Leid): (k: nat)
    ensures Agree(a, b, k) && (k < |a| && k < |b| ==> a[k] != b[k])
  {
    if a == [] || b == [] || a[0] != b[0] then 0
    else
      var k := 1 + CommonPrefix(a[1..], b[1..]);
      assert forall i | 1 <= i < k :: a[i] == a[1..][i - 1] && b[i] == b[1..][i - 1];
      k
  }

  lemma {:induction false} LessAsymmetric(a: Leid, b: Leid)
    requires Less(a, b)
    ensures !Less(b, a)
  {
    if Less(b, a) {
      LessTransitive(a, b, a);
      LessIrreflexive(a);
    }
  }

  // ----------------------------------------------------------- construction

  function LPrefix(p: Option<Leid>, i: nat): int {
    if p.None? || i >= |p.value| then 0 else p.value[i].pos
  }

  function RPrefix(q: Option<Leid>, i: nat): int {
    if q.None? || i >= |q.value| then BASE else q.value[i].pos
  }

  function Extent(p: Option<Leid>): nat {
    if p.None? then 0 else |p.value|
  }

  /** The first level at which there is room strictly between the neighbours. */
  function Level(p: Option<Leid>, q: Option<Leid>, i: nat): (k: nat)
    ensures k >= i && RPrefix(q, k) - LPrefix(p, k) >= 2
    ensures forall m | i <= m < k :: RPrefix(q, m) - LPrefix(p, m) < 2
    decreases Extent(p) + Extent(q) - i
  {
    if RPrefix(q, i) - LPrefix(p, i) >= 2 then i else Level(p, q, i + 1)
  }

  /** The components copied in front of the new one. */
  function Filler(p: Option<Leid>, q: Option<Leid>, i: nat, id: int, count: int): Position {
    if p.None? then Position(0, 0, 0)
    else if i < |p.value| then p.value[i]
    else if q.Some? && i < |q.value| then q.value[i]
    else Position(0, id, count)
  }

  /** The random distance from the left neighbour. */
  function Stride(left: int, right: int, rand: nat): (step: int)
    requires right - left >= 2
    ensures left < left + step + 1 < right
  {
    var step := right - left - 2;
    if step == 0 then 0 else if step < RDM_STEP then rand % step else rand % RDM_STEP
  }

  function Construct(p: Option<Leid>, q: Option<Leid>, id: int, count: int, rand: nat): (r: Leid)
    ensures |r| == Level(p, q, 0) + 1
  {
    var index := Level(p, q, 0);
    var left, right := LPrefix(p, index), RPrefix(q, index);
    seq(index, i requires 0 <= i < index => Filler(p, q, i, id, count))
      + [Position(left + Stride(left, right, rand) + 1, id, count)]
  }

  /** constructLeid; the count is the sum of the list's clock. */
  method ConstructLeid(p: Option<Leid>, q: Option<Leid>, clock: seq<int>, id: int, rand: nat) returns (r: Leid)
    ensures r == Construct(p, q, id, Sum(clock), rand)
  {
    var count := SumOf(clock);
    var index := 0;
    while RPrefix(q, index) - LPrefix(p, index) < 2
      invariant Level(p, q, 0) == Level(p, q, index)
      decreases Extent(p) + Extent(q) - index
    {
      index := index + 1;
    }
    var left, right := LPrefix(p, index), RPrefix(q, index);
    r := CopyPrefix(p, q, index, id, count);
    r := r + [Position(left + Stride(left, right, rand) + 1, id, count)];
  }

  method SumOf(clock: seq<int>) returns (count: int)
    ensures count == Sum(clock)
  {
    count := 0;
    for i := 0 to |clock|
      invariant count == Sum(clock[..i])
    {
      assert clock[..i + 1][..i] == clock[..i];
      count := count + clock[i];
    }
    assert clock[..|clock|] == clock;
  }

  method CopyPrefix(p: Option<Leid>, q: Option<Leid>, index: nat, id: int, count: int) returns (r: Leid)
    ensures r == seq(index, i requires 0 <= i < index => Filler(p, q, i, id, count))
  {
    r := [];
    for i := 0 to index
      invariant |r| == i
      invariant forall k | 0 <= k < i :: r[k] == Filler(p, q, k, id, count)
    {
      r := r + [Filler(p, q, i, id, count)];
    }
  }

  function Sum(s: seq<int>): int {
    if s == [] then 0 else Sum(s[..|s| - 1]) + s[|s| - 1]
  }

  /** Identifiers in use: no negative field, and a last component to the right
      of zero. */
  predicate Valid(a: Leid) {
    && a != [] && a[|a| - 1].pos >= 1
    && (forall i | 0 <= i < |a| :: 0 <= a[i].pos < BASE && 0 <= a[i].pid && 0 <= a[i].count)
  }

  predicate Neighbours(p: Option<Leid>, q: Option<Leid>) {
    (p.Some? ==> Valid(p.value)) && (q.Some? ==> Valid(q.value))
  }

  lemma {:induction false} ConstructValid(p: Option<Leid>, q: Option<Leid>, id: nat, count: nat, rand: nat)
    requires Neighbours(p, q)
    ensures Valid(Construct(p, q, id, count, rand))
  {
    var index := Level(p, q, 0);
    assert RPrefix(q, index) <= BASE && 0 <= LPrefix(p, index);
  }

  /** The new identifier always lies to the right of its left neighbour. */
  lemma {:induction false} RightOfLeft(p: Leid, q: Option<Leid>, id: int, count: int, rand: nat)
    ensures Less(p, Construct(Some(p), q, id, count, rand))
  {
    var r := Construct(Some(p), q, id, count, rand);
    var index := Level(Some(p), q, 0);
    var k := if index < |p| then index else |p|;
    assert SplitsAt(p, r, k);
  }

  /** The left neighbour is a prefix of the right one, and what the right one
      adds leaves no room: all further components are at most 1. */
  predicate Squeezed(p: Option<Leid>, q: Option<Leid>) {
    && p.Some? && q.Some? && |p.value| < |q.value| && q.value[..|p.value|] == p.value
    && forall i | |p.value| <= i < |q.value| :: q.value[i].pos <= 1
  }

  /** It lies to the left of its right neighbour exactly when the right
      neighbour is not squeezed against the left one. */
  lemma {:induction false} LeftOfRight(p: Option<Leid>, q: Leid, id: nat, count: nat, rand: nat)
    requires Neighbours(p, Some(q)) && (p.Some? ==> Less(p.value, q))
    ensures Less(Construct(p, Some(q), id, count, rand), q) <==> !Squeezed(p, Some(q))
    ensures Less(q, Construct(p, Some(q), id, count, rand)) <==> Squeezed(p, Some(q))
  {
    if Less(Construct(p, Some(q), id, count, rand), q) {
      LessAsymmetric(Construct(p, Some(q), id, count, rand), q);
    }
    if p.None? {
      LeftOfFirst(q, id, count, rand);
    } else {
      var d: nat :| SplitsAt(p.value, q, d);
      if d < |p.value| {
        LeftOfDiverging(p.value, q, d, id, count, rand);
      } else {
        assert q[..d] == p.value;
        LeftOfExtension(p.value, q, id, count, rand);
      }
    }
  }

  lemma {:induction false} LeftOfFirst(q: Leid, id: nat, count: nat, rand: nat)
    requires Valid(q)
    ensures Less(Construct(None, Some(q), id, count, rand), q)
  {
    var r := Construct(None, Some(q), id, count, rand);
    var index := Level(None, Some(q), 0);
    var k := CommonPrefix(r, q);
    var m := if index < |q| then index else |q| - 1;
    assert r[m] != q[m];
    assert k < index ==> r[k] == Position(0, 0, 0);
    assert SplitsAt(r, q, k);
  }

  lemma {:induction false} LeftOfDiverging(p: Leid, q: Leid, d: nat, id: nat, count: nat, rand: nat)
    requires SplitsAt(p, q, d) && d < |p|
    ensures Less(Construct(Some(p), Some(q), id, count, rand), q) && !Squeezed(Some(p), Some(q))
  {
    var r := Construct(Some(p), Some(q), id, count, rand);
    var index := Level(Some(p), Some(q), 0);
    assert forall i | 0 <= i < d :: RPrefix(Some(q), i) - LPrefix(Some(p), i) == 0;
    assert SplitsAt(r, q, d);
    assert |p| < |q| ==> q[..|p|][d] != p[d];
  }

  lemma {:induction false} LeftOfExtension(p: Leid, q: Leid, id: nat, count: nat, rand: nat)
    requires |p| < |q| && q[..|p|] == p && Valid(p) && Valid(q)
    ensures Less(Construct(Some(p), Some(q), id, count, rand), q) <==> !Squeezed(Some(p), Some(q))
    ensures Squeezed(Some(p), Some(q)) ==> Less(q, Construct(Some(p), Some(q), id, count, rand))
  {
    var r := Construct(Some(p), Some(q), id, count, rand);
    var index := Level(Some(p), Some(q), 0);
    forall i | 0 <= i < |p| ensures q[i] == p[i] {
      assert q[..|p|][i] == p[i];
    }
    assert index >= |p|;
    assert forall i | 0 <= i < index && i < |q| :: r[i] == q[i];
    if index < |q| {
      assert SplitsAt(r, q, index);
    } else {
      assert RPrefix(Some(q), |q|) - LPrefix(Some(p), |q|) == BASE;
      assert SplitsAt(q, r, |q|);
      LessAsymmetric(q, r);
      forall i | |p| <= i < |q| ensures q[i].pos <= 1 {
        assert RPrefix(Some(q), i) - LPrefix(Some(p), i) < 2;
      }
    }
  }

  /** A list on which constructLeid breaks its own promise: the new identifier
      should lie between the two, and lands to the right of both. All of them are
      identifiers it constructs: p in an empty list, n behind p, and then q
      between p and n. */
  lemma {:induction false} SqueezedExample(rand: nat)
    ensures var p := [Position(5, 0, 0)];
            var n := [Position(6, 0, 1)];
            var q := [Position(5, 0, 0), Position(1, 1, 0)];
            && p == Construct(None, None, 0, 0, 4) && n == Construct(Some(p), None, 0, 1, 0)
            && q == Construct(Some(p), Some(n), 1, 0, 0)
            && Valid(p) && Valid(q) && Less(p, q) && Less(q, Construct(Some(p), Some(q), 0, 1, rand))
  {
    var p := [Position(5, 0, 0)];
    var q := [Position(5, 0, 0), Position(1, 1, 0)];
    SqueezedBuilt();
    SqueezedPair(p, q);
    LeftOfRight(Some(p), q, 0, 1, rand);
  }

  lemma {:induction false} SqueezedPair(p: Leid, q: Leid)
    requires p == [Position(5, 0, 0)] && q == [Position(5, 0, 0), Position(1, 1, 0)]
    ensures Valid(p) && Valid(q) && Less(p, q) && Squeezed(Some(p), Some(q))
  {
    assert q[..1] == p;
    assert SplitsAt(p, q, 1);
  }

  lemma {:induction false} SqueezedBuilt()
    ensures var p := [Position(5, 0, 0)];
            var n := [Position(6, 0, 1)];
            && p == Construct(None, None, 0, 0, 4) && n == Construct(Some(p), None, 0, 1, 0)
            && Construct(Some(p), Some(n), 1, 0, 0) == [Position(5, 0, 0), Position(1, 1, 0)]
  {
    var p := [Position(5, 0, 0)];
    var n := [Position(6, 0, 1)];
    assert Level(Some(p), Some(n), 1) == 1 && Level(Some(p), Some(n), 0) == 1;
  }

  // ------------------------------------------------------------- uniqueness

  /** A new element: the replica that inserts it, the neighbours it sees, and
      its random number. */
  datatype Birth = Birth(replica: nat, left: Option<Leid>, right: Option<Leid>, rand: nat)

  /** The clock of the list at replica r after the births of all n replicas: only
      an own insert raises it, in the own component. */
  function ClockOf(n: nat, births: seq<Birth>, r: nat): (c: seq<int>)
    requires r < n
    ensures |c| == n
  {
    if births == [] then seq(n, _ => 0)
    else
      var c := ClockOf(n, births[..|births| - 1], r);
      if births[|births| - 1].replica == r then c[r := c[r] + 1] else c
  }

  /** The identifier of the k-th element. */
  function IdOf(n: nat, births: seq<Birth>, k: nat): Leid
    requires k < |births| && births[k].replica < n
  {
    var b := births[k];
    Construct(b.left, b.right, b.replica, Sum(ClockOf(n, births[..k], b.replica)), b.rand)
  }

  lemma {:induction false} SumRaised(c: seq<int>, r: nat)
    requires r < |c|
    ensures Sum(c[r := c[r] + 1]) == Sum(c) + 1
  {
    var front := c[..|c| - 1];
    if r == |c| - 1 {
      assert c[r := c[r] + 1][..|c| - 1] == front;
    } else {
      SumRaised(front, r);
      assert c[r := c[r] + 1][..|c| - 1] == front[r := front[r] + 1];
    }
  }

  /** An own insert raises the count, and nothing lowers it. */
  lemma {:induction false} CountGrows(n: nat, births: seq<Birth>, r: nat, j: nat, k: nat)
    requires r < n && j < k <= |births| && births[j].replica == r
    ensures Sum(ClockOf(n, births[..j], r)) < Sum(ClockOf(n, births[..k], r))
    decreases k
  {
    var c := ClockOf(n, births[..k - 1], r);
    assert births[..k][..k - 1] == births[..k - 1];
    if births[k - 1].replica == r {
      SumRaised(c, r);
    }
    if j < k - 1 {
      CountGrows(n, births, r, j, k - 1);
    }
  }

  /** Whatever the neighbours and random numbers, no two elements of a run get
      the same identifier: the last component names the replica and its count. */
  lemma {:induction false} IdsUnique(n: nat, births: seq<Birth>, j: nat, k: nat)
    requires (forall i | 0 <= i < |births| :: births[i].replica < n) && j < k < |births|
    ensures IdOf(n, births, j) != IdOf(n, births, k)
  {
    var a, b := IdOf(n, births, j), IdOf(n, births, k);
    var x, y := births[j], births[k];
    assert a[|a| - 1].pid == x.replica && a[|a| - 1].count == Sum(ClockOf(n, births[..j], x.replica));
    assert b[|b| - 1].pid == y.replica && b[|b| - 1].count == Sum(ClockOf(n, births[..k], y.replica));
    if x.replica == y.replica {
      CountGrows(n, births, x.replica, j, k);
    }
  }
}
