/** Vector clocks (vector_clock.c): the pointwise order, its join, and the C
    routines that compare and merge two clocks in place. */
module VectorClock {

  /** The components of a clock, one per replica. */
  type Vector = seq<int>

  predicate Leq(a: Vector, b: Vector) {
    |a| == |b| && forall i | 0 <= i < |a| :: a[i] <= b[i]
  }

  function Max(x: int, y: int): (r: int) {
    if x < y then y else x
  }

  /** The least upper bound of two clocks of the same size. */
  function Join(a: Vector, b: Vector): (r: Vector)
    requires |a| == |b|
    ensures |r| == |a|
    ensures Leq(a, r) && Leq(b, r)
    ensures forall c | Leq(a, c) && Leq(b, c) :: Leq(r, c)
  {
    seq(|a|, i requires 0 <= i < |a| => Max(a[i], b[i]))
  }

  function Zero(n: nat): (r: Vector)
    ensures |r| == n && forall i | 0 <= i < n :: r[i] == 0
  {
    seq(n, i => 0)
  }

  lemma {:induction false} JoinAbsorbs(a: Vector, b: Vector)
    requires Leq(b, a)
    ensures Join(a, b) == a
  {
    assert forall i | 0 <= i < |a| :: Join(a, b)[i] == a[i];
  }

  lemma {:induction false} LeqAntisymmetric(a: Vector, b: Vector)
    requires Leq(a, b) && Leq(b, a)
    ensures a == b
  {
  }

  /** vc_equal: the clocks agree in size and in every component; the two ids
      are not compared. */
  method Equal(c1: array<int>, c2: array<int>) returns (eq: bool)
    ensures eq <==> c1[..] == c2[..]
  {
    if c1.Length != c2.Length {
      return false;
    }
    for i := 0 to c1.Length
      invariant c1[..i] == c2[..i]
    {
      if c1[i] != c2[i] {
        assert c1[..][i] != c2[..][i];
        return false;
      }
    }
    assert c1[..] == c1[..c1.Length] && c2[..] == c2[..c2.Length];
    return true;
  }

  /** vc_update: raise every component of `tar` to that of `m`; clocks of
      different sizes leave `tar` alone. */
  method Update(tar: array<int>, m: array<int>)
    modifies tar
    ensures tar.Length != m.Length ==> tar[..] == old(tar[..])
    ensures tar.Length == m.Length ==> tar[..] == Join(old(tar[..]), old(m[..]))
  {
    if tar.Length != m.Length {
      return;
    }
    ghost var before, given := tar[..], m[..];
    for i := 0 to tar.Length
      invariant forall k | 0 <= k < i :: tar[k] == Max(before[k], given[k])
      invariant forall k | i <= k < tar.Length :: tar[k] == before[k] && m[k] == given[k]
    {
      if m[i] > tar[i] {
        tar[i] := m[i];
      }
    }
    assert forall k | 0 <= k < tar.Length :: tar[..][k] == Join(before, given)[k];
  }
}
