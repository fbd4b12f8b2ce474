/** The C structures of the remove-win framework, updated in place, and the effect
    and prepare phases on them. */
module RemoveWinElement {
  import opened Collections
  import opened VectorClock
  import opened RemoveWin

  /** rwfze: the header and payload that the effect phase overwrites in place,
      together with the element's entry in the sorted set. */
  class RwfElement {
    var pid: int
    const current: array<int>
    var innate: real
    var acquired: real
    var score: Option<real>

    ghost function Value(): Element
      reads this, current
    {
      Element(current[..], pid, innate, acquired, score)
    }

    /** REH_INIT */
    constructor (size: nat)
      ensures Value() == Fresh(size) && fresh(current)
    {
      current := new int[size](i => 0);
      pid, innate, acquired, score := PID_NEXIST, 0.0, 0.0, None;
      new;
      assert current[..] == Zero(size);
    }

    /** addCheck */
    method AddCheck(t: array<int>, id: int) returns (ok: bool)
      modifies this`pid
      ensures ok <==> t[..] == current[..] && old(pid) < id
      ensures pid == if ok then id else old(pid)
    {
      var eq := Equal(t, current);
      if !eq {
        return false;
      }
      if pid < id {
        pid := id;
        return true;
      }
      return false;
    }

    /** updateCheck */
    method UpdateCheck(t: array<int>) returns (ok: bool)
      modifies this`pid
      ensures ok <==> t[..] == current[..]
      ensures pid == if ok && old(pid) == PID_NEXIST then PID_WAIT_INNATE else old(pid)
    {
      ok := Equal(t, current);
      if ok && pid == PID_NEXIST {
        pid := PID_WAIT_INNATE;
      }
    }

    /** removeCheck: scan for a component the history does not cover yet. */
    method RemoveCheck(t: array<int>) returns (ok: bool)
      requires t.Length == current.Length && t != current
      modifies this`pid, current
      ensures ok <==> !Leq(t[..], old(current[..]))
      ensures ok ==> current[..] == Join(old(current[..]), t[..]) && pid == PID_NEXIST
      ensures !ok ==> current[..] == old(current[..]) && pid == old(pid)
    {
      for i := 0 to t.Length
        invariant current[..] == old(current[..]) && pid == old(pid)
        invariant forall k | 0 <= k < i :: t[k] <= current[k]
      {
        if current[i] < t[i] {
          assert t[..][i] > current[..][i];
          Update(current, t);
          pid := PID_NEXIST;
          return true;
        }
      }
      return false;
    }

    /** removeFunc */
    method RemoveFunc(t: array<int>)
      requires t.Length == current.Length && t != current
      modifies this, current
      ensures t[..] == old(t[..]) && Value() == Forget(old(Value()), t[..])
    {
      var ok := RemoveCheck(t);
      if ok {
        acquired := 0.0;
        innate := 0.0;
        score := None;
      }
    }

    /** The effect of RWFZADD. */
    method AddEffect(t: array<int>, id: int, v: real)
      requires t.Length == current.Length && t != current
      modifies this, current
      ensures Value() == Effect(old(Value()), Add(t[..], id, v))
    {
      RemoveFunc(t);
      var ok := AddCheck(t, id);
      if ok {
        innate := v;
        score := Some(innate + acquired);
      }
    }

    /** The effect of RWFZINCRBY. */
    method IncrEffect(t: array<int>, v: real)
      requires t.Length == current.Length && t != current
      modifies this, current
      ensures Value() == Effect(old(Value()), IncrBy(t[..], v))
    {
      RemoveFunc(t);
      var ok := UpdateCheck(t);
      if ok {
        acquired := acquired + v;
        score := Some(innate + acquired);
      }
    }

    /** The effect of RWFZREM. */
    method RemEffect(t: array<int>)
      requires t.Length == current.Length && t != current
      modifies this, current
      ensures Value() == Effect(old(Value()), Rem(t[..]))
    {
      RemoveFunc(t);
    }

    /** PREPARE_PRECOND_ADD and ADD_CR_NON_RMV: an add is issued only while the
        element is absent, and carries a copy of the current history. */
    method PrepareAdd() returns (t: Option<array<int>>)
      ensures t.None? <==> Exists(Value())
      ensures t.Some? ==> fresh(t.value) && t.value[..] == current[..]
    {
      if pid != PID_NEXIST {
        return None;
      }
      var copy := new int[current.Length](i requires 0 <= i < current.Length reads current => current[i]);
      return Some(copy);
    }

    /** PREPARE_PRECOND_NON_ADD and ADD_CR_RMV: a remove is issued only while
        the element exists; vc_now raises the issuer's component, prints the
        clock and lowers it again. */
    method PrepareRem(own: nat) returns (t: Option<array<int>>)
      requires own < current.Length
      modifies current
      ensures current[..] == old(current[..])
      ensures t.None? <==> !Exists(Value())
      ensures t.Some? ==> fresh(t.value) && t.value[..] == current[..][own := current[own] + 1]
    {
      if pid == PID_NEXIST {
        return None;
      }
      current[own] := current[own] + 1;
      var copy := new int[current.Length](i requires 0 <= i < current.Length reads current => current[i]);
      current[own] := current[own] - 1;
      assert current[..] == old(current[..]);
      return Some(copy);
    }
  }
}
