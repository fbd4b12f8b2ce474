/** Options, sequences without repetition, and a few facts about sets. */
module Collections {

  datatype Option<+T> = None | Some(value: T)

  predicate Distinct<T(==)>(s: seq<T>) {
    forall i, j | 0 <= i < j < |s| :: s[i] != s[j]
  }

  /** The sequence without the first occurrence of x. */
  function Without<T(==)>(s: seq<T>, x: T): seq<T> {
    if s == [] then [] else if s[0] == x then s[1..] else [s[0]] + Without(s[1..], x)
  }

  lemma {:induction false} DistinctCons<T(!new)>(h: T, r: seq<T>)
    ensures Distinct([h] + r) <==> Distinct(r) && h !in r
    ensures forall y :: y in [h] + r <==> y == h || y in r
  {
    var s := [h] + r;
    if Distinct(s) {
      forall i, j | 0 <= i < j < |r| ensures r[i] != r[j] {
        assert s[i + 1] == r[i] && s[j + 1] == r[j];
      }
      forall j | 0 <= j < |r| ensures r[j] != h {
        assert s[0] == h && s[j + 1] == r[j];
      }
    }
  }

  lemma {:induction false} WithoutKeeps<T(!new)>(s: seq<T>, x: T)
    requires Distinct(s)
    ensures Distinct(Without(s, x)) && forall y :: y in Without(s, x) <==> y in s && y != x
  {
    if s != [] {
      var h, r := s[0], s[1..];
      assert s == [h] + r;
      DistinctCons(h, r);
      WithoutKeeps(r, x);
      DistinctCons(h, Without(r, x));
    }
  }

  lemma {:induction false} Member<T>(s: set<T>) returns (x: T)
    requires s != {}
    ensures x in s
  {
    assert (forall y :: y !in s) ==> s == {};
    x :| x in s;
  }

  lemma {:induction false} Subset<T>(a: set<T>, b: set<T>)
    requires a <= b
    ensures |a| <= |b|
  {
    assert b == a + (b - a);
  }
}
