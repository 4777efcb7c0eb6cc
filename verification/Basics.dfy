/** Vocabulary shared by every module: optional values, identifiers, and the
    few sequence operations the connection's bookkeeping is written with. */
module Basics {

  datatype Option<+T> = None | Some(value: T) {
    function GetOr(default: T): T {
      if Some? then value else default
    }
  }

  /** Thread, turn, item and login ids are strings; "" means there is none. */
  datatype Id = Id(text: string)

  const NO_ID := Id("")

  /** No element occurs twice. */
  ghost predicate Distinct<T>(s: seq<T>) {
    s == [] || (s[0] !in s[1..] && Distinct(s[1..]))
  }

  lemma {:induction false} DistinctIndices<T>(s: seq<T>)
    ensures Distinct(s) <==> forall i, j :: 0 <= i < j < |s| ==> s[i] != s[j]
  {
    if s != [] {
      var t := s[1..];
      DistinctIndices(t);
      assert forall i :: 0 <= i < |t| ==> t[i] == s[i + 1];
      if Distinct(s) {
        forall i, j | 0 <= i < j < |s| ensures s[i] != s[j] {
          assert s[j] == t[j - 1];
          if i > 0 {
            assert s[i] == t[i - 1];
          }
        }
      } else if Distinct(t) {
        var j :| 0 <= j < |t| && t[j] == s[0];
        assert s[j + 1] == s[0];
      } else {
        var i, j :| 0 <= i < j < |t| && t[i] == t[j];
        assert s[i + 1] == s[j + 1];
      }
    }
  }

  lemma {:induction false} DistinctAppend<T>(s: seq<T>, x: T)
    requires Distinct(s) && x !in s
    ensures Distinct(s + [x])
  {
    if s != [] {
      assert (s + [x])[1..] == s[1..] + [x];
      assert forall y :: y in s[1..] ==> y in s;
      DistinctAppend(s[1..], x);
    }
  }

  /** What occurs in s. */
  ghost function Elems<T(!new)>(s: seq<T>): set<T> {
    set x | x in s
  }

  /** s without the elements of drop, in the same order. */
  function Without<T(==)>(s: seq<T>, drop: set<T>): (r: seq<T>) {
    if s == [] then []
    else if s[0] in drop then Without(s[1..], drop)
    else [s[0]] + Without(s[1..], drop)
  }

  /** The last n elements of s, or all of it when it is shorter. */
  function LastN<T>(s: seq<T>, n: nat): (r: seq<T>) {
    if |s| <= n then s else s[|s| - n..]
  }

  lemma {:induction false} WithoutMembers<T(!new)>(s: seq<T>, drop: set<T>)
    ensures Elems(Without(s, drop)) == Elems(s) - drop
    ensures Distinct(s) ==> Distinct(Without(s, drop))
    ensures |Without(s, drop)| <= |s|
  {
    if s != [] {
      WithoutMembers(s[1..], drop);
      assert s == [s[0]] + s[1..];
      assert Elems(s) == {s[0]} + Elems(s[1..]);
      if s[0] !in drop {
        assert Without(s, drop)[1..] == Without(s[1..], drop);
        assert Elems(Without(s, drop)) == {s[0]} + Elems(Without(s[1..], drop));
        assert s[0] !in s[1..] ==> s[0] !in Elems(Without(s[1..], drop));
      }
    }
  }

  lemma {:induction false} WithoutConcat<T>(s: seq<T>, t: seq<T>, drop: set<T>)
    ensures Without(s + t, drop) == Without(s, drop) + Without(t, drop)
  {
    if s == [] {
      assert s + t == t;
    } else {
      assert (s + t)[1..] == s[1..] + t;
      WithoutConcat(s[1..], t, drop);
    }
  }

  lemma {:induction false} WithoutNothing<T(!new)>(s: seq<T>, drop: set<T>)
    requires Elems(s) !! drop
    ensures Without(s, drop) == s
  {
    if s != [] {
      assert s[0] in Elems(s);
      assert Elems(s[1..]) <= Elems(s);
      WithoutNothing(s[1..], drop);
    }
  }

  lemma {:induction false} WithoutTwice<T>(s: seq<T>, d: set<T>, e: set<T>)
    ensures Without(Without(s, d), e) == Without(s, d + e)
  {
    if s != [] {
      WithoutTwice(s[1..], d, e);
      if s[0] !in d {
        assert Without(s, d)[1..] == Without(s[1..], d);
      }
    }
  }

  lemma {:induction false} DistinctCount<T(!new)>(s: seq<T>)
    requires Distinct(s)
    ensures |s| == |Elems(s)|
  {
    if s != [] {
      assert Elems(s) == {s[0]} + Elems(s[1..]);
      assert s[0] !in Elems(s[1..]);
      DistinctCount(s[1..]);
    }
  }

  lemma LastNAppend<T>(s: seq<T>, n: nat, x: T)
    requires 0 < n
    ensures LastN(s + [x], n) == (if |LastN(s, n)| >= n then LastN(s, n)[1..] else LastN(s, n)) + [x]
  {
  }
}
