/**
 JavaScript strings, as the sequences of UTF-16 code units that `<` and `sort()` compare, and
 the ascending enumeration of a set of strings that `Object.keys(x).sort()` yields.
 */
module Names {

  newtype CodeUnit = x: int | 0 <= x < 0x1_0000

  type Name = seq<CodeUnit>

  /** JavaScript's `a < b` on strings. */
  predicate Less(a: Name, b: Name) {
    if b == [] then false
    else if a == [] then true
    else a[0] < b[0] || (a[0] == b[0] && Less(a[1..], b[1..]))
  }

  lemma {:induction false} LessTrichotomy(a: Name, b: Name)
    ensures Less(a, b) || Less(b, a) || a == b
    ensures !(Less(a, b) && Less(b, a))
    ensures !Less(a, a)
  {
    if a != [] && b != [] {
      if a[0] == b[0] {
        LessTrichotomy(a[1..], b[1..]);
        assert a == [a[0]] + a[1..] && b == [b[0]] + b[1..];
      }
      LessTrichotomy(a[1..], a[1..]);
    } else if a != [] {
      LessTrichotomy(a[1..], a[1..]);
    }
  }

  /** `a` ends where `b` goes on, or has the lower code unit where the two first differ. */
  lemma {:induction false} LessAtFirstDifference(a: Name, b: Name)
    ensures Less(a, b) <==>
      exists i | 0 <= i <= |a| && i < |b| :: a[..i] == b[..i] && (i == |a| || a[i] < b[i])
  {
    if a != [] && b != [] {
      LessAtFirstDifference(a[1..], b[1..]);
      if Less(a, b) {
        if a[0] < b[0] {
          assert a[..0] == b[..0];
        } else {
          var i :| 0 <= i <= |a[1..]| && i < |b[1..]| && a[1..][..i] == b[1..][..i]
            && (i == |a[1..]| || a[1..][i] < b[1..][i]);
          assert a[..i + 1] == [a[0]] + a[1..][..i] && b[..i + 1] == [b[0]] + b[1..][..i];
        }
      }
      if i :| 0 <= i <= |a| && i < |b| && a[..i] == b[..i] && (i == |a| || a[i] < b[i]) {
        if i > 0 {
          assert a[0] == a[..i][0] == b[..i][0] == b[0];
          assert a[1..][..i - 1] == a[..i][1..] && b[1..][..i - 1] == b[..i][1..];
        }
      }
    } else if b != [] {
      assert a[..0] == b[..0];
    }
  }

  lemma {:induction false} LessTransitive(a: Name, b: Name, c: Name)
    requires Less(a, b) && Less(b, c)
    ensures Less(a, c)
  {
    if a != [] && a[0] == b[0] == c[0] {
      LessTransitive(a[1..], b[1..], c[1..]);
    }
  }

  predicate IsLowest(m: Name, s: set<Name>) {
    m in s && forall x | x in s :: x == m || Less(m, x)
  }

  lemma {:induction false} LowestExists(s: set<Name>)
    requires s != {}
    ensures exists m :: IsLowest(m, s)
    decreases |s|
  {
    var x :| x in s;
    var rest := s - {x};
    if rest == {} {
      assert s == {x};
      assert IsLowest(x, s);
    } else {
      LowestExists(rest);
      var m :| IsLowest(m, rest);
      LessTrichotomy(m, x);
      if Less(x, m) {
        forall y | y in s && y != x
          ensures Less(x, y)
        {
          if y != m { LessTransitive(x, m, y); }
        }
        assert IsLowest(x, s);
      } else {
        assert IsLowest(m, s);
      }
    }
  }

  lemma LowestUnique(m: Name, n: Name, s: set<Name>)
    requires IsLowest(m, s) && IsLowest(n, s)
    ensures m == n
  {
    LessTrichotomy(m, n);
  }

  function Lowest(s: set<Name>): (m: Name)
    requires s != {}
    ensures IsLowest(m, s)
  {
    LowestExists(s);
    assert forall m, n | IsLowest(m, s) && IsLowest(n, s) :: m == n by {
      forall m, n | IsLowest(m, s) && IsLowest(n, s) ensures m == n { LowestUnique(m, n, s); }
    }
    var m :| m in s && IsLowest(m, s);
    m
  }

  ghost predicate Ascending(r: seq<Name>) {
    forall i, j :: 0 <= i < j < |r| ==> Less(r[i], r[j])
  }

  /** The strings of `s` in the order `sort()` leaves them. */
  function Sorted(s: set<Name>): (r: seq<Name>)
    ensures Ascending(r)
    ensures forall x :: x in r <==> x in s
    ensures |r| == |s|
    decreases |s|
  {
    if s == {} then []
    else
      var m := Lowest(s);
      var rest := Sorted(s - {m});
      assert forall i | 0 <= i < |rest| :: rest[i] in rest;
      [m] + rest
  }
}
