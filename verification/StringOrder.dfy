/** The order in which std::map<std::string, _> and std::set<std::string> are iterated. */
module StringOrder {

  /** std::string's operator<: lexicographic, a proper prefix being smaller. */
  predicate Less(a: string, b: string) {
    if b == [] then false
    else if a == [] then true
    else a[0] < b[0] || (a[0] == b[0] && Less(a[1..], b[1..]))
  }

  lemma {:induction false} LessIrreflexive(a: string)
    ensures !Less(a, a)
  {
    if a != [] {
      LessIrreflexive(a[1..]);
    }
  }

  lemma {:induction false} LessTransitive(a: string, b: string, c: string)
    requires Less(a, b) && Less(b, c)
    ensures Less(a, c)
  {
    if a != [] && a[0] == b[0] == c[0] {
      LessTransitive(a[1..], b[1..], c[1..]);
    }
  }

  lemma {:induction false} LessTotal(a: string, b: string)
    ensures a == b || Less(a, b) || Less(b, a)
  {
    if a != [] && b != [] && a[0] == b[0] {
      LessTotal(a[1..], b[1..]);
      assert a == [a[0]] + a[1..] && b == [b[0]] + b[1..];
    }
  }

  lemma SameTails(a: string, b: string, i: nat)
    requires 1 <= i <= |a| && i <= |b| && a[0] == b[0]
    ensures a[..i] == b[..i] <==> a[1..][..i - 1] == b[1..][..i - 1]
  {
    assert a[..i] == [a[0]] + a[1..][..i - 1];
    assert b[..i] == [b[0]] + b[1..][..i - 1];
    assert a[..i][1..] == a[1..][..i - 1];
    assert b[..i][1..] == b[1..][..i - 1];
  }

  /** In terms of positions: a is a proper prefix of b, or has the smaller character where they first differ. */
  lemma {:induction false} LessIff(a: string, b: string)
    ensures Less(a, b) <==>
              || a < b
              || exists i :: 0 <= i < |a| && i < |b| && a[i] < b[i] && a[..i] == b[..i]
  {
    if a != [] && b != [] && a[0] == b[0] {
      LessIff(a[1..], b[1..]);
      forall i | 1 <= i < |a| && i < |b|
        ensures a[..i] == b[..i] <==> a[1..][..i - 1] == b[1..][..i - 1]
      {
        SameTails(a, b, i);
      }
      assert a < b <==> a[1..] < b[1..] by {
        assert a == [a[0]] + a[1..] && b == [b[0]] + b[1..];
      }
      if i :| 0 <= i < |a| && i < |b| && a[i] < b[i] && a[..i] == b[..i] {
        assert a[1..][i - 1] < b[1..][i - 1];
      }
      if i :| 0 <= i < |a| - 1 && i < |b| - 1 && a[1..][i] < b[1..][i] && a[1..][..i] == b[1..][..i] {
        assert a[i + 1] < b[i + 1] && a[..i + 1] == b[..i + 1];
      }
    } else if a != [] && b != [] {
      if a[0] < b[0] {
        assert a[..0] == b[..0];
      }
      forall i | 1 <= i < |a| && i < |b| ensures a[..i] != b[..i] {
        assert a[..i][0] != b[..i][0];
      }
    }
  }

  predicate IsLeast(x: string, s: set<string>) {
    x in s && forall y :: y in s ==> y == x || Less(x, y)
  }

  lemma {:induction false} LeastExists(s: set<string>)
    requires s != {}
    ensures exists x :: IsLeast(x, s)
    decreases |s|
  {
    var x :| x in s;
    if s == {x} {
      assert IsLeast(x, s);
    } else {
      LeastExists(s - {x});
      var m :| IsLeast(m, s - {x});
      LessTotal(x, m);
      if Less(x, m) {
        forall y | y in s ensures y == x || Less(x, y) {
          if y != x && y != m {
            LessTransitive(x, m, y);
          }
        }
        assert IsLeast(x, s);
      } else {
        assert IsLeast(m, s);
      }
    }
  }

  lemma LeastUnique(x: string, y: string, s: set<string>)
    requires IsLeast(x, s) && IsLeast(y, s)
    ensures x == y
  {
    if x != y {
      LessTransitive(x, y, x);
      LessIrreflexive(x);
    }
  }

  /** The element that begin() points to. */
  ghost function Least(s: set<string>): (x: string)
    requires s != {}
    ensures IsLeast(x, s)
  {
    LeastExists(s);
    var x :| IsLeast(x, s);
    x
  }

  /** The whole iteration order. */
  ghost function Ascending(s: set<string>): (r: seq<string>)
    ensures forall x :: x in r <==> x in s
    ensures |r| == |s|
    decreases |s|
  {
    if s == {} then [] else [Least(s)] + Ascending(s - {Least(s)})
  }

  /** The elements come out strictly increasing, so the iteration order depends on the set alone. */
  lemma {:induction false} AscendingSorted(s: set<string>)
    ensures forall i, j :: 0 <= i < j < |Ascending(s)| ==> Less(Ascending(s)[i], Ascending(s)[j])
    decreases |s|
  {
    if s != {} {
      var x := Least(s);
      AscendingSorted(s - {x});
      var r := Ascending(s - {x});
      assert Ascending(s) == [x] + r;
      forall i, j | 0 <= i < j < |Ascending(s)| ensures Less(Ascending(s)[i], Ascending(s)[j]) {
        if i == 0 {
          assert r[j - 1] in r;
        } else {
          assert Less(r[i - 1], r[j - 1]);
        }
      }
    }
  }

  lemma AscendingFirst(x: string, s: set<string>)
    requires IsLeast(x, s)
    ensures Ascending(s) == [x] + Ascending(s - {x})
  {
    LeastUnique(x, Least(s), s);
  }
}
