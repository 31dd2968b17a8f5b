/** Python's ordering of `str` values (lexicographic by code point, a proper
    prefix first) and `sorted` applied to a set of names. */
module Sorting {

  /** `a <= b` on Python strings. */
  predicate LexLe(a: string, b: string)
    decreases |a|
  {
    |a| == 0 || (|b| > 0 && (a[0] < b[0] || (a[0] == b[0] && LexLe(a[1..], b[1..]))))
  }

  /** `a < b` on Python strings. */
  predicate LexLt(a: string, b: string)
  {
    LexLe(a, b) && a != b
  }

  lemma LexLeReflexive(a: string)
    ensures LexLe(a, a)
    decreases |a|
  {
    if |a| > 0 { LexLeReflexive(a[1..]); }
  }

  lemma LexLeAntisymmetric(a: string, b: string)
    requires LexLe(a, b) && LexLe(b, a)
    ensures a == b
    decreases |a|
  {
    if |a| > 0 {
      LexLeAntisymmetric(a[1..], b[1..]);
      assert a == [a[0]] + a[1..] && b == [b[0]] + b[1..];
    }
  }

  lemma LexLeTransitive(a: string, b: string, c: string)
    requires LexLe(a, b) && LexLe(b, c)
    ensures LexLe(a, c)
    decreases |a|
  {
    if |a| > 0 && a[0] == b[0] && b[0] == c[0] {
      LexLeTransitive(a[1..], b[1..], c[1..]);
    }
  }

  lemma LexLeTotal(a: string, b: string)
    ensures LexLe(a, b) || LexLe(b, a)
    decreases |a|
  {
    if |a| > 0 && |b| > 0 && a[0] == b[0] {
      LexLeTotal(a[1..], b[1..]);
    }
  }

  predicate IsLeast(m: string, s: set<string>)
  {
    m in s && forall y :: y in s ==> LexLe(m, y)
  }

  lemma {:induction false} LeastExists(s: set<string>)
    requires s != {}
    ensures exists m :: IsLeast(m, s)
    decreases |s|
  {
    var x :| x in s;
    if s == {x} {
      LexLeReflexive(x);
      assert IsLeast(x, s);
    } else {
      LeastExists(s - {x});
      var m :| IsLeast(m, s - {x});
      LexLeTotal(m, x);
      if LexLe(m, x) {
        assert IsLeast(m, s);
      } else {
        forall y | y in s ensures LexLe(x, y) {
          if y == x { LexLeReflexive(x); } else { LexLeTransitive(x, m, y); }
        }
        assert IsLeast(x, s);
      }
    }
  }

  lemma LeastUnique(s: set<string>)
    ensures forall m, m' :: IsLeast(m, s) && IsLeast(m', s) ==> m == m'
  {
    forall m, m' | IsLeast(m, s) && IsLeast(m', s) ensures m == m' {
      LexLeAntisymmetric(m, m');
    }
  }

  predicate StrictlySorted(r: seq<string>)
  {
    forall i, j :: 0 <= i < j < |r| ==> LexLt(r[i], r[j])
  }

  /** `sorted(s)`: the names of `s`, each once, in increasing order. */
  function SortedNames(s: set<string>): (r: seq<string>)
    ensures |r| == |s|
    ensures forall x :: x in r <==> x in s
    ensures StrictlySorted(r)
    decreases |s|
  {
    if s == {} then []
    else
      LeastExists(s);
      LeastUnique(s);
      var m :| IsLeast(m, s);
      var rest := SortedNames(s - {m});
      assert forall j :: 0 <= j < |rest| ==> rest[j] in s - {m};
      assert forall j :: 0 <= j < |rest| ==> LexLt(m, rest[j]);
      var r := [m] + rest;
      assert forall j :: 0 < j < |r| ==> r[j] == rest[j - 1];
      assert forall x :: x in r <==> x == m || x in rest;
      r
  }

  lemma EmptyWithoutMembers(q: seq<string>)
    ensures (forall x :: x !in q) ==> q == []
  {
    if |q| > 0 {
      assert q[0] in q;
    }
  }

  /** A strictly sorted sequence is fixed by its elements: the listing does not
      depend on the order in which the directory is enumerated. */
  lemma {:induction false} StrictlySortedUnique(r: seq<string>, q: seq<string>)
    requires StrictlySorted(r) && StrictlySorted(q)
    requires forall x :: x in r <==> x in q
    ensures r == q
    decreases |r|
  {
    if |r| == 0 {
      EmptyWithoutMembers(q);
    } else {
      assert r[0] in r && r[0] in q;
      assert q[0] in q;
      if r[0] != q[0] {
        var i :| 0 <= i < |q| && q[i] == r[0];
        var j :| 0 <= j < |r| && r[j] == q[0];
        assert i > 0 && j > 0;
        LexLeAntisymmetric(r[0], q[0]);
      }
      assert r == [r[0]] + r[1..] && q == [q[0]] + q[1..];
      forall x ensures x in r[1..] <==> x in q[1..] {
        if x in r[1..] {
          var i :| 0 <= i < |r[1..]| && r[1..][i] == x;
          assert r[i + 1] == x && LexLt(r[0], x);
          assert x in q && x != q[0];
          var k :| 0 <= k < |q| && q[k] == x;
          assert q[1..][k - 1] == x;
        }
        if x in q[1..] {
          var i :| 0 <= i < |q[1..]| && q[1..][i] == x;
          assert q[i + 1] == x && LexLt(q[0], x);
          assert x in r && x != r[0];
          var k :| 0 <= k < |r| && r[k] == x;
          assert r[1..][k - 1] == x;
        }
      }
      StrictlySortedUnique(r[1..], q[1..]);
      assert r == [r[0]] + r[1..] && q == [q[0]] + q[1..];
    }
  }
}
