/** sort.Strings: the byte-wise order on strings and the unique sorted listing of a set. */
module Order {

  predicate Leq(a: string, b: string) {
    a == "" || (b != "" && (a[0] < b[0] || (a[0] == b[0] && Leq(a[1..], b[1..]))))
  }

  /** The order of bytes: a text comes before its extensions, and otherwise the first difference decides. */
  lemma {:induction false} LeqExact(p: string, a: string, b: string)
    ensures Leq(p, p + a)
    ensures a != "" && b != "" && a[0] != b[0] ==> (Leq(p + a, p + b) <==> a[0] < b[0])
    ensures a != "" ==> !Leq(p + a, p)
    decreases |p|
  {
    if p == "" {
      assert p + a == a && p + b == b;
    } else {
      assert (p + a)[1..] == p[1..] + a && (p + b)[1..] == p[1..] + b;
      LeqExact(p[1..], a, b);
    }
  }

  lemma {:induction false} LeqTotal(a: string, b: string)
    ensures Leq(a, b) || Leq(b, a)
    decreases |a|
  {
    if a != "" && b != "" && a[0] == b[0] {
      LeqTotal(a[1..], b[1..]);
    }
  }

  lemma {:induction false} LeqAntisymmetric(a: string, b: string)
    requires Leq(a, b) && Leq(b, a)
    ensures a == b
    decreases |a|
  {
    if a != "" {
      LeqAntisymmetric(a[1..], b[1..]);
      assert a == [a[0]] + a[1..] && b == [b[0]] + b[1..];
    }
  }

  lemma {:induction false} LeqTransitive(a: string, b: string, c: string)
    requires Leq(a, b) && Leq(b, c)
    ensures Leq(a, c)
    decreases |a|
  {
    if a != "" && a[0] == b[0] && b[0] == c[0] {
      LeqTransitive(a[1..], b[1..], c[1..]);
    }
  }

  /** Strictly increasing: sorted and without repetition. */
  ghost predicate Increasing(s: seq<string>) {
    forall i, j :: 0 <= i < j < |s| ==> Leq(s[i], s[j]) && s[i] != s[j]
  }

  function Insert(x: string, s: seq<string>): (r: seq<string>)
    requires Increasing(s) && x !in s
    ensures Increasing(r)
    ensures forall y :: y in r <==> y == x || y in s
    ensures |r| == |s| + 1
  {
    if s == [] then [x]
    else
      assert s[0] in s;
      LeqTotal(x, s[0]);
      if Leq(x, s[0]) then
        assert forall j {:trigger s[j]} :: 0 < j < |s| ==> Leq(x, s[j]) && x != s[j] by {
          forall j {:trigger s[j]} | 0 < j < |s|
            ensures Leq(x, s[j]) && x != s[j]
          {
            LeqTransitive(x, s[0], s[j]);
          }
        }
        [x] + s
      else
        var t := Insert(x, s[1..]);
        assert s == [s[0]] + s[1..];
        assert forall j :: 0 <= j < |t| ==> Leq(s[0], t[j]) && s[0] != t[j] by {
          forall j | 0 <= j < |t|
            ensures Leq(s[0], t[j]) && s[0] != t[j]
          {
            assert t[j] in t;
          }
        }
        [s[0]] + t
  }

  /** The result of sort.Strings on a list without repetitions. */
  function Sort(s: seq<string>): (r: seq<string>)
    requires forall i, j :: 0 <= i < j < |s| ==> s[i] != s[j]
    ensures Increasing(r)
    ensures forall x :: x in r <==> x in s
    ensures |r| == |s|
  {
    if s == [] then []
    else
      assert s == [s[0]] + s[1..];
      Insert(s[0], Sort(s[1..]))
  }

  /** The one increasing listing of a set. */
  ghost function Sorted(s: set<string>): (r: seq<string>)
    ensures Increasing(r)
    ensures forall x :: x in r <==> x in s
  {
    if s == {} then []
    else
      var x :| x in s;
      Insert(x, Sorted(s - {x}))
  }

  /** Two increasing listings of the same elements are the same listing. */
  lemma {:induction false} IncreasingUnique(a: seq<string>, b: seq<string>)
    requires Increasing(a) && Increasing(b)
    requires forall x :: x in a <==> x in b
    ensures a == b
    decreases |a|
  {
    assert a != [] ==> a[0] in a;
    assert b != [] ==> b[0] in b;
    if a != [] {
      assert Leq(a[0], b[0]) && Leq(b[0], a[0]) by {
        var i :| 0 <= i < |b| && b[i] == a[0];
        var j :| 0 <= j < |a| && a[j] == b[0];
        LeqTotal(a[0], a[0]);
      }
      LeqAntisymmetric(a[0], b[0]);
      forall x
        ensures x in a[1..] <==> x in b[1..]
      {
        assert x in a <==> x == a[0] || x in a[1..];
        assert x in b <==> x == b[0] || x in b[1..];
      }
      IncreasingUnique(a[1..], b[1..]);
      assert a == [a[0]] + a[1..] && b == [b[0]] + b[1..];
    }
  }
}
