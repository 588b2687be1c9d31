/** The byte string that hashEmbeddedFS feeds to the hash, and why it identifies the tree. */
module HashFraming {
  import opened Order
  import Text

  const NUL: char := '\0'

  /** An embedded source tree: contents by path. */
  type Tree = map<string, string>

  // ---- decimal lengths ----

  function Digit(d: nat): char
    requires d < 10
  {
    ('0' as int + d) as char
  }

  /** %d. */
  function Decimal(n: nat): (s: string)
    ensures s != "" && forall i :: 0 <= i < |s| ==> '0' <= s[i] <= '9'
  {
    if n < 10 then [Digit(n)] else Decimal(n / 10) + [Digit(n % 10)]
  }

  function Value(s: string): nat
    requires forall i :: 0 <= i < |s| ==> '0' <= s[i] <= '9'
  {
    if s == "" then 0 else 10 * Value(s[..|s| - 1]) + (s[|s| - 1] as int - '0' as int)
  }

  lemma {:induction false} DecimalValue(n: nat)
    ensures Value(Decimal(n)) == n
  {
    if n < 10 {
      assert [Digit(n)][..0] == [];
    } else {
      DecimalValue(n / 10);
      var s := Decimal(n / 10);
      assert (s + [Digit(n % 10)])[..|s + [Digit(n % 10)]| - 1] == s;
    }
  }

  lemma DecimalInjective(m: nat, n: nat)
    requires Decimal(m) == Decimal(n)
    ensures m == n
  {
    DecimalValue(m);
    DecimalValue(n);
  }

  // ---- frames ----

  predicate NulFree(s: string) {
    forall i :: 0 <= i < |s| ==> s[i] != NUL
  }

  /** One file as it is fed to the hash: its path, the length of its contents in decimal digits, each
      closed by a NUL, and then the contents themselves. */
  function Frame(path: string, data: string): string {
    path + [NUL] + Decimal(|data|) + [NUL] + data
  }

  /** A frame spelled out: path, NUL, length in decimal digits, NUL, contents. */
  lemma FrameSpelled()
    ensures Frame("a/b", "hello world!") == "a/b" + [0 as char] + "12" + [0 as char] + "hello world!"
    ensures Frame("x", "") == "x" + [0 as char] + "0" + [0 as char]
  {
    assert Decimal(12) == "12" && Decimal(0) == "0";
    assert |"hello world!"| == 12;
  }

  function Frames(paths: seq<string>, tree: Tree): string
    requires forall p :: p in paths ==> p in tree
  {
    if paths == [] then "" else Frame(paths[0], tree[paths[0]]) + Frames(paths[1..], tree)
  }

  /** What is hashed for a tree: its files in path order. */
  ghost function HashInput(tree: Tree): string {
    Frames(Sorted(tree.Keys), tree)
  }

  /** Equal texts with a NUL-free head before their first NUL have the same head and the same rest. */
  lemma SameHead(a: string, x: string, b: string, y: string)
    requires NulFree(a) && NulFree(b) && a + [NUL] + x == b + [NUL] + y
    ensures a == b && x == y
  {
    Text.IndexOfCons(a, NUL, x);
    Text.IndexOfCons(b, NUL, y);
    Text.SliceCons(a, NUL, x);
    Text.SliceCons(b, NUL, y);
  }

  /** One frame can be cut off the front in one way only, whatever follows it. */
  lemma FrameUnique(p: string, data: string, rest: string, p': string, data': string, rest': string)
    requires NulFree(p) && NulFree(p')
    requires Frame(p, data) + rest == Frame(p', data') + rest'
    ensures p == p' && data == data' && rest == rest'
  {
    var tail := Decimal(|data|) + [NUL] + (data + rest);
    var tail' := Decimal(|data'|) + [NUL] + (data' + rest');
    assert Frame(p, data) + rest == p + [NUL] + tail;
    assert Frame(p', data') + rest' == p' + [NUL] + tail';
    SameHead(p, tail, p', tail');
    SameHead(Decimal(|data|), data + rest, Decimal(|data'|), data' + rest');
    DecimalInjective(|data|, |data'|);
    assert data == (data + rest)[..|data|] && data' == (data' + rest')[..|data'|];
    assert rest == (data + rest)[|data|..] && rest' == (data' + rest')[|data'|..];
  }

  lemma FrameNotEmpty(p: string, data: string)
    ensures Frame(p, data) != ""
  {
  }

  lemma {:induction false} FramesUnique(ps: seq<string>, t: Tree, qs: seq<string>, u: Tree)
    requires forall p :: p in ps ==> p in t && NulFree(p)
    requires forall q :: q in qs ==> q in u && NulFree(q)
    requires Frames(ps, t) == Frames(qs, u)
    ensures ps == qs && forall p :: p in ps ==> t[p] == u[p]
    decreases |ps|
  {
    hide Frame;
    if ps == [] || qs == [] {
      if qs != [] {
        FrameNotEmpty(qs[0], u[qs[0]]);
      }
      if ps != [] {
        FrameNotEmpty(ps[0], t[ps[0]]);
      }
    } else {
      FrameUnique(ps[0], t[ps[0]], Frames(ps[1..], t), qs[0], u[qs[0]], Frames(qs[1..], u));
      FramesUnique(ps[1..], t, qs[1..], u);
      assert ps == [ps[0]] + ps[1..] && qs == [qs[0]] + qs[1..];
    }
  }

  ghost predicate NulFreePaths(t: Tree) {
    forall p :: p in t ==> NulFree(p)
  }

  /** The hashed bytes are uniquely decodable: two trees give the same bytes exactly when they
      hold the same paths with the same contents. */
  lemma HashInputInjective(t: Tree, u: Tree)
    requires NulFreePaths(t) && NulFreePaths(u)
    ensures HashInput(t) == HashInput(u) <==> t == u
  {
    hide Frames, NulFree;
    if HashInput(t) == HashInput(u) {
      FramesUnique(Sorted(t.Keys), t, Sorted(u.Keys), u);
      assert t.Keys == u.Keys;
    }
  }

  /** The NUL-freedom is needed: without it a path can swallow the frame of another file. */
  lemma NulPathsCollide()
    ensures var t: Tree := map["a" := "", "b" := ""];
            var u: Tree := map["a" + [NUL] + "0" + [NUL] + "b" := ""];
            t != u && HashInput(t) == HashInput(u)
  {
    var t: Tree := map["a" := "", "b" := ""];
    var long := "a" + [NUL] + "0" + [NUL] + "b";
    var u: Tree := map[long := ""];
    IncreasingUnique(Sorted(t.Keys), ["a", "b"]);
    IncreasingUnique(Sorted(u.Keys), [long]);
    assert Decimal(0) == "0";
    assert Frames(["b"], t) == Frame("b", "") + Frames([], t);
    assert Frames(["a", "b"], t) == Frame("a", "") + Frames(["b"], t);
    assert Frames([long], u) == Frame(long, "") + Frames([], u);
    assert Frame("a", "") + (Frame("b", "") + "") == Frame(long, "") + "";
    assert "a" in t && "a" !in u;
  }

  // ---- the loop ----

  lemma {:induction false} FramesAppend(paths: seq<string>, p: string, tree: Tree)
    requires p in tree && forall q :: q in paths ==> q in tree
    ensures Frames(paths + [p], tree) == Frames(paths, tree) + Frame(p, tree[p])
    decreases |paths|
  {
    hide Frame;
    if paths == [] {
      assert [p][1..] == [];
      assert Frames([p], tree) == Frame(p, tree[p]) + "";
      assert [] + [p] == [p];
    } else {
      assert (paths + [p])[1..] == paths[1..] + [p];
      FramesAppend(paths[1..], p, tree);
    }
  }

  lemma NoFrames(tree: Tree)
    ensures Frames([], tree) == ""
  {
  }

  /** hashEmbeddedFS up to the digest: whatever order the walk lists the files in, the bytes fed
      to the hash are those of the tree. */
  method FeedHash(walk: seq<string>, tree: Tree) returns (h: string)
    requires forall p :: p in walk <==> p in tree
    requires forall i, j :: 0 <= i < j < |walk| ==> walk[i] != walk[j]
    ensures h == HashInput(tree)
  {
    hide Frame, Frames, Increasing, NulFree;
    var paths := Sort(walk);
    IncreasingUnique(paths, Sorted(tree.Keys));
    assert Frames(paths[..0], tree) == "" by { NoFrames(tree); }
    h := "";
    for i := 0 to |paths|
      invariant h == Frames(paths[..i], tree)
    {
      FramesAppend(paths[..i], paths[i], tree);
      assert paths[..i] + [paths[i]] == paths[..i + 1];
      h := h + Frame(paths[i], tree[paths[i]]);
    }
    assert paths[..|paths|] == paths;
  }
}
