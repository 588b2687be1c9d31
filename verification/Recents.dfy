/** The bounded most-recently-used list of project directories. */
module Recents {

  datatype Recent = Recent(dir: string, used: int)

  const MAX_RECENT: nat := 20

  function Take(s: seq<Recent>, n: nat): seq<Recent> {
    if |s| <= n then s else s[..n]
  }

  function Without(s: seq<Recent>, dir: string): (r: seq<Recent>)
    ensures forall x :: x in r <==> x in s && x.dir != dir
  {
    if s == [] then []
    else (if s[0].dir == dir then [] else [s[0]]) + Without(s[1..], dir)
  }

  predicate DistinctDirs(s: seq<Recent>) {
    forall i, j :: 0 <= i < j < |s| ==> s[i].dir != s[j].dir
  }

  /** The list after one more use. */
  function Remembered(list: seq<Recent>, r: Recent): seq<Recent> {
    Take([r] + Without(list, r.dir), MAX_RECENT)
  }

  class RecentStore {
    var list: seq<Recent>

    constructor ()
      ensures list == []
    {
      list := [];
    }

    /** rememberProject. Saving may fail, and then the cache file stays as it was. */
    method RememberProject(dir: string, now: int, saved: bool)
      modifies this
      ensures list == if dir == "" || !saved then old(list) else Remembered(old(list), Recent(dir, now))
    {
      if dir == "" {
        return;
      }
      var cached := list;
      var kept := DropDir(cached, dir);
      var out := [Recent(dir, now)] + kept;
      if |out| > MAX_RECENT {
        out := out[..MAX_RECENT];
      }
      if !saved {
        return;
      }
      list := out;
    }
  }

  /** The loop of rememberProject: what stays of the old list behind the new entry. */
  method DropDir(cached: seq<Recent>, dir: string) returns (kept: seq<Recent>)
    ensures kept == Without(cached, dir)
  {
    hide Without;
    kept := [];
    WithoutNothing(dir);
    for i := 0 to |cached|
      invariant kept == Without(cached[..i], dir)
    {
      WithoutNext(cached, i, dir);
      if cached[i].dir != dir {
        kept := kept + [cached[i]];
      }
    }
    assert cached[..|cached|] == cached;
  }

  lemma WithoutNothing(dir: string)
    ensures Without([], dir) == []
  {
  }

  lemma WithoutNext(s: seq<Recent>, i: nat, dir: string)
    requires i < |s|
    ensures Without(s[..i + 1], dir) == Without(s[..i], dir) + if s[i].dir == dir then [] else [s[i]]
  {
    hide Without;
    WithoutAppend(s[..i], s[i], dir);
    assert s[..i + 1] == s[..i] + [s[i]];
  }

  lemma {:induction false} WithoutAppend(s: seq<Recent>, x: Recent, dir: string)
    ensures Without(s + [x], dir) == Without(s, dir) + if x.dir == dir then [] else [x]
    decreases |s|
  {
    if s == [] {
      assert [x][1..] == [] && [] + [x] == [x];
    } else {
      assert (s + [x])[1..] == s[1..] + [x];
      WithoutAppend(s[1..], x, dir);
    }
  }

  // ---- a whole history ----

  /** The list after a history of successful uses, truncated at every step. */
  function Stored(history: seq<Recent>): seq<Recent> {
    if history == [] then []
    else Remembered(Stored(history[..|history| - 1]), history[|history| - 1])
  }

  function Reverse(s: seq<Recent>): seq<Recent> {
    if s == [] then [] else [s[|s| - 1]] + Reverse(s[..|s| - 1])
  }

  /** Keep the first entry of every directory. */
  function Firsts(s: seq<Recent>): seq<Recent> {
    if s == [] then [] else [s[0]] + Without(Firsts(s[1..]), s[0].dir)
  }

  lemma {:induction false} WithoutDistinct(s: seq<Recent>, dir: string)
    requires DistinctDirs(s)
    ensures DistinctDirs(Without(s, dir))
    decreases |s|
  {
    if s != [] {
      WithoutDistinct(s[1..], dir);
      var r := Without(s[1..], dir);
      forall j | 0 <= j < |r|
        ensures r[j].dir != s[0].dir
      {
        assert r[j] in r;
      }
    }
  }

  /** x is the first entry of its directory. */
  ghost predicate IsFirst(s: seq<Recent>, x: Recent) {
    exists i :: 0 <= i < |s| && s[i] == x && forall j :: 0 <= j < i ==> s[j].dir != x.dir
  }

  lemma IsFirstStep(s: seq<Recent>, x: Recent)
    requires s != []
    ensures IsFirst(s, x) <==> x == s[0] || (x.dir != s[0].dir && IsFirst(s[1..], x))
  {
    var t := s[1..];
    if IsFirst(s, x) {
      var i :| 0 <= i < |s| && s[i] == x && forall j :: 0 <= j < i ==> s[j].dir != x.dir;
      if i > 0 {
        assert t[i - 1] == x && forall j :: 0 <= j < i - 1 ==> t[j] == s[j + 1];
      }
    }
    if x.dir != s[0].dir && IsFirst(t, x) {
      var i :| 0 <= i < |t| && t[i] == x && forall j :: 0 <= j < i ==> t[j].dir != x.dir;
      assert s[i + 1] == x && forall j :: 0 < j < i + 1 ==> s[j] == t[j - 1];
    }
  }

  /** Firsts is what it says: distinct directories, each with its first entry, all of them there. */
  lemma {:induction false} FirstsExact(s: seq<Recent>)
    ensures DistinctDirs(Firsts(s))
    ensures forall x :: x in Firsts(s) <==> IsFirst(s, x)
    decreases |s|
  {
    hide IsFirst;
    if s == [] {
      NoFirst();
    } else {
      FirstsExact(s[1..]);
      WithoutDistinct(Firsts(s[1..]), s[0].dir);
      var w := Without(Firsts(s[1..]), s[0].dir);
      assert forall j :: 0 <= j < |w| ==> w[j] in w;
      forall x
        ensures x in Firsts(s) <==> IsFirst(s, x)
      {
        IsFirstStep(s, x);
      }
    }
  }

  lemma NoFirst()
    ensures forall x :: !IsFirst([], x)
  {
  }

  lemma {:induction false} WithoutNone(s: seq<Recent>, dir: string)
    requires forall i :: 0 <= i < |s| ==> s[i].dir != dir
    ensures Without(s, dir) == s
    decreases |s|
  {
    if s != [] {
      WithoutNone(s[1..], dir);
    }
  }

  lemma WithoutHead(x: Recent, t: seq<Recent>, dir: string)
    ensures Without([x] + t, dir) == if x.dir == dir then Without(t, dir) else [x] + Without(t, dir)
  {
    assert ([x] + t)[1..] == t;
  }

  /** Dropping the tail before or after taking one directory out leaves the same first n. */
  lemma {:induction false} TakeWithout(s: seq<Recent>, dir: string, n: nat)
    requires DistinctDirs(s)
    ensures Take(Without(Take(s, n + 1), dir), n) == Take(Without(s, dir), n)
    decreases |s|
  {
    hide Without;
    if |s| > n + 1 && n > 0 {
      var x, t := s[0], s[1..];
      assert s == [x] + t && Take(s, n + 1) == [x] + Take(t, n);
      WithoutHead(x, t, dir);
      WithoutHead(x, Take(t, n), dir);
      if x.dir == dir {
        WithoutNone(t, dir);
        WithoutNone(Take(t, n), dir);
        hide DistinctDirs;
        assert Take(Take(t, n), n) == Take(t, n);
      } else {
        TakeWithout(t, dir, n - 1);
        hide Take;
        TakeHead(x, Without(Take(t, n), dir), n);
        TakeHead(x, Without(t, dir), n);
      }
    }
  }

  /** After any history of successful uses the stored list is the first 20 distinct directories of
      the reversed history, each with its latest use: truncating at every step loses nothing
      against truncating once. */
  lemma {:induction false} StoredIsMostRecent(history: seq<Recent>)
    ensures Stored(history) == Take(Firsts(Reverse(history)), MAX_RECENT)
    decreases |history|
  {
    if history != [] {
      var init, r := history[..|history| - 1], history[|history| - 1];
      StoredIsMostRecent(init);
      var all := Firsts(Reverse(init));
      FirstsExact(Reverse(init));
      assert Reverse(history)[1..] == Reverse(init) && Reverse(history)[0] == r;
      assert Firsts(Reverse(history)) == [r] + Without(all, r.dir);
      TakeHead(r, Without(Take(all, MAX_RECENT), r.dir), MAX_RECENT);
      TakeHead(r, Without(all, r.dir), MAX_RECENT);
      TakeWithout(all, r.dir, MAX_RECENT - 1);
    }
  }

  lemma TakeHead(r: Recent, s: seq<Recent>, n: nat)
    requires n > 0
    ensures Take([r] + s, n) == [r] + Take(s, n - 1)
  {
  }

  /** The uses are read backwards. */
  lemma {:induction false} ReverseAt(s: seq<Recent>, i: nat)
    requires i < |s|
    ensures |Reverse(s)| == |s| && Reverse(s)[i] == s[|s| - 1 - i]
    decreases |s|
  {
    if |s| > 1 {
      ReverseAt(s[..|s| - 1], if i > 0 then i - 1 else 0);
    }
  }

  /** r is s with some entries left out, the rest in order. */
  predicate Subsequence(r: seq<Recent>, s: seq<Recent>)
    decreases |s|
  {
    if s == [] then r == []
    else (r != [] && r[0] == s[0] && Subsequence(r[1..], s[1..])) || Subsequence(r, s[1..])
  }

  lemma {:induction false} NothingLeft(s: seq<Recent>)
    ensures Subsequence([], s)
    decreases |s|
  {
    if s != [] {
      NothingLeft(s[1..]);
    }
  }

  lemma {:induction false} SubsequenceTransitive(a: seq<Recent>, b: seq<Recent>, c: seq<Recent>)
    requires Subsequence(a, b) && Subsequence(b, c)
    ensures Subsequence(a, c)
    decreases |c|
  {
    if c != [] {
      if b != [] && b[0] == c[0] && Subsequence(b[1..], c[1..]) {
        if a != [] && a[0] == b[0] && Subsequence(a[1..], b[1..]) {
          SubsequenceTransitive(a[1..], b[1..], c[1..]);
        } else {
          SubsequenceTransitive(a, b[1..], c[1..]);
        }
      } else {
        SubsequenceTransitive(a, b, c[1..]);
      }
    }
  }

  lemma {:induction false} WithoutInOrder(s: seq<Recent>, dir: string)
    ensures Subsequence(Without(s, dir), s)
    decreases |s|
  {
    if s != [] {
      var t := Without(s[1..], dir);
      WithoutInOrder(s[1..], dir);
      if s[0].dir == dir {
        assert Without(s, dir) == t;
      } else {
        assert Without(s, dir) == [s[0]] + t && ([s[0]] + t)[1..] == t;
      }
    }
  }

  lemma {:induction false} FirstsInOrder(s: seq<Recent>)
    ensures Subsequence(Firsts(s), s)
    decreases |s|
  {
    if s != [] {
      var t := Firsts(s[1..]);
      FirstsInOrder(s[1..]);
      WithoutInOrder(t, s[0].dir);
      SubsequenceTransitive(Without(t, s[0].dir), t, s[1..]);
      assert Firsts(s)[1..] == Without(t, s[0].dir);
    }
  }

  // ---- the store over a history ----

  /** A call of rememberProject: the directory, the time, and whether the cache file was written. */
  datatype Use = Use(dir: string, now: int, saved: bool)

  /** The uses that count: those that name a directory and were written. */
  function Successful(uses: seq<Use>): seq<Recent> {
    if uses == [] then []
    else
      var u := uses[|uses| - 1];
      Successful(uses[..|uses| - 1]) + if u.dir == "" || !u.saved then [] else [Recent(u.dir, u.now)]
  }

  lemma SuccessfulNext(uses: seq<Use>, i: nat)
    requires i < |uses|
    ensures var before, after, u := Successful(uses[..i]), Successful(uses[..i + 1]), uses[i];
            && after == before + (if u.dir == "" || !u.saved then [] else [Recent(u.dir, u.now)])
            && Stored(after) == if u.dir == "" || !u.saved then Stored(before)
                                else Remembered(Stored(before), Recent(u.dir, u.now))
  {
    hide Remembered;
    assert uses[..i + 1][..i] == uses[..i];
    var before, r := Successful(uses[..i]), Recent(uses[i].dir, uses[i].now);
    assert before + [] == before && (before + [r])[..|before|] == before;
  }

  /** A whole history from an empty cache, with empty directories and failed writes in it: the store
      ends with the first 20 distinct directories of its successful uses, latest first. */
  method RememberAll(uses: seq<Use>) returns (store: RecentStore)
    ensures fresh(store)
    ensures store.list == Stored(Successful(uses))
    ensures store.list == Take(Firsts(Reverse(Successful(uses))), MAX_RECENT)
    ensures var all := Firsts(Reverse(Successful(uses))); store.list == if |all| <= 20 then all else all[..20]
  {
    hide Stored, Remembered, Take, Firsts, Reverse, Successful;
    store := new RecentStore();
    NoUses();
    for i := 0 to |uses|
      invariant fresh(store) && store.list == Stored(Successful(uses[..i]))
    {
      SuccessfulNext(uses, i);
      store.RememberProject(uses[i].dir, uses[i].now, uses[i].saved);
    }
    assert uses[..|uses|] == uses;
    StoredIsMostRecent(Successful(uses));
    TakeTwenty(Firsts(Reverse(Successful(uses))));
  }

  lemma TakeTwenty(s: seq<Recent>)
    ensures Take(s, MAX_RECENT) == if |s| <= 20 then s else s[..20]
  {
  }

  lemma NoUses()
    ensures Successful([]) == [] && Stored([]) == []
  {
  }
}
