/** The string operations the Go code takes from its standard library, on ASCII text.

    Whitespace is the six ASCII characters that unicode.IsSpace accepts; the two Latin-1
    spaces and the wider Unicode ones are outside the model. */
module Text {
  import opened Wrappers

  /** '\t', '\n', vertical tab, form feed, '\r' and the blank. */
  predicate IsSpace(c: char) {
    c == ' ' || '\t' <= c <= '\r'
  }

  predicate NoSpaces(s: string) {
    forall i :: 0 <= i < |s| ==> !IsSpace(s[i])
  }

  /** No whitespace at either end: exactly the strings that trimming leaves alone. */
  predicate Trimmed(s: string) {
    s != "" ==> !IsSpace(s[0]) && !IsSpace(s[|s| - 1])
  }

  predicate NewlineFree(s: string) {
    '\n' !in s
  }

  predicate HasPrefix(s: string, c: char) {
    s != "" && s[0] == c
  }

  function TrimLeft(s: string): (r: string)
    ensures |r| <= |s|
    ensures r != "" ==> !IsSpace(r[0])
  {
    if s != "" && IsSpace(s[0]) then TrimLeft(s[1..]) else s
  }

  function TrimRight(s: string): (r: string)
    ensures |r| <= |s|
    ensures r != "" ==> !IsSpace(r[|r| - 1]) && r[0] == s[0]
  {
    if s != "" && IsSpace(s[|s| - 1]) then TrimRight(s[..|s| - 1]) else s
  }

  lemma {:induction false} TrimLeftSuffix(s: string)
    ensures var n := |s| - |TrimLeft(s)|;
            TrimLeft(s) == s[n..] && forall i :: 0 <= i < n ==> IsSpace(s[i])
    decreases |s|
  {
    if s != "" && IsSpace(s[0]) {
      TrimLeftSuffix(s[1..]);
      var n := |s[1..]| - |TrimLeft(s[1..])|;
      assert s[1..][n..] == s[n + 1..];
      forall i | 0 <= i < n + 1
        ensures IsSpace(s[i])
      {
        assert i > 0 ==> s[i] == s[1..][i - 1];
      }
    }
  }

  lemma {:induction false} TrimRightPrefix(s: string)
    ensures var n := |TrimRight(s)|;
            TrimRight(s) == s[..n] && forall i :: n <= i < |s| ==> IsSpace(s[i])
    decreases |s|
  {
    if s != "" && IsSpace(s[|s| - 1]) {
      var t := s[..|s| - 1];
      TrimRightPrefix(t);
      assert t[..|TrimRight(t)|] == s[..|TrimRight(t)|];
      forall i | |TrimRight(t)| <= i < |s|
        ensures IsSpace(s[i])
      {
        assert i < |t| ==> s[i] == t[i];
      }
    }
  }

  /** strings.TrimSpace. */
  function Trim(s: string): (r: string)
    ensures Trimmed(r)
    ensures Trimmed(s) ==> r == s
  {
    TrimRight(TrimLeft(s))
  }

  lemma TrimKeepsContents(s: string, c: char)
    requires c !in s
    ensures c !in Trim(s)
  {
    TrimLeftSuffix(s);
    TrimRightPrefix(TrimLeft(s));
  }

  /** Whitespace added at either end is invisible to trimming. */
  lemma {:induction false} TrimLeftPad(p: string, s: string)
    requires forall i :: 0 <= i < |p| ==> IsSpace(p[i])
    ensures TrimLeft(p + s) == TrimLeft(s)
    decreases |p|
  {
    if p == "" {
      assert p + s == s;
    } else {
      assert (p + s)[1..] == p[1..] + s;
      TrimLeftPad(p[1..], s);
    }
  }

  lemma {:induction false} TrimRightPad(s: string, p: string)
    requires forall i :: 0 <= i < |p| ==> IsSpace(p[i])
    ensures TrimRight(s + p) == TrimRight(s)
    decreases |p|
  {
    if p == "" {
      assert s + p == s;
    } else {
      assert (s + p)[..|s + p| - 1] == s + p[..|p| - 1];
      TrimRightPad(s, p[..|p| - 1]);
    }
  }

  /** Only trailing whitespace differs, so the trimmed texts agree. */
  lemma TrimPadRight(s: string, p: string)
    requires forall i :: 0 <= i < |p| ==> IsSpace(p[i])
    ensures Trim(s + p) == Trim(s)
  {
    hide TrimLeft, TrimRight;
    var t := TrimLeft(s);
    TrimLeftSuffix(s);
    var lead := s[..|s| - |t|];
    assert s == lead + t;
    if t == "" {
      TrimLeftPad(lead, p);
      TrimLeftPad(p, "");
      assert s + p == lead + p && p + "" == p;
    } else {
      assert s + p == lead + (t + p);
      TrimLeftPad(lead, t + p);
      StartsWithNone(t, p);
      TrimRightPad(t, p);
    }
  }

  lemma StartsWithNone(t: string, p: string)
    requires t != "" && !IsSpace(t[0])
    ensures TrimLeft(t + p) == t + p
  {
    assert (t + p)[0] == t[0];
  }

  /** A text with whitespace on both sides trims to itself, and trimming takes nothing but whitespace. */
  lemma TrimPadded(a: string, t: string, b: string)
    requires forall i :: 0 <= i < |a| ==> IsSpace(a[i])
    requires forall i :: 0 <= i < |b| ==> IsSpace(b[i])
    requires Trimmed(t)
    ensures Trim(a + t + b) == t
  {
    hide TrimLeft, TrimRight;
    TrimPadRight(a + t, b);
    TrimLeftPad(a, t);
    assert Trim(t) == t;
  }

  lemma TrimTakesSpace(s: string) returns (a: string, b: string)
    ensures s == a + Trim(s) + b && Trimmed(Trim(s))
    ensures forall i :: 0 <= i < |a| ==> IsSpace(a[i])
    ensures forall i :: 0 <= i < |b| ==> IsSpace(b[i])
  {
    hide TrimLeft, TrimRight;
    var t := TrimLeft(s);
    TrimLeftSuffix(s);
    TrimRightPrefix(t);
    var r := TrimRight(t);
    a, b := s[..|s| - |t|], t[|r|..];
    assert t == r + b;
    assert s == a + t;
    assert a + (r + b) == a + r + b;
  }

  lemma SomethingStays(c: char, rest: string)
    requires !IsSpace(c)
    ensures TrimRight([c] + rest) != "" && TrimRight([c] + rest)[0] == c
  {
    var s := [c] + rest;
    TrimRightPrefix(s);
    hide TrimRight;
    assert s[0] == c;
  }

  /** The whitespace characters, one by one. */
  lemma SpaceExact(c: char)
    ensures IsSpace(c) <==> c in [' ', '\t', '\n', 11 as char, 12 as char, '\r']
  {
  }

  lemma CutAt(s: string, i: nat)
    requires i < |s|
    ensures s == s[..i] + [s[i]] + s[i + 1..]
  {
  }

  /** Position of the first c in s, or |s| when there is none. */
  function IndexOf(s: string, c: char): (i: nat)
    ensures i <= |s|
    ensures i < |s| ==> s[i] == c
    ensures forall k :: 0 <= k < i ==> s[k] != c
    ensures i == |s| <==> c !in s
  {
    if s == "" || s[0] == c then 0 else 1 + IndexOf(s[1..], c)
  }

  // ---- lines ----

  /** strings.Split(s, "\n"). */
  function Split(s: string): (lines: seq<string>)
    ensures |lines| > 0
    ensures forall l :: l in lines ==> NewlineFree(l)
    decreases |s|
  {
    var i := IndexOf(s, '\n');
    if i == |s| then [s] else [s[..i]] + Split(s[i + 1..])
  }

  /** strings.Join(lines, "\n"). */
  function Join(lines: seq<string>): string {
    if lines == [] then ""
    else if |lines| == 1 then lines[0]
    else lines[0] + "\n" + Join(lines[1..])
  }

  lemma IndexOfCons(l: string, c: char, rest: string)
    requires c !in l
    ensures IndexOf(l + [c] + rest, c) == |l|
  {
    var s := l + [c] + rest;
    assert forall k :: 0 <= k < |l| ==> s[k] == l[k];
    assert s[|l|] == c;
  }

  lemma SliceCons(l: string, c: char, rest: string)
    ensures (l + [c] + rest)[..|l|] == l
    ensures (l + [c] + rest)[|l| + 1..] == rest
  {
  }

  lemma SplitCons(l: string, rest: string)
    requires NewlineFree(l)
    ensures Split(l + "\n" + rest) == [l] + Split(rest)
  {
    IndexOfCons(l, '\n', rest);
    SliceCons(l, '\n', rest);
  }

  lemma {:induction false} SplitJoin(lines: seq<string>)
    requires lines != [] && forall l :: l in lines ==> NewlineFree(l)
    ensures Split(Join(lines)) == lines
    decreases |lines|
  {
    assert NewlineFree(lines[0]);
    assert lines == [lines[0]] + lines[1..];
    if |lines| > 1 {
      SplitCons(lines[0], Join(lines[1..]));
      SplitJoin(lines[1..]);
    }
  }

  lemma {:induction false} JoinSplit(s: string)
    ensures Join(Split(s)) == s
    decreases |s|
  {
    var i := IndexOf(s, '\n');
    if i < |s| {
      var l, rest := s[..i], s[i + 1..];
      JoinSplit(rest);
      CutAt(s, i);
      assert Split(s) == [l] + Split(rest);
      hide Split, IndexOf;
      JoinCons(l, Split(rest));
    }
  }

  lemma JoinCons(l: string, lines: seq<string>)
    requires lines != []
    ensures Join([l] + lines) == l + "\n" + Join(lines)
  {
    assert ([l] + lines)[1..] == lines;
  }

  /** Only the one-line empty document joins to nothing. */
  lemma {:induction false} JoinEmpty(lines: seq<string>)
    ensures Join(lines) == "" <==> lines == [] || lines == [""]
  {
    if |lines| == 1 {
      assert lines == [lines[0]];
    }
  }

  // ---- words ----

  function WordEnd(s: string): (n: nat)
    ensures n <= |s|
    ensures forall k :: 0 <= k < n ==> !IsSpace(s[k])
    ensures n < |s| ==> IsSpace(s[n])
  {
    if s == "" || IsSpace(s[0]) then 0 else 1 + WordEnd(s[1..])
  }

  /** A word is what strings.Fields returns: non-empty and free of whitespace. */
  predicate IsWord(w: string) {
    w != "" && NoSpaces(w)
  }

  /** strings.Fields. */
  function Fields(s: string): (words: seq<string>)
    ensures forall w :: w in words ==> IsWord(w)
    decreases |s|
  {
    var t := TrimLeft(s);
    if t == "" then []
    else
      var n := WordEnd(t);
      [t[..n]] + Fields(t[n..])
  }

  /** strings.Join(words, " "). */
  function JoinWords(words: seq<string>): string {
    if words == [] then ""
    else if |words| == 1 then words[0]
    else words[0] + " " + JoinWords(words[1..])
  }

  lemma WordEndAt(w: string, rest: string)
    requires IsWord(w) && (rest == "" || IsSpace(rest[0]))
    ensures WordEnd(w + rest) == |w|
  {
    assert forall k :: 0 <= k < |w| ==> (w + rest)[k] == w[k];
    assert rest != "" ==> (w + rest)[|w|] == rest[0];
  }

  /** The first word of a text comes off in front. */
  lemma FieldsCons(w: string, rest: string)
    requires IsWord(w) && (rest == "" || IsSpace(rest[0]))
    ensures Fields(w + rest) == [w] + Fields(rest)
  {
    var s := w + rest;
    WordEndAt(w, rest);
    assert s[0] == w[0];
    assert TrimLeft(s) == s;
    assert s[..|w|] == w && s[|w|..] == rest;
    hide TrimLeft, WordEnd;
  }

  lemma {:induction false} FieldsJoinWords(words: seq<string>)
    requires forall w :: w in words ==> IsWord(w)
    ensures Fields(JoinWords(words)) == words
    decreases |words|
  {
    hide Fields, IsWord;
    if words == [] {
      FieldsNothing();
    } else {
      var w, more := words[0], words[1..];
      assert w in words && words == [w] + more;
      FieldsJoinWords(more);
      if more == [] {
        FieldsNothing();
        FieldsCons(w, "");
        assert w + "" == w;
      } else {
        FieldsCons(w, " " + JoinWords(more));
        FieldsSkipBlank(JoinWords(more));
        assert w + (" " + JoinWords(more)) == w + " " + JoinWords(more);
      }
    }
  }

  /** Whitespace in front of a text, however much and of whichever kind, adds no word. */
  lemma FieldsPad(p: string, s: string)
    requires forall i :: 0 <= i < |p| ==> IsSpace(p[i])
    ensures Fields(p + s) == Fields(s)
  {
    TrimLeftPad(p, s);
  }

  lemma FieldsNothing()
    ensures Fields("") == []
  {
  }

  lemma FieldsSkipBlank(s: string)
    ensures Fields(" " + s) == Fields(s)
  {
    assert (" " + s)[1..] == s;
    assert TrimLeft(" " + s) == TrimLeft(s);
  }

  /** The joined words are trimmed, and a list of words never contains a newline. */
  lemma {:induction false} JoinWordsClean(words: seq<string>)
    requires forall w :: w in words ==> IsWord(w)
    ensures NewlineFree(JoinWords(words))
    ensures words != [] ==> JoinWords(words) != "" && Trimmed(JoinWords(words))
    ensures |words| > 1 ==> ' ' in JoinWords(words)
    decreases |words|
  {
    if |words| == 1 {
      assert words[0] in words;
    } else if |words| > 1 {
      assert words[0] in words;
      JoinWordsClean(words[1..]);
      var tail := JoinWords(words[1..]);
      assert JoinWords(words) == words[0] + " " + tail;
      assert JoinWords(words)[|words[0]|] == ' ';
    }
  }

  // ---- booleans ----

  /** strconv.ParseBool. */
  function ParseBool(s: string): Option<bool> {
    if s in {"1", "t", "T", "true", "TRUE", "True"} then Some(true)
    else if s in {"0", "f", "F", "false", "FALSE", "False"} then Some(false)
    else None
  }
}
