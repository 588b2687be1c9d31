/** One line of an env file: recognising the key, quoting a value, reading it back. */
module EnvLine {
  import opened Wrappers
  import opened Text

  // ---- keys ----

  predicate KeyStart(c: char) {
    c == '_' || 'A' <= c <= 'Z'
  }

  predicate KeyChar(c: char) {
    KeyStart(c) || '0' <= c <= '9'
  }

  /** The pattern ^[A-Z_][A-Z0-9_]*$. */
  predicate IsKey(s: string) {
    s != "" && KeyStart(s[0]) && forall i :: 0 <= i < |s| ==> KeyChar(s[i])
  }

  /** strings.TrimLeft(s, "#"). */
  function TrimHashes(s: string): string {
    if HasPrefix(s, '#') then TrimHashes(s[1..]) else s
  }

  /** The part of a trimmed line before its first '=', when that is a key. */
  function KeyBeforeEquals(s: string): Option<string> {
    var i := IndexOf(s, '=');
    if i == |s| then None
    else
      var key := Trim(s[..i]);
      if IsKey(key) then Some(key) else None
  }

  /** envKeyOfLine. An active key is exactly a key-shaped name that the parser would read;
      a commented line is one the parser ignores. */
  function KeyOfLine(line: string, commented: bool): (r: Option<string>)
    ensures r.Some? ==> IsKey(r.value)
    ensures !commented ==>
              (r.Some? <==> ParseLine(line).Some? && IsKey(ParseLine(line).value.0))
    ensures !commented && r.Some? ==> r.value == ParseLine(line).value.0
    ensures commented && r.Some? ==> ParseLine(line).None?
  {
    var s := Trim(line);
    if commented then
      if HasPrefix(s, '#') then KeyBeforeEquals(Trim(TrimHashes(s))) else None
    else
      if s == "" || HasPrefix(s, '#') then None else KeyBeforeEquals(s)
  }

  /** A commented-out line has the key that it would have with its leading hashes removed. */
  lemma UncommentedKey(line: string)
    ensures KeyOfLine(line, true) ==
            if HasPrefix(Trim(line), '#') then KeyOfLine(TrimHashes(Trim(line)), false) else None
  {
    var s := Trim(TrimHashes(Trim(line)));
    if HasPrefix(s, '#') {
      HashIsNoKey(s);
    }
  }

  lemma HashIsNoKey(s: string)
    requires HasPrefix(s, '#') && Trimmed(s)
    ensures KeyBeforeEquals(s) == None
  {
    var i := IndexOf(s, '=');
    if i < |s| {
      var k := s[..i];
      TrimRightPrefix(k);
      assert TrimLeft(k) == k;
      assert k[0] == '#';
    }
  }

  // ---- values ----

  predicate Contains(v: string, c: char) {
    c in v
  }

  /** The values that quoteEnvValue puts between quotes: empty ones and those that contain
      a blank, a tab, a quote or a '#'. */
  predicate NeedsQuotes(v: string) {
    v == "" || Contains(v, ' ') || Contains(v, '\t') || Contains(v, '"') || Contains(v, '\'') || Contains(v, '#')
  }

  predicate HasBothQuotes(v: string) {
    Contains(v, '"') && Contains(v, '\'')
  }

  /** quoteEnvValue; None is its error. What it makes of a value strips back to that value, and a
      value that is left as it is needed no quotes. */
  function Quote(v: string): (r: Option<string>)
    ensures r.None? <==> HasBothQuotes(v)
    ensures r.Some? ==> StripQuotes(r.value) == v
    ensures r.Some? ==> (r.value == v <==> !NeedsQuotes(v))
    ensures r.Some? && NeedsQuotes(v) ==> Trimmed(r.value) && |r.value| == |v| + 2
  {
    if !NeedsQuotes(v) then Some(v)
    else if HasBothQuotes(v) then None
    else if Contains(v, '"') then Some("'" + v + "'")
    else Some("\"" + v + "\"")
  }

  /** stripQuotes. */
  function StripQuotes(s: string): string {
    if |s| >= 2 && ((s[0] == '"' && s[|s| - 1] == '"') || (s[0] == '\'' && s[|s| - 1] == '\''))
    then s[1..|s| - 1]
    else s
  }

  /** What parseEnvFile does with one line. */
  function ParseLine(line: string): Option<(string, string)> {
    var s := Trim(line);
    if s == "" || HasPrefix(s, '#') then None
    else
      var i := IndexOf(s, '=');
      if i == |s| then None
      else Some((Trim(s[..i]), StripQuotes(Trim(s[i + 1..]))))
  }

  // ---- the assignment line ----

  function Assign(k: string, v: string): string
    requires !HasBothQuotes(v)
  {
    k + "=" + Quote(v).value
  }

  /** What a written value is read back as. */
  function Reread(v: string): string {
    if NeedsQuotes(v) then v else Trim(v)
  }

  /** A blank, a tab, a quote or a '#' somewhere in the value. */
  predicate HoldsSpecial(v: string) {
    ' ' in v || '\t' in v || '"' in v || '\'' in v || '#' in v
  }

  /** The values that survive being written and read back: those that hold such a character and those
      without whitespace at either end. */
  predicate Storable(v: string) {
    v == "" || HoldsSpecial(v) || (!IsSpace(v[0]) && !IsSpace(v[|v| - 1]))
  }

  /** What stands behind the '=', by the characters of the value: the value in single quotes if it holds
      a double quote, in double quotes if it is empty or holds a blank, a tab, a single quote or a '#',
      and otherwise the value as it is. A value with both kinds of quotes cannot be written. */
  lemma QuoteExact(v: string)
    ensures '"' in v && '\'' in v ==> Quote(v) == None
    ensures '"' in v && '\'' !in v ==> Quote(v) == Some("'" + v + "'")
    ensures '"' !in v && (v == "" || ' ' in v || '\t' in v || '\'' in v || '#' in v) ==>
        Quote(v) == Some("\"" + v + "\"")
    ensures '"' !in v && '\'' !in v && v != "" && ' ' !in v && '\t' !in v && '#' !in v ==> Quote(v) == Some(v)
  {
  }

  /** Round trip of one value through its written line: it comes back whole exactly when it is empty, or
      holds a blank, a tab, a quote or a '#', or has no whitespace at its ends; otherwise it comes back
      without that whitespace. */
  lemma ReadBackIff(k: string, v: string)
    requires IsKey(k) && !('"' in v && '\'' in v)
    ensures Quote(v).Some?
    ensures var line := k + "=" + Quote(v).value;
            && ParseLine(line).Some? && ParseLine(line).value.0 == k
            && (ParseLine(line).value.1 == v <==>
                  || v == "" || ' ' in v || '\t' in v || '"' in v || '\'' in v || '#' in v
                  || (!IsSpace(v[0]) && !IsSpace(v[|v| - 1])))
            && (ParseLine(line).value.1 == v || ParseLine(line).value.1 == Trim(v))
  {
    AssignParses(k, v);
    hide ParseLine, KeyOfLine, Trim;
  }

  const LETTERS: set<char> := {'A', 'B', 'C', 'D', 'E', 'F', 'G', 'H', 'I', 'J', 'K', 'L', 'M',
                               'N', 'O', 'P', 'Q', 'R', 'S', 'T', 'U', 'V', 'W', 'X', 'Y', 'Z'}
  const DIGITS: set<char> := {'0', '1', '2', '3', '4', '5', '6', '7', '8', '9'}

  /** A key is made of the letters A to Z, the digits and the underscore, and starts with no digit. */
  lemma KeyExact(s: string)
    ensures IsKey(s) <==>
            && s != "" && s[0] !in DIGITS
            && forall i :: 0 <= i < |s| ==> s[i] in LETTERS || s[i] in DIGITS || s[i] == '_'
  {
    hide KeyChar, KeyStart;
    if s != "" {
      KeyLetters(s[0]);
    }
    forall i | 0 <= i < |s|
      ensures KeyChar(s[i]) <==> s[i] in LETTERS || s[i] in DIGITS || s[i] == '_'
    {
      KeyLetters(s[i]);
    }
  }

  lemma KeyLetters(c: char)
    ensures KeyChar(c) <==> c in LETTERS || c in DIGITS || c == '_'
    ensures KeyStart(c) <==> c in LETTERS || c == '_'
    ensures c in DIGITS ==> c !in LETTERS && c != '_'
  {
    assert c in LETTERS <==> 'A' <= c <= 'Z';
    assert c in DIGITS <==> '0' <= c <= '9';
  }

  /** How the parser reads any line: one without '=', a blank one and a comment give nothing; any other
      gives the text before the first '=' as key and the text behind it as value, both without the
      whitespace around them, the value also without one pair of equal quotes around it. */
  lemma ParseLineExact(before: string, key: string, value: string, after: string)
    requires (forall i :: 0 <= i < |before| ==> IsSpace(before[i]))
    requires (forall i :: 0 <= i < |after| ==> IsSpace(after[i]))
    requires key != "" && !IsSpace(key[0]) && key[0] != '#' && '=' !in key
    requires value != "" ==> !IsSpace(value[|value| - 1])
    ensures ParseLine(before + (key + "=" + value) + after) == Some((Trim(key), StripQuotes(Trim(value))))
  {
    var s := key + "=" + value;
    assert s[0] == key[0] && s[|s| - 1] == if value == "" then '=' else value[|value| - 1];
    TrimPadded(before, s, after);
    IndexOfCons(key, '=', value);
    SliceCons(key, '=', value);
  }

  lemma ParsesNothing(line: string)
    requires || '=' !in line
             || (forall i :: 0 <= i < |line| ==> IsSpace(line[i]))
             || (Trim(line) != "" && Trim(line)[0] == '#')
    ensures ParseLine(line) == None
  {
    if '=' !in line {
      TrimKeepsContents(line, '=');
    }
    if forall i :: 0 <= i < |line| ==> IsSpace(line[i]) {
      TrimPadded(line, "", "");
      assert line + "" + "" == line;
    }
  }

  /** Quotes come off exactly as one pair of the same kind around the whole value. */
  lemma StripExact(v: string)
    ensures StripQuotes("\"" + v + "\"") == v && StripQuotes("'" + v + "'") == v
    ensures !(|v| >= 2 && v[0] == v[|v| - 1] && (v[0] == '"' || v[0] == '\'')) ==> StripQuotes(v) == v
  {
    assert ("\"" + v + "\"")[1..|v| + 1] == v && ("'" + v + "'")[1..|v| + 1] == v;
  }

  lemma KeyShape(k: string)
    requires IsKey(k)
    ensures k != "" && !IsSpace(k[0]) && k[0] != '#'
    ensures Trim(k) == k && '=' !in k && NewlineFree(k)
  {
    assert forall i :: 0 <= i < |k| ==> KeyChar(k[i]);
  }

  lemma AssignTrim(k: string, r: string)
    requires k != "" && !IsSpace(k[0]) && (r != "" ==> !IsSpace(r[|r| - 1]))
    ensures Trim(k + "=" + r) == k + "=" + r
  {
    var line := k + "=" + r;
    assert line[0] == k[0];
    assert Trimmed(line) by {
      assert line[|line| - 1] == if r == "" then '=' else r[|r| - 1];
    }
  }

  /** A text that trimming leaves alone is read at its first '='. */
  lemma TrimmedAssignParses(k: string, r: string)
    requires k != "" && k[0] != '#' && '=' !in k && Trim(k) == k
    requires Trim(k + "=" + r) == k + "=" + r
    ensures ParseLine(k + "=" + r) == Some((k, StripQuotes(Trim(r))))
    ensures KeyOfLine(k + "=" + r, true) == None
  {
    var s := k + "=" + r;
    assert s[0] == k[0];
    IndexOfCons(k, '=', r);
    SliceCons(k, '=', r);
  }

  /** Reading a written assignment gives the key and the re-read value, which is the value
      itself exactly when the value is storable. */
  lemma AssignParses(k: string, v: string)
    requires IsKey(k) && !HasBothQuotes(v)
    ensures ParseLine(Assign(k, v)) == Some((k, Reread(v)))
    ensures KeyOfLine(Assign(k, v), false) == Some(k)
    ensures KeyOfLine(Assign(k, v), true) == None
    ensures Reread(v) == v <==> Storable(v)
  {
    KeyShape(k);
    if NeedsQuotes(v) {
      AssignQuotedParses(k, v);
    } else {
      AssignPlainParses(k, v);
    }
  }

  lemma AssignQuotedParses(k: string, v: string)
    requires IsKey(k) && !HasBothQuotes(v) && NeedsQuotes(v)
    ensures ParseLine(Assign(k, v)) == Some((k, v))
    ensures KeyOfLine(Assign(k, v), true) == None
  {
    var q := Quote(v).value;
    KeyShape(k);
    AssignTrim(k, q);
    TrimmedAssignParses(k, q);
    assert Trimmed(q) && q[1..|q| - 1] == v;
  }

  lemma AssignPlainParses(k: string, v: string)
    requires IsKey(k) && !NeedsQuotes(v)
    ensures ParseLine(Assign(k, v)) == Some((k, Trim(v)))
    ensures KeyOfLine(Assign(k, v), true) == None
  {
    var r, pad := PlainShape(k, v);
    PlainWithPad(k, r, pad);
    PlainStrip(v);
  }

  lemma PlainShape(k: string, v: string) returns (r: string, pad: string)
    requires !NeedsQuotes(v)
    ensures r != "" ==> !IsSpace(r[|r| - 1])
    ensures forall i :: 0 <= i < |pad| ==> IsSpace(pad[i])
    ensures Assign(k, v) == (k + "=" + r) + pad && Trim(r) == Trim(v)
  {
    r := TrimRight(v);
    pad := v[|r|..];
    TrimRightPrefix(v);
    hide TrimRight, TrimLeft;
    assert v == r + pad;
    TrimPadRight(r, pad);
    assert Assign(k, v) == k + "=" + v;
    assert k + "=" + (r + pad) == (k + "=" + r) + pad;
  }

  lemma PlainStrip(v: string)
    requires !NeedsQuotes(v)
    ensures StripQuotes(Trim(v)) == Trim(v)
  {
    TrimKeepsContents(v, '"');
    TrimKeepsContents(v, '\'');
    NothingToStrip(Trim(v));
  }

  lemma PlainWithPad(k: string, r: string, pad: string)
    requires IsKey(k) && (r != "" ==> !IsSpace(r[|r| - 1]))
    requires forall i :: 0 <= i < |pad| ==> IsSpace(pad[i])
    ensures ParseLine((k + "=" + r) + pad) == Some((k, StripQuotes(Trim(r))))
    ensures KeyOfLine((k + "=" + r) + pad, true) == None
  {
    KeyShape(k);
    AssignTrim(k, r);
    TrimmedAssignParses(k, r);
    PaddedLine(k + "=" + r, pad);
  }

  lemma PaddedLine(line: string, pad: string)
    requires forall i :: 0 <= i < |pad| ==> IsSpace(pad[i])
    ensures ParseLine(line + pad) == ParseLine(line)
    ensures KeyOfLine(line + pad, true) == KeyOfLine(line, true)
  {
    TrimPadRight(line, pad);
  }

  lemma NothingToStrip(s: string)
    requires !Contains(s, '"') && !Contains(s, '\'')
    ensures StripQuotes(s) == s
  {
    assert s != "" ==> s[0] in s;
  }

  lemma AssignNewlineFree(k: string, v: string)
    requires IsKey(k) && !HasBothQuotes(v) && NewlineFree(v)
    ensures NewlineFree(Assign(k, v))
  {
    KeyShape(k);
  }
}
