/** An env file as text: the editor's and the parser's views of the same bytes. */
module EnvFile {
  import opened Wrappers
  import opened Text
  import opened EnvLine
  import opened EnvEdit
  import opened Order

  // ---- text and lines ----

  /** readEnvLines on a file that exists. */
  function ReadLines(text: string): (lines: seq<string>)
    ensures forall l :: l in lines ==> NewlineFree(l)
  {
    var body := if text != "" && text[|text| - 1] == '\n' then text[..|text| - 1] else text;
    if body == "" then [] else Split(body)
  }

  /** The bytes that writeEnvLines writes. */
  function WriteText(lines: seq<string>): string {
    Join(lines) + "\n"
  }

  function DropCR(line: string): string {
    if line != "" && line[|line| - 1] == '\r' then line[..|line| - 1] else line
  }

  /** The lines that bufio.Scanner hands to parseEnvFile. */
  function ScanLines(text: string): seq<string>
    decreases |text|
  {
    if text == "" then []
    else
      var i := IndexOf(text, '\n');
      if i == |text| then [DropCR(text)] else [DropCR(text[..i])] + ScanLines(text[i + 1..])
  }

  function ParseText(text: string): map<string, string> {
    ParseLines(ScanLines(text))
  }

  /** Lines that were written are the lines that are read, except for the one-line empty document. */
  lemma WriteThenRead(lines: seq<string>)
    requires forall l :: l in lines ==> NewlineFree(l)
    ensures ReadLines(WriteText(lines)) == if lines == [""] then [] else lines
  {
    var text := WriteText(lines);
    assert text[..|text| - 1] == Join(lines);
    JoinEmpty(lines);
    if Join(lines) != "" {
      SplitJoin(lines);
    }
  }

  /** Reading and writing back only puts a newline at the end of a text that lacks one. */
  lemma ReadThenWrite(text: string)
    ensures WriteText(ReadLines(text)) == if text != "" && text[|text| - 1] == '\n' then text else text + "\n"
  {
    var body := if text != "" && text[|text| - 1] == '\n' then text[..|text| - 1] else text;
    JoinSplit(body);
  }

  /** One carriage return comes off the end of a line, and nothing else. */
  lemma CrDropped(line: string)
    ensures DropCR(line + "\r") == line
    ensures (line == "" || line[|line| - 1] != '\r') ==> DropCR(line) == line
  {
    assert (line + "\r")[..|line|] == line;
  }

  lemma DropCRParse(line: string)
    ensures ParseLine(DropCR(line)) == ParseLine(line)
  {
    if DropCR(line) != line {
      assert line == DropCR(line) + "\r";
      PaddedLine(DropCR(line), "\r");
    }
  }

  lemma ScanCons(l: string, rest: string)
    requires NewlineFree(l)
    ensures ScanLines(l + "\n" + rest) == [DropCR(l)] + ScanLines(rest)
  {
    hide DropCR;
    IndexOfCons(l, '\n', rest);
    SliceCons(l, '\n', rest);
  }

  lemma BeforeNewline(s: string)
    ensures NewlineFree(s[..IndexOf(s, '\n')])
  {
    var p := s[..IndexOf(s, '\n')];
    forall k | 0 <= k < |p|
      ensures p[k] != '\n'
    {
      assert p[k] == s[k];
    }
  }

  lemma ScanLastLine(body: string, closed: bool)
    requires NewlineFree(body) && (closed || body != "")
    ensures Split(body) == [body]
    ensures ScanLines(if closed then body + "\n" else body) == [DropCR(body)]
  {
    hide DropCR;
    if closed {
      ScanCons(body, "");
      assert body + "\n" + "" == body + "\n";
    }
  }

  /** The scanner and strings.Split cut a text at the same places. */
  lemma {:induction false} ScanIsSplit(body: string, closed: bool)
    requires closed || (body != "" && body[|body| - 1] != '\n')
    ensures var text := if closed then body + "\n" else body;
            && |ScanLines(text)| == |Split(body)|
            && forall i :: 0 <= i < |Split(body)| ==> ScanLines(text)[i] == DropCR(Split(body)[i])
    decreases |body|
  {
    hide DropCR, ScanLines, Split, IndexOf;
    if NewlineFree(body) {
      ScanLastLine(body, closed);
    } else {
      var i := IndexOf(body, '\n');
      CutAt(body, i);
      BeforeNewline(body);
      var l, rest := body[..i], body[i + 1..];
      var rest' := if closed then rest + "\n" else rest;
      assert l + "\n" + rest' == if closed then body + "\n" else body;
      ScanCons(l, rest');
      SplitCons(l, rest);
      ScanIsSplit(rest, closed);
    }
  }

  lemma {:induction false} SameParse(a: seq<string>, b: seq<string>)
    requires |a| == |b| && forall i :: 0 <= i < |a| ==> ParseLine(a[i]) == ParseLine(b[i])
    ensures ParseLines(a) == ParseLines(b)
    decreases |a|
  {
    hide ParseLine;
    if a != [] {
      SameParse(a[..|a| - 1], b[..|b| - 1]);
    }
  }

  /** The parser reads the text as the list of lines that the editor sees. */
  lemma ParseTextIsParseLines(text: string)
    ensures ParseText(text) == ParseLines(ReadLines(text))
  {
    hide ParseLine, DropCR;
    if text != "" {
      var closed := text[|text| - 1] == '\n';
      var body := if closed then text[..|text| - 1] else text;
      assert text == if closed then body + "\n" else body;
      ScanIsSplit(body, closed);
      var a, b := ScanLines(text), Split(body);
      forall i | 0 <= i < |a|
        ensures ParseLine(a[i]) == ParseLine(b[i])
      {
        DropCRParse(b[i]);
      }
      SameParse(a, b);
      if body == "" {
        BlankLineParses();
      }
    }
  }

  lemma BlankLineParses()
    ensures ParseLines([""]) == map[]
  {
    assert [""][..0] == [];
  }

  /** A text whose lines are all blank or comments assigns nothing. */
  lemma CommentsAssignNothing(text: string)
    requires forall l :: l in ReadLines(text) ==> Trim(l) == "" || HasPrefix(Trim(l), '#')
    ensures ParseText(text) == map[]
  {
    hide ParseText, ReadLines;
    ParseTextIsParseLines(text);
    CommentLines(ReadLines(text));
  }

  lemma {:induction false} CommentLines(lines: seq<string>)
    requires forall l :: l in lines ==> Trim(l) == "" || HasPrefix(Trim(l), '#')
    ensures ParseLines(lines) == map[]
    decreases |lines|
  {
    hide Trim;
    if lines != [] {
      assert lines[|lines| - 1] in lines;
      CommentLines(lines[..|lines| - 1]);
    }
  }

  // ---- the editor on text ----

  ghost function SetText(text: string, values: map<string, string>): string
    requires AllQuotable(values)
  {
    WriteText(SetLines(ReadLines(text), values))
  }

  function UnsetText(text: string, keys: set<string>): string {
    WriteText(UnsetLines(ReadLines(text), keys))
  }

  predicate NewlineFreeValues(values: map<string, string>) {
    forall k :: k in values ==> NewlineFree(values[k])
  }

  lemma {:induction false} AssignAllNewlineFree(keys: seq<string>, values: map<string, string>)
    requires AllQuotable(values) && PatternKeys(values) && NewlineFreeValues(values)
    requires forall k :: k in keys ==> k in values
    ensures forall l :: l in AssignAll(keys, values) ==> NewlineFree(l)
  {
    hide Assign, IsKey, HasBothQuotes;
    forall i | 0 <= i < |keys|
      ensures NewlineFree(AssignAll(keys, values)[i])
    {
      AssignNewlineFree(keys[i], values[keys[i]]);
    }
  }

  lemma SetLinesNewlineFree(lines: seq<string>, values: map<string, string>)
    requires AllQuotable(values) && PatternKeys(values) && NewlineFreeValues(values)
    requires forall l :: l in lines ==> NewlineFree(l)
    ensures forall l :: l in SetLines(lines, values) ==> NewlineFree(l)
  {
    hide Assign, KeyOfLine, IsTarget, Separator, IsKey, HasBothQuotes;
    var body := EditedLines(lines, values);
    forall i | 0 <= i < |lines|
      ensures NewlineFree(body[i])
    {
      forall k | k in values
        ensures NewlineFree(Assign(k, values[k]))
      {
        AssignNewlineFree(k, values[k]);
      }
      assert lines[i] in lines;
    }
    AssignAllNewlineFree(Sorted(NewKeys(lines, values)), values);
    SeparatorNewlineFree(body);
  }

  lemma SeparatorNewlineFree(lines: seq<string>)
    ensures forall l :: l in Separator(lines) ==> NewlineFree(l)
  {
  }

  lemma SetLinesNotBlank(lines: seq<string>, values: map<string, string>)
    requires AllQuotable(values) && PatternKeys(values) && lines != [""]
    ensures SetLines(lines, values) != [""]
  {
    hide Assign, KeyOfLine, IsTarget, Separator, IsKey, HasBothQuotes, EditedLine;
    if values == map[] {
      EditNothing(lines);
    } else {
      var k :| k in values;
      var f := FirstWritten(lines, values, k);
      BlankLineInactive();
    }
  }

  lemma BlankLineInactive()
    ensures Active("") == None
  {
  }

  lemma EditNothing(lines: seq<string>)
    ensures SetLines(lines, map[]) == lines
  {
    hide KeyOfLine;
    assert EditedLines(lines, map[]) == lines;
    assert NewKeys(lines, map[]) == {};
  }

  /** Reading back the written text gives exactly the edited lines. */
  lemma SetTextReads(text: string, values: map<string, string>)
    requires AllQuotable(values) && PatternKeys(values) && NewlineFreeValues(values)
    ensures ReadLines(SetText(text, values)) == SetLines(ReadLines(text), values)
  {
    hide SetLines, AllQuotable, PatternKeys, NewlineFreeValues, WriteText;
    var lines := ReadLines(text);
    SetLinesNewlineFree(lines, values);
    ReadLinesNotBlank(text);
    SetLinesNotBlank(lines, values);
    WriteThenRead(SetLines(lines, values));
  }

  lemma ReadLinesNotBlank(text: string)
    ensures ReadLines(text) != [""]
  {
    var body := if text != "" && text[|text| - 1] == '\n' then text[..|text| - 1] else text;
    JoinSplit(body);
  }

  /** Editing the bytes of a file refines a map update of what the parser reads from them. */
  lemma SetTextRefinesUpdate(text: string, values: map<string, string>)
    requires AllQuotable(values) && PatternKeys(values) && NewlineFreeValues(values)
    ensures ParseText(SetText(text, values)) == ParseText(text) + Effective(ReadLines(text), values)
  {
    hide SetLines, AllQuotable, PatternKeys, NewlineFreeValues, ReadLines, ParseText, SetText;
    ParseTextIsParseLines(text);
    ParseTextIsParseLines(SetText(text, values));
    SetTextReads(text, values);
    SetRefinesUpdate(ReadLines(text), values);
  }

  /** Writing the same values twice leaves the bytes of the first write. */
  lemma SetTextIdempotent(text: string, values: map<string, string>)
    requires AllQuotable(values) && PatternKeys(values) && NewlineFreeValues(values)
    ensures SetText(SetText(text, values), values) == SetText(text, values)
  {
    hide SetLines, AllQuotable, PatternKeys, NewlineFreeValues, ReadLines;
    SetTextReads(text, values);
    SetIdempotent(ReadLines(text), values);
  }

  lemma {:induction false} UnsetLinesNewlineFree(lines: seq<string>, keys: set<string>)
    requires forall l :: l in lines ==> NewlineFree(l)
    ensures forall l :: l in UnsetLines(lines, keys) ==> NewlineFree(l)
    decreases |lines|
  {
    hide KeyOfLine, Kept;
    if lines != [] {
      UnsetLinesNewlineFree(lines[..|lines| - 1], keys);
      assert lines[|lines| - 1] in lines;
    }
  }

  /** Unsetting keys in the bytes of a file removes them from what the parser reads. */
  lemma UnsetTextRefinesRemoval(text: string, keys: set<string>)
    ensures ParseText(UnsetText(text, keys)) == ParseText(text) - (set k | k in keys && IsKey(k))
  {
    hide UnsetLines, ReadLines, ParseText, UnsetText, ParseLine, KeyOfLine;
    var lines := UnsetLines(ReadLines(text), keys);
    ParseTextIsParseLines(text);
    ParseTextIsParseLines(UnsetText(text, keys));
    UnsetLinesNewlineFree(ReadLines(text), keys);
    UnsetTextReads(text, keys);
    BlankLineParses();
    UnsetRefinesRemoval(ReadLines(text), keys);
  }

  lemma UnsetTextReads(text: string, keys: set<string>)
    ensures var lines := UnsetLines(ReadLines(text), keys);
            ReadLines(UnsetText(text, keys)) == if lines == [""] then [] else lines
  {
    hide UnsetLines, ReadLines, WriteText;
    UnsetLinesNewlineFree(ReadLines(text), keys);
    WriteThenRead(UnsetLines(ReadLines(text), keys));
  }

  // ---- which values survive ----

  lemma ParsedLineNewlineFree(line: string)
    requires NewlineFree(line)
    ensures ParseLine(line).Some? ==> NewlineFree(ParseLine(line).value.1)
  {
    TrimKeepsContents(line, '\n');
    var s := Trim(line);
    var i := IndexOf(s, '=');
    if i < |s| {
      var v := s[i + 1..];
      assert forall j :: 0 <= j < |v| ==> v[j] == s[i + 1 + j];
      TrimKeepsContents(v, '\n');
    }
  }

  lemma {:induction false} ParsedNewlineFree(lines: seq<string>, k: string)
    requires forall l :: l in lines ==> NewlineFree(l)
    ensures k in ParseLines(lines) ==> NewlineFree(ParseLines(lines)[k])
    decreases |lines|
  {
    hide ParseLine;
    if lines != [] {
      assert lines[|lines| - 1] in lines;
      ParsedNewlineFree(lines[..|lines| - 1], k);
      ParsedLineNewlineFree(lines[|lines| - 1]);
    }
  }

  /** A value comes back from the file exactly when it has no newline and either gets quoted or
      has no whitespace at its ends. */
  lemma ValueSurvivesIff(text: string, k: string, v: string)
    requires IsKey(k) && !HasBothQuotes(v) && Count(ReadLines(text), k) <= 1
    ensures var after := ParseText(SetText(text, map[k := v]));
            (k in after && after[k] == v) <==>
              && '\n' !in v
              && (|| v == "" || ' ' in v || '\t' in v || '"' in v || '\'' in v || '#' in v
                  || (!IsSpace(v[0]) && !IsSpace(v[|v| - 1])))
  {
    hide ReadLines, ParseText, SetText, ParseLine, KeyOfLine, Reread, IsKey, HasBothQuotes;
    var after := SetText(text, map[k := v]);
    AssignParses(k, v);
    if NewlineFree(v) {
      SetTextRefinesUpdate(text, map[k := v]);
    } else {
      ParseTextIsParseLines(after);
      ParsedNewlineFree(ReadLines(after), k);
    }
  }
}
