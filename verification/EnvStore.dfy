/** The config directory: SetEnvValues and UnsetEnvValues as they act on files. */
module EnvStore {
  import opened Wrappers
  import opened EnvLine
  import opened EnvEdit
  import opened EnvFile
  import opened Order

  datatype FileData = FileData(text: string, mode: nat)

  const PRIVATE_MODE: nat := 384  // 0600

  /** The calls that writeEnvLines makes, in order. */
  datatype Step = Mkdir | CreateTemp | WriteString | CloseTemp | Chmod | Rename

  /** What the operating system does to one edit: let it complete, fail a call, or end the
      process just before a call. */
  datatype Fate = Completes | ReadFails | FailsAt(step: Step) | DiesBefore(step: Step)

  /** The operation comes to its end at one of these calls. */
  predicate Ends(fate: Fate, steps: set<Step>) {
    (fate.FailsAt? || fate.DiesBefore?) && fate.step in steps
  }

  lemma EveryStep(fate: Fate)
    ensures fate.FailsAt? || fate.DiesBefore? ==>
              Ends(fate, {Mkdir, CreateTemp, WriteString, CloseTemp, Chmod}) || fate.step == Rename
    ensures Ends(fate, {Mkdir, CreateTemp, WriteString, CloseTemp, Chmod}) ==> fate.step != Rename
  {
  }

  datatype Outcome = Written | Unchanged | Failed | Died | CannotQuote(key: string)

  /** The lines and mode that an edit starts from. */
  function LinesOf(files: map<string, FileData>, path: string): seq<string> {
    if path in files then ReadLines(files[path].text) else []
  }

  function ModeOf(files: map<string, FileData>, path: string): nat {
    if path in files then files[path].mode else PRIVATE_MODE
  }

  /** What parseEnvFile reads from a path; a missing file reads as empty. */
  function Parsed(files: map<string, FileData>, path: string): map<string, string> {
    if path in files then ParseText(files[path].text) else map[]
  }

  lemma ParsedIsParseLines(files: map<string, FileData>, path: string)
    ensures Parsed(files, path) == ParseLines(LinesOf(files, path))
  {
    if path in files {
      ParseTextIsParseLines(files[path].text);
    }
  }

  /** The files after a completed SetEnvValues. */
  ghost function AfterSet(files: map<string, FileData>, path: string, values: map<string, string>): map<string,
                          FileData>
    requires AllQuotable(values)
  {
    files[path := FileData(WriteText(SetLines(LinesOf(files, path), values)), ModeOf(files, path))]
  }

  /** The files after a completed UnsetEnvValues: a missing file stays missing. */
  function AfterUnset(files: map<string, FileData>, path: string, keys: set<string>): map<string, FileData> {
    if path !in files then files
    else files[path := FileData(WriteText(UnsetLines(LinesOf(files, path), keys)), ModeOf(files, path))]
  }

  /** A completed edit changes what every file parses to only at the edited path, and there it
      is a map update. */
  lemma AfterSetParses(files: map<string, FileData>, path: string, values: map<string, string>, p: string)
    requires AllQuotable(values) && PatternKeys(values) && NewlineFreeValues(values)
    ensures Parsed(AfterSet(files, path, values), p) ==
            if p == path then Parsed(files, path) + Effective(LinesOf(files, path), values) else Parsed(files, p)
    ensures LinesOf(AfterSet(files, path, values), path) == SetLines(LinesOf(files, path), values)
  {
    hide SetLines, AllQuotable, PatternKeys, NewlineFreeValues, ReadLines, ParseText, ParseLines;
    var text := if path in files then files[path].text else "";
    assert ReadLines("") == [] && ParseText("") == map[] by { EmptyText(); }
    assert WriteText(SetLines(LinesOf(files, path), values)) == SetText(text, values);
    SetTextReads(text, values);
    SetTextRefinesUpdate(text, values);
  }

  lemma EmptyText()
    ensures ReadLines("") == [] && ParseText("") == map[]
  {
  }

  lemma AfterUnsetParses(files: map<string, FileData>, path: string, keys: set<string>, p: string)
    ensures Parsed(AfterUnset(files, path, keys), p) ==
            if p == path then Parsed(files, path) - (set k | k in keys && IsKey(k)) else Parsed(files, p)
  {
    hide UnsetLines, ReadLines, ParseText, ParseLines, IsKey;
    if path in files {
      UnsetTextRefinesRemoval(files[path].text, keys);
    }
  }

  /** The assignments in every file after a completed edit. */
  lemma AfterSetAssigned(files: map<string, FileData>, path: string, values: map<string, string>, p: string, k: string)
    requires AllQuotable(values) && PatternKeys(values) && NewlineFreeValues(values)
    ensures Assigned(LinesOf(AfterSet(files, path, values), p), k) ==
            if p == path && k in values then [Reread(values[k])] + Rest(Assigned(LinesOf(files, p), k))
            else Assigned(LinesOf(files, p), k)
  {
    hide SetLines, Assigned, ReadLines, Reread, IsKey, HasBothQuotes;
    AfterSetParses(files, path, values, p);
    SetAssigned(LinesOf(files, path), values, k);
  }

  lemma AfterUnsetAssigned(files: map<string, FileData>, path: string, keys: set<string>, p: string, k: string)
    ensures Assigned(LinesOf(AfterUnset(files, path, keys), p), k) ==
            if p == path && k in keys && IsKey(k) then [] else Assigned(LinesOf(files, p), k)
  {
    hide UnsetLines, ReadLines, IsKey, ParseLine;
    if path in files {
      var text := files[path].text;
      UnsetTextReads(text, keys);
      UnsetAssigned(ReadLines(text), keys, k);
      AssignedOne("", k);
      BlankAssignsNothing(k);
    }
  }

  lemma BlankAssignsNothing(k: string)
    ensures AssignedBy("", k) == []
  {
  }

  // ---- the two rewriting passes ----

  /** Line i after one pass over the lines. */
  function PassLine(lines: seq<string>, values: map<string, string>, commented: bool, i: nat): string
    requires i < |lines|
  {
    match KeyOfLine(lines[i], commented)
    case Some(k) =>
      if k in values && !HasBothQuotes(values[k]) && FirstWithKey(lines, i, k, commented)
      then Assign(k, values[k]) else lines[i]
    case None => lines[i]
  }

  ghost predicate HasKeyBefore(lines: seq<string>, k: string, commented: bool, n: nat)
    requires n <= |lines|
  {
    exists j :: 0 <= j < n && KeyOfLine(lines[j], commented) == Some(k)
  }

  /** The values that a pass over the first n lines leaves pending. */
  ghost function Pending(lines: seq<string>, values: map<string, string>, commented: bool, n: nat): map<string, string>
    requires n <= |lines|
  {
    map k | k in values && !HasKeyBefore(lines, k, commented, n) :: values[k]
  }

  /** One of the two loops of SetEnvValues: rewrite the first matching line of each pending key. */
  method RewritePass(lines: array<string>, values: map<string, string>, commented: bool)
    returns (pending: map<string, string>, bad: Option<string>)
    modifies lines
    ensures bad.Some? ==> bad.value in values && HasBothQuotes(values[bad.value])
    ensures bad.None? ==> pending == Pending(old(lines[..]), values, commented, lines.Length)
    ensures bad.None? ==> forall k :: k in values && k !in pending ==> !HasBothQuotes(values[k])
    ensures bad.None? ==> forall i :: 0 <= i < lines.Length ==>
            lines[i] == PassLine(old(lines[..]), values, commented, i)
  {
    hide KeyOfLine, Assign, HasBothQuotes, PassLine, Pending;
    ghost var all := lines[..];
    pending := values;
    bad := None;
    PendingNone(all, values, commented);
    for i := 0 to lines.Length
      invariant pending == Pending(all, values, commented, i)
      invariant forall k :: k in values && k !in pending ==> !HasBothQuotes(values[k])
      invariant forall j :: 0 <= j < i ==> lines[j] == PassLine(all, values, commented, j)
      invariant forall j :: i <= j < lines.Length ==> lines[j] == all[j]
    {
      PassStep(all, values, commented, i);
      var key := KeyOfLine(lines[i], commented);
      if key.Some? && key.value in pending {
        var k := key.value;
        if Quote(pending[k]).None? {
          bad := Some(k);
          return;
        }
        lines[i] := Assign(k, pending[k]);
        pending := pending - {k};
      }
    }
  }

  lemma PendingNone(lines: seq<string>, values: map<string, string>, commented: bool)
    ensures Pending(lines, values, commented, 0) == values
  {
    hide KeyOfLine;
  }

  lemma KeyBeforeStep(lines: seq<string>, commented: bool, i: nat, k: string)
    requires i < |lines|
    ensures HasKeyBefore(lines, k, commented, i + 1) <==>
            HasKeyBefore(lines, k, commented, i) || KeyOfLine(lines[i], commented) == Some(k)
    ensures KeyOfLine(lines[i], commented) == Some(k) ==>
              (FirstWithKey(lines, i, k, commented) <==> !HasKeyBefore(lines, k, commented, i))
  {
    hide KeyOfLine;
  }

  lemma PassStep(lines: seq<string>, values: map<string, string>, commented: bool, i: nat)
    requires i < |lines|
    ensures var key, before := KeyOfLine(lines[i], commented), Pending(lines, values, commented, i);
            && (forall k :: k in before ==> k in values && before[k] == values[k])
            && Pending(lines, values, commented, i + 1) == (if key.Some? then before - {key.value} else before)
            && PassLine(lines, values, commented, i) ==
               if key.Some? && key.value in before && !HasBothQuotes(values[key.value])
               then Assign(key.value, values[key.value]) else lines[i]
  {
    hide KeyOfLine, Assign, HasBothQuotes, FirstWithKey, HasKeyBefore;
    var key, before := KeyOfLine(lines[i], commented), Pending(lines, values, commented, i);
    forall k
      ensures HasKeyBefore(lines, k, commented, i + 1) <==> HasKeyBefore(lines, k, commented, i) || key == Some(k)
    {
      KeyBeforeStep(lines, commented, i, k);
    }
    if key.Some? {
      KeyBeforeStep(lines, commented, i, key.value);
    }
  }

  /** The two passes together rewrite exactly the target lines and leave exactly the new keys. */
  lemma PassesCompose(lines: seq<string>, values: map<string, string>, mid: seq<string>, rest: map<string, string>)
    requires |mid| == |lines| && forall i :: 0 <= i < |lines| ==> mid[i] == PassLine(lines, values, false, i)
    requires rest == Pending(lines, values, false, |lines|)
    requires AllQuotable(values)
    ensures forall i :: 0 <= i < |lines| ==> PassLine(mid, rest, true, i) == EditedLine(lines, values, i)
    ensures Pending(mid, rest, true, |mid|) == map k | k in NewKeys(lines, values) :: values[k]
  {
    forall i | 0 <= i < |lines|
      ensures Commented(mid[i]) == Commented(lines[i])
      ensures mid[i] != lines[i] ==> Commented(mid[i]) == None
    {
      PassLineComment(lines, values, i);
    }
    hide KeyOfLine, Assign, HasBothQuotes;
    assert forall k :: HasActive(lines, k) <==> HasKeyBefore(lines, k, false, |lines|);
    assert forall k :: HasCommented(lines, k) <==> HasKeyBefore(mid, k, true, |mid|);
    forall i | 0 <= i < |lines|
      ensures PassLine(mid, rest, true, i) == EditedLine(lines, values, i)
    {
      PassLinesCompose(lines, values, mid, rest, i);
    }
  }

  lemma PassLineComment(lines: seq<string>, values: map<string, string>, i: nat)
    requires i < |lines|
    ensures Commented(PassLine(lines, values, false, i)) == Commented(lines[i])
    ensures PassLine(lines, values, false, i) != lines[i] ==> Active(lines[i]).Some?
    ensures Active(lines[i]).Some? ==> Commented(lines[i]) == None
  {
    var k := KeyOfLine(lines[i], false);
    if k.Some? && k.value in values && !HasBothQuotes(values[k.value]) {
      AssignParses(k.value, values[k.value]);
    }
  }

  lemma PassLinesCompose(lines: seq<string>, values: map<string, string>, mid: seq<string>, rest: map<string,
                         string>, i: nat)
    requires |mid| == |lines| && forall j :: 0 <= j < |lines| ==> mid[j] == PassLine(lines, values, false, j)
    requires rest == Pending(lines, values, false, |lines|)
    requires AllQuotable(values) && i < |lines|
    requires forall j :: 0 <= j < |lines| ==> Commented(mid[j]) == Commented(lines[j])
    ensures PassLine(mid, rest, true, i) == EditedLine(lines, values, i)
  {
    PassLineComment(lines, values, i);
    hide KeyOfLine, Assign, HasBothQuotes;
    assert forall k :: HasActive(lines, k) <==> HasKeyBefore(lines, k, false, |lines|);
    assert forall k :: FirstWithKey(mid, i, k, true) <==> FirstWithKey(lines, i, k, true);
  }

  /** The in-memory part of SetEnvValues. */
  method EditLines(read: seq<string>, values: map<string, string>) returns (out: seq<string>, bad: Option<string>)
    ensures bad.None? <==> AllQuotable(values)
    ensures bad.Some? ==> bad.value in values && HasBothQuotes(values[bad.value])
    ensures bad.None? ==> out == SetLines(read, values)
  {
    hide HasBothQuotes, PassLine, EditedLine, Assign, Separator, Increasing, Sorted, AssignAll;
    out := [];
    var lines := new string[|read|](i requires 0 <= i < |read| => read[i]);
    assert lines[..] == read;
    var pending: map<string, string>;
    pending, bad := RewritePass(lines, values, false);
    if bad.Some? {
      return;
    }
    ghost var mid, rest := lines[..], pending;
    pending, bad := RewritePass(lines, pending, true);
    if bad.Some? {
      return;
    }
    var tail: seq<string>;
    tail, bad := AppendPending(lines[..], pending);
    if bad.Some? {
      return;
    }
    PassesQuotable(values, rest, pending);
    PassesCompose(read, values, mid, rest);
    out := lines[..] + tail;
    assert lines[..] == EditedLines(read, values);
    SameAppended(read, values, pending);
  }

  /** What the last pass leaves pending is what goes behind the lines. */
  lemma SameAppended(lines: seq<string>, values: map<string, string>, pending: map<string, string>)
    requires AllQuotable(values) && AllQuotable(pending)
    requires pending == map k | k in NewKeys(lines, values) :: values[k]
    ensures Appended(lines, values) ==
            if pending == map[] then []
            else Separator(EditedLines(lines, values)) + AssignAll(Sorted(pending.Keys), pending)
  {
    hide HasBothQuotes, Assign, Separator, Increasing, NewKeys, EditedLines, Sorted, AssignAll, AllQuotable;
    NewKeysKnown(lines, values);
    assert pending.Keys == NewKeys(lines, values);
    AssignAllSame(Sorted(pending.Keys), pending, values);
  }

  // ---- the directory ----

  class ConfigDir {
    var files: map<string, FileData>

    constructor (files: map<string, FileData>)
      ensures this.files == files
    {
      this.files := files;
    }

    /** writeEnvLines up to the rename: the temporary file is filled and has its mode, or is removed
        again, or is what a dead process leaves. */
    method FillTemp(body: string, mode: nat, tmp: string, fate: Fate) returns (end: Option<Outcome>)
      requires tmp !in files
      modifies this
      ensures end.None? <==> !Ends(fate, {Mkdir, CreateTemp, WriteString, CloseTemp, Chmod})
      ensures end.None? ==> files == old(files)[tmp := FileData(body, mode)]
      ensures end.Some? ==> end.value == (if fate.DiesBefore? then Died else Failed)
      ensures end.Some? ==> files - {tmp} == old(files) && (fate.FailsAt? ==> tmp !in files)
    {
      if Ends(fate, {Mkdir, CreateTemp}) {
        return Some(if fate.DiesBefore? then Died else Failed);
      }
      files := files[tmp := FileData("", PRIVATE_MODE)];
      if fate == DiesBefore(WriteString) {
        return Some(Died);
      }
      if fate == FailsAt(WriteString) {
        files := files - {tmp};
        return Some(Failed);
      }
      files := files[tmp := FileData(body, PRIVATE_MODE)];
      if Ends(fate, {CloseTemp, Chmod}) {
        if fate.FailsAt? {
          files := files - {tmp};
        }
        return Some(if fate.DiesBefore? then Died else Failed);
      }
      files := files[tmp := FileData(body, mode)];
      return None;
    }

    /** writeEnvLines: whatever happens to the process, path holds its old or its whole new
        content; nothing else remains unless the process died, and then only the temp file. */
    method WriteEnvLines(path: string, lines: seq<string>, mode: nat, tmp: string, fate: Fate) returns (r: Outcome)
      requires tmp != path && tmp !in files
      modifies this
      ensures r == Written || r == Failed || r == Died
      ensures r == Written <==> fate.Completes? || fate.ReadFails?
      ensures r == Died <==> fate.DiesBefore?
      ensures r == Written ==> files == old(files)[path := FileData(WriteText(lines), mode)]
      ensures r == Failed ==> files == old(files)
      ensures r == Died ==> files - {tmp} == old(files)
    {
      hide WriteText;
      EveryStep(fate);
      var body := WriteText(lines);
      var end := FillTemp(body, mode, tmp, fate);
      if end.Some? {
        return end.value;
      }
      if fate == DiesBefore(Rename) {
        return Died;
      }
      if fate == FailsAt(Rename) {
        files := files - {tmp};
        return Failed;
      }
      files := (files - {tmp})[path := files[tmp]];
      return Written;
    }

    /** SetEnvValues: a key-by-key edit of the text that fails, apart from I/O, exactly when some
        value contains both quote characters, and then writes nothing. */
    method SetEnvValues(path: string, values: map<string, string>, tmp: string, fate: Fate) returns (r: Outcome)
      requires tmp != path && tmp !in files
      modifies this
      ensures fate == ReadFails ==> r == Failed
      ensures r != Unchanged
      ensures fate != ReadFails ==> (r.CannotQuote? <==> !AllQuotable(values))
      ensures r.CannotQuote? ==> r.key in values && HasBothQuotes(values[r.key])
      ensures r.CannotQuote? || r.Failed? ==> files == old(files)
      ensures AllQuotable(values) ==> (r == Written <==> fate.Completes?)
      ensures r == Written ==> AllQuotable(values) && files == AfterSet(old(files), path, values)
      ensures r == Written ==>
                path in files && files[path].mode == if path in old(files) then old(files)[path].mode else 384
      ensures r == Died ==> fate.DiesBefore? && files - {tmp} == old(files)
    {
      if fate == ReadFails {
        return Failed;
      }
      var read := LinesOf(files, path);
      var lines, bad := EditLines(read, values);
      if bad.Some? {
        return CannotQuote(bad.value);
      }
      r := WriteEnvLines(path, lines, ModeOf(files, path), tmp, fate);
    }

    /** UnsetEnvValues. */
    method UnsetEnvValues(path: string, keys: seq<string>, tmp: string, fate: Fate) returns (r: Outcome)
      requires tmp != path && tmp !in files
      modifies this
      ensures r == Written || r == Unchanged <==> fate.Completes? || (fate != ReadFails && path !in old(files))
      ensures r == Written || r == Unchanged ==> files == AfterUnset(old(files), path, set k | k in keys)
      ensures r == Written && path in old(files) ==> path in files && files[path].mode == old(files)[path].mode
      ensures path !in old(files) ==> path !in files
      ensures r == Failed ==> files == old(files)
      ensures r == Died ==> fate.DiesBefore? && files - {tmp} == old(files)
      ensures !r.CannotQuote?
    {
      if fate == ReadFails {
        return Failed;
      }
      var read := LinesOf(files, path);
      if read == [] && path !in files {
        return Unchanged;
      }
      var lines := new string[|read|](i requires 0 <= i < |read| => read[i]);
      assert lines[..] == read;
      var n := CompactKept(lines, set k | k in keys);
      r := WriteEnvLines(path, lines[..n], ModeOf(files, path), tmp, fate);
    }
  }

  lemma AssignAllSame(keys: seq<string>, a: map<string, string>, b: map<string, string>)
    requires AllQuotable(a) && AllQuotable(b)
    requires forall k :: k in keys ==> k in a && k in b && a[k] == b[k]
    ensures AssignAll(keys, a) == AssignAll(keys, b)
  {
    hide Assign;
  }

  lemma PassesQuotable(values: map<string, string>, rest: map<string, string>, pending: map<string, string>)
    requires forall k :: k in values && k !in rest ==> !HasBothQuotes(values[k])
    requires forall k :: k in rest && k !in pending ==> !HasBothQuotes(rest[k])
    requires AllQuotable(pending)
    requires forall k :: k in rest ==> k in values && rest[k] == values[k]
    requires forall k :: k in pending ==> k in rest && pending[k] == rest[k]
    ensures AllQuotable(values)
  {
    hide HasBothQuotes;
  }

  /** sort.Strings on the keys of a map, which Go ranges over in an arbitrary order. */
  method SortedKeys(pending: map<string, string>) returns (keys: seq<string>)
    ensures keys == Sorted(pending.Keys)
  {
    var todo := pending.Keys;
    keys := [];
    while todo != {}
      invariant forall k :: k in keys <==> k in pending && k !in todo
      invariant forall i, j :: 0 <= i < j < |keys| ==> keys[i] != keys[j]
      invariant todo <= pending.Keys
      decreases |todo|
    {
      var k :| k in todo;
      keys, todo := keys + [k], todo - {k};
    }
    keys := Sort(keys);
    IncreasingUnique(keys, Sorted(pending.Keys));
  }

  lemma AllOf(keys: seq<string>, pending: map<string, string>)
    requires forall k :: k in keys <==> k in pending
    requires forall j :: 0 <= j < |keys| ==> !HasBothQuotes(pending[keys[j]])
    ensures AllQuotable(pending)
  {
    hide HasBothQuotes;
  }

  /** Quote and format the given keys, stopping at one that cannot be quoted. */
  method FormatAll(keys: seq<string>, pending: map<string, string>) returns (out: seq<string>, bad: Option<string>)
    requires forall k :: k in keys ==> k in pending
    ensures bad.Some? ==> bad.value in pending && HasBothQuotes(pending[bad.value])
    ensures bad.None? ==> |out| == |keys|
    ensures bad.None? ==> forall j :: 0 <= j < |keys| ==>
              !HasBothQuotes(pending[keys[j]]) && out[j] == Assign(keys[j], pending[keys[j]])
  {
    hide HasBothQuotes, Assign;
    out, bad := [], None;
    for i := 0 to |keys|
      invariant |out| == i
      invariant forall j :: 0 <= j < i ==>
                  !HasBothQuotes(pending[keys[j]]) && out[j] == Assign(keys[j], pending[keys[j]])
    {
      if Quote(pending[keys[i]]).None? {
        bad := Some(keys[i]);
        return;
      }
      out := out + [Assign(keys[i], pending[keys[i]])];
    }
  }

  /** The end of SetEnvValues: what is still pending goes after the last line, in key order. */
  method AppendPending(lines: seq<string>, pending: map<string, string>) returns (tail: seq<string>,
                       bad: Option<string>)
    ensures bad.Some? ==> bad.value in pending && HasBothQuotes(pending[bad.value])
    ensures bad.None? ==> AllQuotable(pending)
    ensures bad.None? ==>
              tail == if pending == map[] then [] else Separator(lines) + AssignAll(Sorted(pending.Keys), pending)
  {
    hide HasBothQuotes, Assign, Separator;
    tail, bad := [], None;
    if |pending| > 0 {
      var keys := SortedKeys(pending);
      tail, bad := FormatAll(keys, pending);
      if bad.None? {
        AllOf(keys, pending);
        assert tail == AssignAll(keys, pending);
        tail := Separator(lines) + tail;
      }
    }
  }
}
