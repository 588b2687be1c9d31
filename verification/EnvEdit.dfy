/** An env file as a list of lines: what the parser reads from it, and how the editor changes it. */
module EnvEdit {
  import opened Wrappers
  import opened Text
  import opened EnvLine
  import opened Order

  // ---- reading ----

  /** parseEnvFile on the lines: a later assignment of a key overrides an earlier one. */
  function ParseLines(lines: seq<string>): map<string, string> {
    if lines == [] then map[]
    else
      var m := ParseLines(lines[..|lines| - 1]);
      match ParseLine(lines[|lines| - 1])
      case Some((k, v)) => m[k := v]
      case None => m
  }

  /** All the values that the lines assign to k, in order. */
  function Assigned(lines: seq<string>, k: string): seq<string> {
    if lines == [] then []
    else
      Assigned(lines[..|lines| - 1], k) + AssignedBy(lines[|lines| - 1], k)
  }

  function AssignedBy(line: string, k: string): seq<string> {
    match ParseLine(line)
    case Some((k', v)) => if k' == k then [v] else []
    case None => []
  }

  function Last(s: seq<string>): string
    requires s != []
  {
    s[|s| - 1]
  }

  /** The parsed map holds exactly the keys with an assignment, each with its last one. */
  lemma {:induction false} ParseLookup(lines: seq<string>, k: string)
    ensures k in ParseLines(lines) <==> Assigned(lines, k) != []
    ensures k in ParseLines(lines) ==> ParseLines(lines)[k] == Last(Assigned(lines, k))
    decreases |lines|
  {
    hide ParseLine;
    if lines != [] {
      var init, l := lines[..|lines| - 1], lines[|lines| - 1];
      ParseLookup(init, k);
      assert Assigned(lines, k) == Assigned(init, k) + AssignedBy(l, k);
      var own := AssignedBy(l, k);
      assert Assigned(lines, k) != [] ==>
          Last(Assigned(lines, k)) == if own == [] then Last(Assigned(init, k)) else Last(own);
    }
  }

  lemma ParseNext(lines: seq<string>, i: nat)
    requires i < |lines|
    ensures ParseLines(lines[..i + 1]) ==
            match ParseLine(lines[i])
            case Some((k, v)) => ParseLines(lines[..i])[k := v]
            case None => ParseLines(lines[..i])
  {
    hide ParseLine;
    assert lines[..i + 1][..i] == lines[..i];
  }

  /** parseEnvFile's loop. */
  method ParseEnvLines(lines: seq<string>) returns (env: map<string, string>)
    ensures env == ParseLines(lines)
  {
    hide ParseLines, Trim, IndexOf, StripQuotes;
    env := map[];
    NothingParsed();
    for i := 0 to |lines|
      invariant env == ParseLines(lines[..i])
    {
      ParseNext(lines, i);
      var line := Trim(lines[i]);
      if line == "" || HasPrefix(line, '#') {
        continue;
      }
      var at := IndexOf(line, '=');
      if at == |line| {
        continue;
      }
      env := env[Trim(line[..at]) := StripQuotes(Trim(line[at + 1..]))];
    }
    assert lines[..|lines|] == lines;
  }

  lemma NothingParsed()
    ensures ParseLines([]) == map[]
  {
  }

  lemma AssignedSnoc(lines: seq<string>, l: string, k: string)
    ensures Assigned(lines + [l], k) == Assigned(lines, k) + AssignedBy(l, k)
  {
    hide AssignedBy;
    assert (lines + [l])[..|lines|] == lines;
  }

  lemma {:induction false} AssignedConcat(a: seq<string>, b: seq<string>, k: string)
    ensures Assigned(a + b, k) == Assigned(a, k) + Assigned(b, k)
    decreases |b|
  {
    hide Assigned, AssignedBy;
    if b == [] {
      NothingAssigned(k);
      assert a + b == a;
    } else {
      var b', l := b[..|b| - 1], b[|b| - 1];
      AssignedConcat(a, b', k);
      AssignedSnoc(a + b', l, k);
      AssignedSnoc(b', l, k);
      assert a + b == a + b' + [l] && b == b' + [l];
    }
  }

  // ---- where a key lives ----

  function Active(line: string): Option<string> {
    KeyOfLine(line, false)
  }

  function Commented(line: string): Option<string> {
    KeyOfLine(line, true)
  }

  ghost predicate HasActive(lines: seq<string>, k: string) {
    exists i :: 0 <= i < |lines| && Active(lines[i]) == Some(k)
  }

  ghost predicate HasCommented(lines: seq<string>, k: string) {
    exists i :: 0 <= i < |lines| && Commented(lines[i]) == Some(k)
  }

  /** Line i is the first one with key k, among the active or among the commented lines. */
  predicate FirstWithKey(lines: seq<string>, i: nat, k: string, commented: bool)
    requires i < |lines|
  {
    && KeyOfLine(lines[i], commented) == Some(k)
    && forall j :: 0 <= j < i ==> KeyOfLine(lines[j], commented) != Some(k)
  }

  /** The line that an edit of k rewrites: the first active one, else the first commented one. */
  ghost predicate IsTarget(lines: seq<string>, i: nat, k: string)
    requires i < |lines|
  {
    if HasActive(lines, k) then FirstWithKey(lines, i, k, false) else FirstWithKey(lines, i, k, true)
  }

  /** An active line assigns its key. */
  lemma ActiveAssigns(line: string, k: string)
    requires IsKey(k)
    ensures Active(line) == Some(k) <==> AssignedBy(line, k) != []
    ensures |AssignedBy(line, k)| <= 1
  {
  }

  lemma {:induction false} NoActiveNoneAssigned(lines: seq<string>, k: string)
    requires IsKey(k)
    ensures Assigned(lines, k) == [] <==> !HasActive(lines, k)
    decreases |lines|
  {
    hide ParseLine, KeyOfLine;
    if lines != [] {
      var init := lines[..|lines| - 1];
      NoActiveNoneAssigned(init, k);
      ActiveAssigns(lines[|lines| - 1], k);
      if HasActive(init, k) {
        var i :| 0 <= i < |init| && Active(init[i]) == Some(k);
        assert Active(lines[i]) == Some(k);
      }
      if HasActive(lines, k) {
        var i :| 0 <= i < |lines| && Active(lines[i]) == Some(k);
        assert i < |init| ==> Active(init[i]) == Some(k);
      }
    }
  }

  // ---- SetEnvValues ----

  predicate AllQuotable(values: map<string, string>) {
    forall k :: k in values ==> !HasBothQuotes(values[k])
  }

  ghost function EditedLine(lines: seq<string>, values: map<string, string>, i: nat): string
    requires i < |lines| && AllQuotable(values)
  {
    match Active(lines[i])
    case Some(k) => if k in values && IsTarget(lines, i, k) then Assign(k, values[k]) else lines[i]
    case None =>
      match Commented(lines[i])
      case Some(k) => if k in values && IsTarget(lines, i, k) then Assign(k, values[k]) else lines[i]
      case None => lines[i]
  }

  ghost function EditedLines(lines: seq<string>, values: map<string, string>): (r: seq<string>)
    requires AllQuotable(values)
    ensures |r| == |lines|
    ensures forall i :: 0 <= i < |lines| ==> r[i] == EditedLine(lines, values, i)
  {
    seq(|lines|, i requires 0 <= i < |lines| => EditedLine(lines, values, i))
  }

  /** The keys that no line of the file mentions. */
  ghost function NewKeys(lines: seq<string>, values: map<string, string>): set<string> {
    set k | k in values && !HasActive(lines, k) && !HasCommented(lines, k)
  }

  function AssignAll(keys: seq<string>, values: map<string, string>): (r: seq<string>)
    requires AllQuotable(values) && forall k :: k in keys ==> k in values
    ensures |r| == |keys|
    ensures forall i :: 0 <= i < |keys| ==> r[i] == Assign(keys[i], values[keys[i]])
  {
    if keys == [] then [] else [Assign(keys[0], values[keys[0]])] + AssignAll(keys[1..], values)
  }

  /** A blank line separates the appended assignments from a file that does not end in one. */
  function Separator(lines: seq<string>): seq<string> {
    if lines != [] && Trim(lines[|lines| - 1]) != "" then [""] else []
  }

  ghost function Appended(lines: seq<string>, values: map<string, string>): seq<string>
    requires AllQuotable(values)
  {
    var added := NewKeys(lines, values);
    if added == {} then []
    else Separator(EditedLines(lines, values)) + AssignAll(Sorted(added), values)
  }

  /** The lines that SetEnvValues writes. */
  ghost function SetLines(lines: seq<string>, values: map<string, string>): seq<string>
    requires AllQuotable(values)
  {
    EditedLines(lines, values) + Appended(lines, values)
  }

  // ---- what an edit does to the parsed file ----

  function Rest(s: seq<string>): seq<string> {
    if s == [] then [] else s[1..]
  }

  ghost predicate TargetBefore(lines: seq<string>, k: string, n: nat)
    requires n <= |lines|
  {
    exists i :: 0 <= i < n && IsTarget(lines, i, k)
  }

  predicate PatternKeys(values: map<string, string>) {
    forall k :: k in values ==> IsKey(k)
  }

  /** What one rewritten line contributes, next to what the line contributed before. */
  lemma EditedLineAssigns(lines: seq<string>, values: map<string, string>, i: nat, k: string)
    requires i < |lines| && AllQuotable(values) && PatternKeys(values)
    ensures AssignedBy(EditedLine(lines, values, i), k) ==
            if k in values && IsTarget(lines, i, k) then [Reread(values[k])] else AssignedBy(lines[i], k)
  {
    match Active(lines[i]) {
      case Some(k') =>
        if k' in values {
          AssignParses(k', values[k']);
        }
      case None =>
        match Commented(lines[i]) {
          case Some(k') =>
            if k' in values {
              AssignParses(k', values[k']);
            }
          case None =>
        }
    }
  }

  /** The target of a key comes before n as soon as some candidate line does. */
  lemma TargetExists(lines: seq<string>, k: string, commented: bool, n: nat)
    requires n <= |lines| && exists i :: 0 <= i < n && KeyOfLine(lines[i], commented) == Some(k)
    ensures exists i :: 0 <= i < n && FirstWithKey(lines, i, k, commented)
    decreases n
  {
    hide KeyOfLine;
    var i :| 0 <= i < n && KeyOfLine(lines[i], commented) == Some(k);
    if !FirstWithKey(lines, i, k, commented) {
      TargetExists(lines, k, commented, i);
    }
  }

  lemma TargetUnique(lines: seq<string>, k: string, i: nat, j: nat)
    requires i < |lines| && j < |lines| && IsTarget(lines, i, k) && IsTarget(lines, j, k)
    ensures i == j
  {
    hide KeyOfLine;
  }

  lemma ActiveGivesTarget(lines: seq<string>, k: string, n: nat)
    requires n <= |lines| && HasActive(lines[..n], k)
    ensures TargetBefore(lines, k, n)
  {
    hide KeyOfLine;
    var i :| 0 <= i < n && Active(lines[..n][i]) == Some(k);
    assert Active(lines[i]) == Some(k);
    TargetExists(lines, k, false, n);
    var j :| 0 <= j < n && FirstWithKey(lines, j, k, false);
    assert IsTarget(lines, j, k);
  }

  /** Before the target, an active key has assigned nothing. */
  lemma NothingBeforeTarget(lines: seq<string>, k: string, n: nat)
    requires IsKey(k) && n <= |lines| && !TargetBefore(lines, k, n)
    ensures Assigned(lines[..n], k) == []
  {
    hide KeyOfLine, ParseLine;
    NoActiveNoneAssigned(lines[..n], k);
    if HasActive(lines[..n], k) {
      ActiveGivesTarget(lines, k, n);
      assert false;
    }
  }

  lemma TargetOnce(lines: seq<string>, k: string, n: nat)
    requires n < |lines|
    ensures TargetBefore(lines, k, n + 1) <==> TargetBefore(lines, k, n) || IsTarget(lines, n, k)
    ensures IsTarget(lines, n, k) ==> !TargetBefore(lines, k, n)
  {
    hide KeyOfLine;
    forall i | 0 <= i < n && IsTarget(lines, n, k)
      ensures !IsTarget(lines, i, k)
    {
      assert KeyOfLine(lines[n], false) == KeyOfLine(lines[n], false);
    }
  }

  lemma TargetBeforeNone(lines: seq<string>, k: string)
    ensures !TargetBefore(lines, k, 0)
  {
  }

  lemma TargetAssignedFirst(lines: seq<string>, k: string, m: nat)
    requires IsKey(k) && m < |lines| && TargetBefore(lines, k, m)
    ensures AssignedBy(lines[m], k) != [] ==> Assigned(lines[..m], k) != []
  {
    hide KeyOfLine, ParseLine, IsKey;
    if AssignedBy(lines[m], k) != [] {
      ActiveAssigns(lines[m], k);
      var i :| 0 <= i < m && IsTarget(lines, i, k);
      assert Active(lines[m]) == Some(k) && HasActive(lines, k);
      assert Active(lines[..m][i]) == Some(k);
      NoActiveNoneAssigned(lines[..m], k);
    }
  }

  /** The rewritten lines assign to k what they did before, except that the new value replaces
      the first of k's assignments, or is the only one where there was none. */
  lemma {:induction false} EditedAssigned(lines: seq<string>, values: map<string, string>, k: string, n: nat)
    requires AllQuotable(values) && PatternKeys(values) && n <= |lines|
    ensures Assigned(EditedLines(lines, values)[..n], k) ==
            if k in values && TargetBefore(lines, k, n)
            then [Reread(values[k])] + Rest(Assigned(lines[..n], k))
            else Assigned(lines[..n], k)
  {
    hide AssignedBy, KeyOfLine, EditedLine, Reread, IsTarget, TargetBefore, IsKey, HasBothQuotes, Assigned, Quote;
    if n == 0 {
      TargetBeforeNone(lines, k);
      NothingAssigned(k);
    } else {
      var m := n - 1;
      var r := EditedLines(lines, values);
      assert r[..n] == r[..m] + [r[m]] && lines[..n] == lines[..m] + [lines[m]];
      AssignedSnoc(r[..m], r[m], k);
      AssignedSnoc(lines[..m], lines[m], k);
      EditedAssigned(lines, values, k, m);
      EditedLineAssigns(lines, values, m, k);
      TargetOnce(lines, k, m);
      if k in values {
        if IsTarget(lines, m, k) {
          NothingBeforeTarget(lines, k, m);
          TargetLineAssigns(lines, m, k);
        } else if TargetBefore(lines, k, m) {
          TargetAssignedFirst(lines, k, m);
        }
      }
    }
  }

  /** A target line assigned at most once, and nothing at all when it was a comment. */
  lemma TargetLineAssigns(lines: seq<string>, i: nat, k: string)
    requires i < |lines| && IsKey(k) && IsTarget(lines, i, k)
    ensures |AssignedBy(lines[i], k)| <= 1
  {
    ActiveAssigns(lines[i], k);
  }

  lemma AssignedOne(line: string, k: string)
    ensures Assigned([line], k) == AssignedBy(line, k)
  {
    hide ParseLine;
    assert [line][..0] == [];
  }

  lemma {:induction false} AssignAllAssigned(keys: seq<string>, values: map<string, string>, k: string)
    requires AllQuotable(values) && PatternKeys(values) && forall x :: x in keys ==> x in values
    requires forall i, j :: 0 <= i < j < |keys| ==> keys[i] != keys[j]
    ensures Assigned(AssignAll(keys, values), k) == if k in keys then [Reread(values[k])] else []
    decreases |keys|
  {
    hide ParseLine, KeyOfLine, Reread, Assign, IsKey, HasBothQuotes, Assigned;
    if keys == [] {
      NothingAssigned(k);
    } else {
      var x := keys[0];
      var line := Assign(x, values[x]);
      AssignParses(x, values[x]);
      AssignAllAssigned(keys[1..], values, k);
      AssignedConcat([line], AssignAll(keys[1..], values), k);
      AssignedOne(line, k);
      assert k in keys <==> k == x || k in keys[1..];
    }
  }

  lemma NothingAssigned(k: string)
    ensures Assigned([], k) == []
  {
  }

  lemma SeparatorAssigns(lines: seq<string>, k: string)
    ensures Assigned(Separator(lines), k) == []
  {
    if Separator(lines) != [] {
      AssignedOne("", k);
    }
  }

  lemma AppendedAssigned(lines: seq<string>, values: map<string, string>, k: string)
    requires AllQuotable(values) && PatternKeys(values)
    ensures Assigned(Appended(lines, values), k) ==
            if k in NewKeys(lines, values) then [Reread(values[k])] else []
  {
    hide ParseLine, KeyOfLine, EditedLine, Reread, Separator, HasActive, HasCommented;
    var added := NewKeys(lines, values);
    if added != {} {
      var sep := Separator(EditedLines(lines, values));
      SeparatorAssigns(EditedLines(lines, values), k);
      AssignAllAssigned(Sorted(added), values, k);
      AssignedConcat(sep, AssignAll(Sorted(added), values), k);
    }
  }

  /** Every assignment of the edited file, key by key: the new value takes the place of the
      first old one; all others stay. */
  lemma SetAssigned(lines: seq<string>, values: map<string, string>, k: string)
    requires AllQuotable(values) && PatternKeys(values)
    ensures Assigned(SetLines(lines, values), k) ==
            if k in values then [Reread(values[k])] + Rest(Assigned(lines, k)) else Assigned(lines, k)
  {
    hide ParseLine, KeyOfLine, EditedLine, Reread, Appended, IsTarget, TargetBefore, HasActive, HasCommented, IsKey,
      HasBothQuotes;
    var body := EditedLines(lines, values);
    AssignedConcat(body, Appended(lines, values), k);
    AppendedAssigned(lines, values, k);
    EditedAssigned(lines, values, k, |lines|);
    assert body[..|lines|] == body && lines[..|lines|] == lines;
    TargetOrNew(lines, k);
    if k in NewKeys(lines, values) {
      NoActiveNoneAssigned(lines, k);
    }
  }

  lemma TargetOrNew(lines: seq<string>, k: string)
    ensures TargetBefore(lines, k, |lines|) <==> HasActive(lines, k) || HasCommented(lines, k)
  {
    hide KeyOfLine;
    if HasActive(lines, k) {
      TargetExists(lines, k, false, |lines|);
      var i :| 0 <= i < |lines| && FirstWithKey(lines, i, k, false);
      assert IsTarget(lines, i, k);
    } else if HasCommented(lines, k) {
      TargetExists(lines, k, true, |lines|);
      var i :| 0 <= i < |lines| && FirstWithKey(lines, i, k, true);
      assert IsTarget(lines, i, k);
    }
  }

  /** How often the file assigns k. */
  function Count(lines: seq<string>, k: string): nat {
    |Assigned(lines, k)|
  }

  /** The edits that reach the parser: those of keys assigned at most once before. */
  ghost function Effective(lines: seq<string>, values: map<string, string>): map<string, string> {
    map k | k in values && Count(lines, k) <= 1 :: Reread(values[k])
  }

  /** For every file: after the edit the parser reads the old map overridden by the new values,
      except that a key with two or more active lines keeps its old value, because the editor
      rewrites the first of them and the parser believes the last. */
  lemma SetRefinesUpdate(lines: seq<string>, values: map<string, string>)
    requires AllQuotable(values) && PatternKeys(values)
    ensures ParseLines(SetLines(lines, values)) == ParseLines(lines) + Effective(lines, values)
  {
    hide ParseLine, KeyOfLine, SetLines, Reread, ParseLines, Assigned, PatternKeys, AllQuotable;
    var after, before := SetLines(lines, values), ParseLines(lines);
    forall k
      ensures k in ParseLines(after) <==> k in before + Effective(lines, values)
      ensures k in ParseLines(after) ==> ParseLines(after)[k] == (before + Effective(lines, values))[k]
    {
      ParseLookup(after, k);
      ParseLookup(lines, k);
      SetAssigned(lines, values, k);
    }
  }

  /** One active line per edited key and storable values: exactly a map update. */
  lemma SetIsMapUpdate(lines: seq<string>, values: map<string, string>)
    requires AllQuotable(values) && PatternKeys(values)
    requires forall k :: k in values ==> Count(lines, k) <= 1 && Storable(values[k])
    ensures ParseLines(SetLines(lines, values)) == ParseLines(lines) + values
    ensures forall k :: k in values ==> Count(SetLines(lines, values), k) == 1
  {
    hide ParseLine, KeyOfLine, SetLines, ParseLines, Assigned, Storable, Reread, IsKey, HasBothQuotes;
    SetRefinesUpdate(lines, values);
    forall k | k in values
      ensures Reread(values[k]) == values[k]
      ensures Count(SetLines(lines, values), k) == 1
    {
      AssignParses(k, values[k]);
      SetAssigned(lines, values, k);
    }
  }

  /** The exact condition under which an edit is a map update of what the parser reads: every key
      with one active line at most has a storable value, and every key with more of them already
      reads as the requested value. */
  lemma SetIsMapUpdateIff(lines: seq<string>, values: map<string, string>)
    requires AllQuotable(values) && PatternKeys(values)
    ensures ParseLines(SetLines(lines, values)) == ParseLines(lines) + values <==>
            forall k :: k in values ==>
              if Count(lines, k) <= 1 then Storable(values[k])
              else k in ParseLines(lines) && ParseLines(lines)[k] == values[k]
  {
    hide ParseLine, KeyOfLine, SetLines, ParseLines, Assigned, Storable, Reread, IsKey, HasBothQuotes;
    var before, eff := ParseLines(lines), Effective(lines, values);
    SetRefinesUpdate(lines, values);
    forall k | k in values
      ensures Reread(values[k]) == values[k] <==> Storable(values[k])
      ensures k in before <==> Count(lines, k) > 0
    {
      AssignParses(k, values[k]);
      ParseLookup(lines, k);
    }
    if before + eff == before + values {
      forall k | k in values
        ensures if Count(lines, k) <= 1 then Storable(values[k]) else k in before && before[k] == values[k]
      {
        assert (before + values)[k] == values[k];
        assert (before + eff)[k] == if Count(lines, k) <= 1 then Reread(values[k]) else before[k];
      }
    }
  }

  /** The failing families by example: with two active lines the key keeps its old value, and an
      unquoted value loses the carriage return at its end. */
  lemma DuplicateKeepsOldValue()
    ensures var lines, values := ["A=1", "A=2"], map["A" := "3"];
            AllQuotable(values) && ParseLines(SetLines(lines, values)) == map["A" := "2"]
    ensures var values := map["A" := "3\r"];
            AllQuotable(values) && ParseLines(SetLines([], values)) == map["A" := "3"]
  {
    ParsesA();
    hide ParseLine, KeyOfLine, HasBothQuotes, SetLines, Reread, IsKey;
    var lines, values, cr := ["A=1", "A=2"], map["A" := "3"], map["A" := "3\r"];
    assert lines[..1] == ["A=1"] && lines[..1][..0] == [];
    SetRefinesUpdate(lines, values);
    SetRefinesUpdate([], cr);
  }

  lemma ParsesA()
    ensures ParseLine("A=1") == Some(("A", "1")) && ParseLine("A=2") == Some(("A", "2"))
    ensures IsKey("A") && !HasBothQuotes("3") && !HasBothQuotes("3\r") && Reread("3\r") == "3"
  {
    assert IsKey("A");
    OneDigit("1");
    OneDigit("2");
    TrailingReturn();
    hide ParseLine, KeyOfLine, HasBothQuotes, Reread, IsKey;
    assert "A=1" == "A" + "=" + "1" && "A=2" == "A" + "=" + "2";
    assert "3" != "";
  }

  lemma OneDigit(d: string)
    requires d == "1" || d == "2"
    ensures ParseLine("A" + "=" + d) == Some(("A", d))
  {
    assert Quote(d) == Some(d);
    AssignParses("A", d);
    hide ParseLine, KeyOfLine;
  }

  lemma TrailingReturn()
    ensures !HasBothQuotes("3") && !HasBothQuotes("3\r") && Reread("3\r") == "3"
  {
    assert "3\r"[..1] == "3";
    assert TrimLeft("3\r") == "3\r";
  }

  // ---- what an edit leaves alone ----

  /** The tail behind the old lines: nothing when there is no new key, and otherwise one blank at
      most and then one line for each new key, in key order. */
  ghost predicate NewLines(lines: seq<string>, values: map<string, string>, tail: seq<string>, keys: seq<string>)
    requires AllQuotable(values)
  {
    && Increasing(keys)
    && (forall k :: k in keys <==> k in NewKeys(lines, values))
    && WrittenBehind(values, tail, keys)
  }

  predicate WrittenBehind(values: map<string, string>, tail: seq<string>, keys: seq<string>)
    requires AllQuotable(values)
  {
    && (keys == [] ==> tail == [])
    && |keys| <= |tail| <= |keys| + 1
    && (|tail| > |keys| ==> tail[0] == "")
    && forall j :: 0 <= j < |keys| ==>
         keys[j] in values && tail[|tail| - |keys| + j] == Assign(keys[j], values[keys[j]])
  }

  /** Each requested key is written exactly once, over its target line when it has one and at
      the end otherwise; no two keys share a line, and every other line stays where it was. */
  lemma SetFrame(lines: seq<string>, values: map<string, string>)
    requires AllQuotable(values)
    ensures var r := SetLines(lines, values);
            && |r| >= |lines|
            && (forall i, k :: 0 <= i < |lines| && k in values && IsTarget(lines, i, k) ==>
                  r[i] == Assign(k, values[k]))
            && (forall i :: 0 <= i < |lines| && (forall k :: k in values ==> !IsTarget(lines, i, k)) ==>
                  r[i] == lines[i])
            && exists keys :: NewLines(lines, values, r[|lines|..], keys)
    ensures forall k :: k in values ==> (k in NewKeys(lines, values) <==> !TargetBefore(lines, k, |lines|))
    ensures forall i, k, k' :: 0 <= i < |lines| && IsTarget(lines, i, k) && IsTarget(lines, i, k') ==> k == k'
    ensures NewKeys(lines, values) == {} ==> |SetLines(lines, values)| == |lines|
  {
    hide KeyOfLine, Assign, HasBothQuotes, NewLines, EditedLine, IsTarget, NewKeys, TargetBefore, Appended;
    forall i | 0 <= i < |lines|
      ensures forall k :: k in values && IsTarget(lines, i, k) ==> EditedLine(lines, values, i) == Assign(k, values[k])
      ensures (forall k :: k in values ==> !IsTarget(lines, i, k)) ==> EditedLine(lines, values, i) == lines[i]
    {
      EditedLineFrame(lines, values, i);
    }
    forall i, k, k' | 0 <= i < |lines| && IsTarget(lines, i, k) && IsTarget(lines, i, k')
      ensures k == k'
    {
      OneTargetPerLine(lines, i, k, k');
    }
    NewKeysFrame(lines, values);
    AppendedShape(lines, values);
    assert SetLines(lines, values)[|lines|..] == Appended(lines, values);
  }

  lemma NewKeysFrame(lines: seq<string>, values: map<string, string>)
    requires AllQuotable(values)
    ensures forall k :: k in values ==> (k in NewKeys(lines, values) <==> !TargetBefore(lines, k, |lines|))
    ensures NewKeys(lines, values) == {} ==> Appended(lines, values) == []
  {
    hide KeyOfLine, Assign, TargetBefore, HasActive, HasCommented;
    forall k | k in values
      ensures k in NewKeys(lines, values) <==> !TargetBefore(lines, k, |lines|)
    {
      TargetOrNew(lines, k);
    }
  }

  /** The line assigns k, or is a commented-out line for it. */
  predicate AssignsKey(line: string, k: string) {
    ParseLine(line).Some? && ParseLine(line).value.0 == k
  }

  predicate CommentsKey(line: string, k: string) {
    HasPrefix(Trim(line), '#') && AssignsKey(TrimHashes(Trim(line)), k)
  }

  lemma PlacesOfKey(line: string, k: string)
    requires IsKey(k)
    ensures Active(line) == Some(k) <==> AssignsKey(line, k)
    ensures Commented(line) == Some(k) <==> CommentsKey(line, k)
  {
    UncommentedKey(line);
    hide TrimHashes, Trim;
  }

  predicate AssignsFirst(lines: seq<string>, i: nat, k: string)
    requires i < |lines|
  {
    AssignsKey(lines[i], k) && forall j :: 0 <= j < i ==> !AssignsKey(lines[j], k)
  }

  predicate CommentsFirst(lines: seq<string>, i: nat, k: string)
    requires i < |lines|
  {
    CommentsKey(lines[i], k) && forall j :: 0 <= j < i ==> !CommentsKey(lines[j], k)
  }

  /** Where a key is written: over the first line that assigns it; if none does, over the first
      commented-out line for it; and if there is none of those either, behind the old lines. */
  lemma SetPlaces(lines: seq<string>, values: map<string, string>, k: string)
    requires AllQuotable(values) && PatternKeys(values) && k in values
    ensures var r := SetLines(lines, values);
            var line := k + "=" + Quote(values[k]).value;
            && |r| >= |lines|
            && (forall i :: 0 <= i < |lines| && AssignsFirst(lines, i, k) ==> r[i] == line)
            && ((forall j :: 0 <= j < |lines| ==> !AssignsKey(lines[j], k)) ==>
                  && (forall i :: 0 <= i < |lines| && CommentsFirst(lines, i, k) ==> r[i] == line)
                  && ((forall j :: 0 <= j < |lines| ==> !CommentsKey(lines[j], k)) ==> line in r[|lines|..]))
  {
    hide KeyOfLine, AssignsKey, CommentsKey, HasBothQuotes, EditedLine, Quote;
    forall i | 0 <= i < |lines|
      ensures Active(lines[i]) == Some(k) <==> AssignsKey(lines[i], k)
      ensures Commented(lines[i]) == Some(k) <==> CommentsKey(lines[i], k)
    {
      PlacesOfKey(lines[i], k);
    }
    forall i | 0 <= i < |lines| && IsTarget(lines, i, k)
      ensures SetLines(lines, values)[i] == Assign(k, values[k])
    {
      EditedLineFrame(lines, values, i);
    }
    if k in NewKeys(lines, values) {
      var i := AppendedPosition(lines, values, k);
      assert SetLines(lines, values)[|lines|..] == Appended(lines, values);
    }
  }

  /** A line is left as it is unless it is the place of some requested key. */
  lemma SetOthers(lines: seq<string>, values: map<string, string>, i: nat)
    requires AllQuotable(values) && PatternKeys(values) && i < |lines|
    requires forall k :: k in values ==> !AssignsKey(lines[i], k) || exists j :: 0 <= j < i && AssignsKey(lines[j], k)
    requires forall k :: k in values ==>
               || !CommentsKey(lines[i], k)
               || (exists j :: 0 <= j < |lines| && AssignsKey(lines[j], k))
               || (exists j :: 0 <= j < i && CommentsKey(lines[j], k))
    ensures i < |SetLines(lines, values)| && SetLines(lines, values)[i] == lines[i]
  {
    hide KeyOfLine, AssignsKey, CommentsKey, HasBothQuotes, EditedLine, Assign;
    forall k | k in values
      ensures !IsTarget(lines, i, k)
    {
      NotThePlace(lines, i, k);
    }
    EditedLineFrame(lines, values, i);
  }

  lemma NotThePlace(lines: seq<string>, i: nat, k: string)
    requires IsKey(k) && i < |lines|
    requires !AssignsKey(lines[i], k) || exists j :: 0 <= j < i && AssignsKey(lines[j], k)
    requires || !CommentsKey(lines[i], k)
             || (exists j :: 0 <= j < |lines| && AssignsKey(lines[j], k))
             || (exists j :: 0 <= j < i && CommentsKey(lines[j], k))
    ensures !IsTarget(lines, i, k)
  {
    hide KeyOfLine, AssignsKey, CommentsKey;
    forall j | 0 <= j < |lines|
      ensures Active(lines[j]) == Some(k) <==> AssignsKey(lines[j], k)
      ensures Commented(lines[j]) == Some(k) <==> CommentsKey(lines[j], k)
    {
      PlacesOfKey(lines[j], k);
    }
  }

  predicate OnlySpace(line: string) {
    forall i :: 0 <= i < |line| ==> IsSpace(line[i])
  }

  /** New keys are set off by one blank line exactly when the text before them ends in a line with
      something on it. */
  lemma BlankBeforeNew(lines: seq<string>, values: map<string, string>)
    requires AllQuotable(values) && PatternKeys(values) && NewKeys(lines, values) != {}
    ensures var r := SetLines(lines, values);
            && |r| > |lines|
            && (r[|lines|] == "" <==> lines != [] && !OnlySpace(r[|lines| - 1]))
  {
    hide KeyOfLine, HasBothQuotes, EditedLine, NewKeys, Sorted, AssignAll, EditedLines, Assign;
    var body, keys := EditedLines(lines, values), Sorted(NewKeys(lines, values));
    NewKeysKnown(lines, values);
    AppendedIs(lines, values);
    var k :| k in NewKeys(lines, values);
    assert k in keys;
    var r := SetLines(lines, values);
    assert r == body + (Separator(body) + AssignAll(keys, values));
    AssignNotEmpty(keys[0], values[keys[0]]);
    if lines != [] {
      SomethingOn(body[|body| - 1]);
    }
  }

  lemma AssignNotEmpty(k: string, v: string)
    requires !HasBothQuotes(v)
    ensures Assign(k, v) != ""
  {
  }

  lemma SomethingOn(line: string)
    ensures Trim(line) != "" <==> !OnlySpace(line)
  {
    var a, b := TrimTakesSpace(line);
    if Trim(line) != "" {
      assert line[|a|] == Trim(line)[0];
    } else {
      assert forall i :: 0 <= i < |line| ==> line[i] == if i < |a| then a[i] else b[i - |a|];
    }
  }

  lemma EditedLineFrame(lines: seq<string>, values: map<string, string>, i: nat)
    requires i < |lines| && AllQuotable(values)
    ensures forall k :: k in values && IsTarget(lines, i, k) ==> EditedLine(lines, values, i) == Assign(k, values[k])
    ensures (forall k :: k in values ==> !IsTarget(lines, i, k)) ==> EditedLine(lines, values, i) == lines[i]
  {
    hide Assign, HasBothQuotes;
    var active, commented := Active(lines[i]), Commented(lines[i]);
    assert active.Some? ==> commented.None?;
    hide KeyOfLine;
  }

  lemma OneTargetPerLine(lines: seq<string>, i: nat, k: string, k': string)
    requires i < |lines| && IsTarget(lines, i, k) && IsTarget(lines, i, k')
    ensures k == k'
  {
    assert Active(lines[i]).Some? ==> Commented(lines[i]).None?;
    hide KeyOfLine;
  }

  lemma AppendedShape(lines: seq<string>, values: map<string, string>)
    requires AllQuotable(values)
    ensures NewLines(lines, values, Appended(lines, values), Sorted(NewKeys(lines, values)))
  {
    hide KeyOfLine, Assign, HasBothQuotes, Separator, AssignAll, Sorted, NewKeys, EditedLines, AllQuotable, Appended,
      WrittenBehind, Increasing;
    var keys := Sorted(NewKeys(lines, values));
    NewKeysKnown(lines, values);
    SeparatorShape(EditedLines(lines, values));
    TailShape(Separator(EditedLines(lines, values)), keys, values);
    AppendedIs(lines, values);
  }

  lemma AppendedIs(lines: seq<string>, values: map<string, string>)
    requires AllQuotable(values) && forall k :: k in Sorted(NewKeys(lines, values)) ==> k in values
    ensures var keys := Sorted(NewKeys(lines, values));
            Appended(lines, values) ==
            if keys == [] then [] else Separator(EditedLines(lines, values)) + AssignAll(keys, values)
  {
    hide KeyOfLine, Assign, HasBothQuotes, Separator, Increasing, AssignAll, Sorted, NewKeys, EditedLines, AllQuotable;
    var added := NewKeys(lines, values);
    var keys := Sorted(added);
    if keys == [] {
      assert forall k :: k !in added;
    } else {
      assert keys[0] in keys;
    }
  }

  lemma NewKeysKnown(lines: seq<string>, values: map<string, string>)
    ensures forall k :: k in NewKeys(lines, values) ==> k in values
  {
    hide HasActive, HasCommented;
  }

  lemma TailShape(sep: seq<string>, keys: seq<string>, values: map<string, string>)
    requires AllQuotable(values) && forall x :: x in keys ==> x in values
    requires sep == [] || sep == [""]
    ensures WrittenBehind(values, if keys == [] then [] else sep + AssignAll(keys, values), keys)
  {
    hide Assign, HasBothQuotes, AssignAll;
    var all := AssignAll(keys, values);
    AfterSeparator(sep, all);
    forall j | 0 <= j < |keys|
      ensures keys[j] in values && (sep + all)[|sep| + j] == Assign(keys[j], values[keys[j]])
    {
      assert keys[j] in keys;
    }
  }

  lemma AfterSeparator(sep: seq<string>, tail: seq<string>)
    ensures |sep + tail| == |sep| + |tail|
    ensures forall j :: 0 <= j < |tail| ==> (sep + tail)[|sep| + j] == tail[j]
    ensures sep != [] ==> (sep + tail)[0] == sep[0]
  {
  }

  lemma SeparatorShape(lines: seq<string>)
    ensures Separator(lines) == [] || Separator(lines) == [""]
  {
  }

  lemma EditedLineActive(lines: seq<string>, values: map<string, string>, i: nat, k: string)
    requires i < |lines| && AllQuotable(values) && PatternKeys(values) && k in values
    ensures IsTarget(lines, i, k) ==> EditedLine(lines, values, i) == Assign(k, values[k])
    ensures Active(EditedLine(lines, values, i)) == Some(k) ==> IsTarget(lines, i, k) || Active(lines[i]) == Some(k)
    ensures IsTarget(lines, i, k) ==> Active(EditedLine(lines, values, i)) == Some(k)
  {
    match Active(lines[i]) {
      case Some(k') =>
        if k' in values {
          AssignParses(k', values[k']);
        }
      case None =>
        match Commented(lines[i]) {
          case Some(k') =>
            if k' in values {
              AssignParses(k', values[k']);
            }
          case None =>
        }
    }
  }

  /** In the edited file the first active line of a requested key is the one written. */
  lemma FirstWritten(lines: seq<string>, values: map<string, string>, k: string) returns (f: nat)
    requires AllQuotable(values) && PatternKeys(values) && k in values
    ensures f < |SetLines(lines, values)| && SetLines(lines, values)[f] == Assign(k, values[k])
    ensures FirstWithKey(SetLines(lines, values), f, k, false)
  {
    TargetOrNew(lines, k);
    if TargetBefore(lines, k, |lines|) {
      f := FirstWrittenInPlace(lines, values, k);
    } else {
      f := FirstWrittenAtEnd(lines, values, k);
    }
  }

  lemma FirstWrittenInPlace(lines: seq<string>, values: map<string, string>, k: string) returns (f: nat)
    requires AllQuotable(values) && PatternKeys(values) && k in values && TargetBefore(lines, k, |lines|)
    ensures f < |SetLines(lines, values)| && SetLines(lines, values)[f] == Assign(k, values[k])
    ensures FirstWithKey(SetLines(lines, values), f, k, false)
  {
    hide KeyOfLine, Assign, EditedLine;
    f :| 0 <= f < |lines| && IsTarget(lines, f, k);
    EditedLineActive(lines, values, f, k);
    forall j | 0 <= j < f
      ensures Active(SetLines(lines, values)[j]) != Some(k)
    {
      EditedLineActive(lines, values, j, k);
      if IsTarget(lines, j, k) {
        TargetUnique(lines, k, j, f);
        assert false;
      }
    }
  }

  lemma FirstWrittenAtEnd(lines: seq<string>, values: map<string, string>, k: string) returns (f: nat)
    requires AllQuotable(values) && PatternKeys(values) && k in values && !TargetBefore(lines, k, |lines|)
    ensures f < |SetLines(lines, values)| && SetLines(lines, values)[f] == Assign(k, values[k])
    ensures FirstWithKey(SetLines(lines, values), f, k, false)
  {
    hide KeyOfLine, Assign, EditedLine, IsKey, HasBothQuotes, Appended, IsTarget, TargetBefore, HasActive, HasCommented;
    TargetOrNew(lines, k);
    var i := AppendedPosition(lines, values, k);
    NewKeyNotInPlace(lines, values, k);
    FirstInSecond(EditedLines(lines, values), Appended(lines, values), i, k);
    f := |lines| + i;
  }

  lemma NewKeyNotInPlace(lines: seq<string>, values: map<string, string>, k: string)
    requires AllQuotable(values) && PatternKeys(values) && k in NewKeys(lines, values)
    ensures forall j :: 0 <= j < |lines| ==> Active(EditedLines(lines, values)[j]) != Some(k)
  {
    hide KeyOfLine, Assign, EditedLine, IsKey, HasBothQuotes;
    forall j | 0 <= j < |lines|
      ensures Active(EditedLines(lines, values)[j]) != Some(k)
    {
      EditedLineActive(lines, values, j, k);
    }
  }

  lemma FirstInSecond(a: seq<string>, b: seq<string>, i: nat, k: string)
    requires forall j :: 0 <= j < |a| ==> Active(a[j]) != Some(k)
    requires i < |b| && FirstWithKey(b, i, k, false)
    ensures FirstWithKey(a + b, |a| + i, k, false) && (a + b)[|a| + i] == b[i]
  {
    hide KeyOfLine;
  }

  lemma AppendedPosition(lines: seq<string>, values: map<string, string>, k: string) returns (i: nat)
    requires AllQuotable(values) && PatternKeys(values) && k in NewKeys(lines, values)
    ensures i < |Appended(lines, values)| && Appended(lines, values)[i] == Assign(k, values[k])
    ensures FirstWithKey(Appended(lines, values), i, k, false)
  {
    hide KeyOfLine, Assign, EditedLine, IsKey, HasBothQuotes, Sorted, NewKeys, EditedLines, AssignAll, Separator,
      Increasing;
    hide FirstWithKey, AllQuotable, PatternKeys;
    var keys := Sorted(NewKeys(lines, values));
    NewKeysKnown(lines, values);
    var n :| 0 <= n < |keys| && keys[n] == k;
    i := PositionAfter(EditedLines(lines, values), keys, values, n);
  }

  /** A key that is appended stands behind the separator and the keys before it. */
  lemma PositionAfter(lines: seq<string>, keys: seq<string>, values: map<string, string>, n: nat) returns (i: nat)
    requires AllQuotable(values) && PatternKeys(values) && Increasing(keys)
    requires n < |keys| && forall x :: x in keys ==> x in values
    ensures var all := Separator(lines) + AssignAll(keys, values);
            && i < |all| && all[i] == Assign(keys[n], values[keys[n]])
            && FirstWithKey(all, i, keys[n], false)
  {
    hide *;
    var sep, tail := Separator(lines), AssignAll(keys, values);
    var all := sep + tail;
    i := |sep| + n;
    forall j | 0 <= j <= i
      ensures Active(all[j]) == if j < |sep| then None else Some(keys[j - |sep|])
    {
      if j < |sep| {
        SeparatorInactive(lines, j);
      } else {
        assert all[j] == tail[j - |sep|];
        AppendedActive(keys, values, j - |sep|);
      }
    }
    forall j | 0 <= j < i
      ensures Active(all[j]) != Some(keys[n])
    {
      if j >= |sep| {
        DifferentKeys(keys, j - |sep|, n);
      }
    }
    FirstActive(all, i, keys[n]);
  }

  lemma AppendedActive(keys: seq<string>, values: map<string, string>, j: nat)
    requires AllQuotable(values) && PatternKeys(values)
    requires j < |keys| && forall x :: x in keys ==> x in values
    ensures Active(AssignAll(keys, values)[j]) == Some(keys[j])
  {
    hide KeyOfLine, Assign, IsKey, HasBothQuotes, AssignAll, ParseLine, Reread, Storable;
    var x := keys[j];
    assert x in keys;
    AssignParses(x, values[x]);
  }

  lemma FirstActive(lines: seq<string>, i: nat, k: string)
    requires i < |lines| && Active(lines[i]) == Some(k)
    requires forall j :: 0 <= j < i ==> Active(lines[j]) != Some(k)
    ensures FirstWithKey(lines, i, k, false)
  {
    hide KeyOfLine;
  }

  lemma DifferentKeys(keys: seq<string>, i: nat, j: nat)
    requires Increasing(keys) && i < j < |keys|
    ensures keys[i] != keys[j]
  {
  }

  lemma SeparatorInactive(lines: seq<string>, i: nat)
    requires i < |Separator(lines)|
    ensures Active(Separator(lines)[i]) == None
  {
  }

  /** Editing twice with the same values writes the same lines as editing once, duplicates or not. */
  lemma SetIdempotent(lines: seq<string>, values: map<string, string>)
    requires AllQuotable(values) && PatternKeys(values)
    ensures SetLines(SetLines(lines, values), values) == SetLines(lines, values)
  {
    hide KeyOfLine, Assign, SetLines, IsKey, HasBothQuotes, IsTarget, HasActive, FirstWithKey;
    var r := SetLines(lines, values);
    forall k | k in values
      ensures HasActive(r, k)
      ensures forall i :: 0 <= i < |r| && IsTarget(r, i, k) ==> r[i] == Assign(k, values[k])
    {
      var f := FirstWritten(lines, values, k);
      FirstIsTarget(r, f, k);
    }
    SettledUnchanged(r, values);
  }

  /** A first active line is the only target of its key. */
  lemma FirstIsTarget(lines: seq<string>, f: nat, k: string)
    requires f < |lines| && FirstWithKey(lines, f, k, false)
    ensures HasActive(lines, k)
    ensures forall i :: 0 <= i < |lines| && IsTarget(lines, i, k) ==> i == f
  {
    hide KeyOfLine;
    assert Active(lines[f]) == Some(k);
  }

  /** A file whose target lines already hold the requested values is left as it is. */
  lemma SettledUnchanged(lines: seq<string>, values: map<string, string>)
    requires AllQuotable(values) && forall k :: k in values ==> HasActive(lines, k)
    requires forall k, i :: k in values && 0 <= i < |lines| && IsTarget(lines, i, k) ==>
             lines[i] == Assign(k, values[k])
    ensures SetLines(lines, values) == lines
  {
    hide KeyOfLine, Assign, HasActive;
    forall i | 0 <= i < |lines|
      ensures EditedLine(lines, values, i) == lines[i]
    {
    }
    assert EditedLines(lines, values) == lines;
    assert NewKeys(lines, values) == {};
  }

  // ---- UnsetEnvValues ----

  predicate Kept(line: string, keys: set<string>) {
    var k := Active(line);
    k.None? || k.value !in keys
  }

  /** The lines that UnsetEnvValues writes. */
  function UnsetLines(lines: seq<string>, keys: set<string>): seq<string> {
    if lines == [] then []
    else
      var l := lines[|lines| - 1];
      UnsetLines(lines[..|lines| - 1], keys) + if Kept(l, keys) then [l] else []
  }

  lemma KeptAssigns(line: string, keys: set<string>, k: string)
    ensures k in keys && IsKey(k) ==> (Kept(line, keys) ==> AssignedBy(line, k) == [])
    ensures !(k in keys && IsKey(k)) ==> (Kept(line, keys) || AssignedBy(line, k) == [])
  {
  }

  /** Unsetting drops every assignment of the named keys, duplicates included, and no other. */
  lemma {:induction false} UnsetAssigned(lines: seq<string>, keys: set<string>, k: string)
    ensures Assigned(UnsetLines(lines, keys), k) == if k in keys && IsKey(k) then [] else Assigned(lines, k)
    decreases |lines|
  {
    hide ParseLine, KeyOfLine, Kept, IsKey;
    if lines != [] {
      var init, l := lines[..|lines| - 1], lines[|lines| - 1];
      KeptAssigns(l, keys, k);
      UnsetAssigned(init, keys, k);
      if Kept(l, keys) {
        AssignedConcat(UnsetLines(init, keys), [l], k);
        assert [l][..0] == [];
      } else {
        assert UnsetLines(lines, keys) == UnsetLines(init, keys);
      }
    }
  }

  /** For every file, unsetting is removal from the parsed map. */
  lemma UnsetRefinesRemoval(lines: seq<string>, keys: set<string>)
    ensures ParseLines(UnsetLines(lines, keys)) == ParseLines(lines) - (set k | k in keys && IsKey(k))
  {
    hide ParseLine, KeyOfLine, UnsetLines, ParseLines, Assigned, IsKey;
    var after, before := UnsetLines(lines, keys), ParseLines(lines);
    var gone := set k | k in keys && IsKey(k);
    forall k
      ensures k in ParseLines(after) <==> k in before - gone
      ensures k in ParseLines(after) ==> ParseLines(after)[k] == before[k]
    {
      ParseLookup(after, k);
      ParseLookup(lines, k);
      UnsetAssigned(lines, keys, k);
    }
  }

  /** The line assigns a key-shaped name that is one of the keys. */
  predicate AssignsOneOf(line: string, keys: set<string>) {
    match ParseLine(line)
    case Some((k, _)) => IsKey(k) && k in keys
    case None => false
  }

  /** r is made of old lines, unchanged and in order, those at the given places; a place is left out
      exactly when its line assigns one of the keys. */
  predicate LeavesOut(lines: seq<string>, keys: set<string>, r: seq<string>, at: seq<nat>) {
    && |at| == |r|
    && (forall i, j :: 0 <= i < j < |at| ==> at[i] < at[j])
    && (forall i :: 0 <= i < |at| ==> at[i] < |lines| && r[i] == lines[at[i]])
    && (forall n :: 0 <= n < |lines| ==> (n in at <==> !AssignsOneOf(lines[n], keys)))
  }

  /** The frame of an unset: exactly the lines that assign one of the keys go. Comments, blank lines and
      all other text stay as they are, in order. */
  lemma {:induction false} UnsetFrame(lines: seq<string>, keys: set<string>) returns (at: seq<nat>)
    ensures LeavesOut(lines, keys, UnsetLines(lines, keys), at)
    decreases |lines|
  {
    hide KeyOfLine, ParseLine, AssignsOneOf, Kept, LeavesOut, UnsetLines;
    if lines == [] {
      at := [];
      UnsetNone(keys);
      NothingLeftOut(keys);
    } else {
      var m := |lines| - 1;
      at := UnsetFrame(lines[..m], keys);
      KeptExact(lines[m], keys);
      UnsetStep(lines, keys, m);
      assert lines[..m + 1] == lines;
      LeavesOutNext(lines[..m], keys, UnsetLines(lines[..m], keys), at, lines[m]);
      assert lines[..m] + [lines[m]] == lines;
      if !AssignsOneOf(lines[m], keys) {
        at := at + [m];
      }
    }
  }

  lemma NothingLeftOut(keys: set<string>)
    ensures LeavesOut([], keys, [], [])
  {
  }

  lemma LeavesOutNext(lines: seq<string>, keys: set<string>, r: seq<string>, at: seq<nat>, line: string)
    requires LeavesOut(lines, keys, r, at)
    ensures if AssignsOneOf(line, keys) then LeavesOut(lines + [line], keys, r + [], at)
            else LeavesOut(lines + [line], keys, r + [line], at + [|lines|])
  {
    hide AssignsOneOf;
    assert r + [] == r;
    assert |lines| !in at;
    assert |lines| in at + [|lines|];
  }

  lemma KeptExact(line: string, keys: set<string>)
    ensures Kept(line, keys) <==> !AssignsOneOf(line, keys)
  {
  }

  /** Setting keys and then unsetting them parses as unsetting them alone. */
  lemma SetThenUnset(lines: seq<string>, values: map<string, string>)
    requires AllQuotable(values) && PatternKeys(values)
    ensures ParseLines(UnsetLines(SetLines(lines, values), values.Keys)) == ParseLines(lines) - values.Keys
  {
    hide ParseLine, KeyOfLine, SetLines, UnsetLines, ParseLines, IsKey, HasBothQuotes;
    UnsetRefinesRemoval(SetLines(lines, values), values.Keys);
    SetRefinesUpdate(lines, values);
    assert (set k | k in values.Keys && IsKey(k)) == values.Keys;
  }

  lemma UnsetStep(lines: seq<string>, keys: set<string>, r: nat)
    requires r < |lines|
    ensures UnsetLines(lines[..r + 1], keys) ==
            UnsetLines(lines[..r], keys) + if Kept(lines[r], keys) then [lines[r]] else []
  {
    hide Kept;
    assert lines[..r + 1][..r] == lines[..r];
  }

  /** The compaction loop of UnsetEnvValues: the kept lines move down inside the array that is
      being read. */
  method CompactKept(lines: array<string>, keys: set<string>) returns (n: nat)
    modifies lines
    ensures n <= lines.Length
    ensures lines[..n] == UnsetLines(old(lines[..]), keys)
  {
    hide UnsetLines, KeyOfLine;
    ghost var all := lines[..];
    n := 0;
    assert UnsetLines(all[..0], keys) == [] by {
      UnsetNone(keys);
    }
    for r := 0 to lines.Length
      invariant n <= r
      invariant lines[..n] == UnsetLines(all[..r], keys)
      invariant forall j :: r <= j < lines.Length ==> lines[j] == all[j]
    {
      UnsetStep(all, keys, r);
      var key := KeyOfLine(lines[r], false);
      if key.Some? && key.value in keys {
        continue;
      }
      ghost var kept := lines[..n];
      lines[n] := lines[r];
      n := n + 1;
      assert lines[..n] == kept + [all[r]];
    }
    assert all[..|all|] == all;
  }

  lemma UnsetNone(keys: set<string>)
    ensures UnsetLines([], keys) == []
  {
  }
}
