/** What a save of the settings screen leaves behind when one of its two writes fails, or when the
    file assigns a key more than once: exactly when the cached rows still agree with the file. */
module SettingsFaults {
  import opened Wrappers
  import opened Text
  import opened EnvLine
  import opened EnvEdit
  import opened EnvFile
  import opened EnvStore
  import opened S = SettingsScreen
  import L = Layers

  // ---- a save with failing writes ----

  /** The files that the two writes of a save start from. */
  function Before(s: Screen, c: Config): map<string, FileData> {
    if s.scope.Global? then WithTemplate(s.files, c) else s.files
  }

  predicate FirstFails(values: map<string, string>, first: Fate) {
    values != map[] && (!AllQuotable(values) || !first.Completes?)
  }

  ghost function AfterFirst(files: map<string, FileData>, target: string, values: map<string, string>)
    : map<string, FileData>
    requires AllQuotable(values)
  {
    if values == map[] then files else AfterSet(files, target, values)
  }

  /** A missing file has nothing to unset, so only reading it can fail. */
  predicate SecondFails(files: map<string, FileData>, target: string, unset: seq<string>, second: Fate) {
    unset != [] && !second.Completes? && (second == ReadFails || target in files)
  }

  /** save, when its first write meets one fate and its second another. */
  ghost function SaveUnder(s: Screen, first: Fate, second: Fate): Screen {
    if s.cfg.None? then s.(failed := true)
    else if !ScreenDirty(s) then s.(failed := false)
    else
      var target, files := ScopeFile(s.cfg.value, s.scope), Before(s, s.cfg.value);
      var values, unset := EditedValues(s.fields), ClearedKeys(s.fields);
      if FirstFails(values, first) then s.(files := files, failed := true)
      else if SecondFails(AfterFirst(files, target, values), target, unset, second)
      then s.(files := AfterFirst(files, target, values), failed := true)
      else Saved(s, Edited(files, target, values, unset))
  }

  /** What the two writes of a save leave, and whether both went through. */
  ghost predicate WritesDone(s: Screen, first: Fate, second: Fate, files: map<string, FileData>, ok: bool)
    requires s.cfg.Some?
  {
    var target, start := ScopeFile(s.cfg.value, s.scope), Before(s, s.cfg.value);
    var values, unset := EditedValues(s.fields), ClearedKeys(s.fields);
    if FirstFails(values, first) then !ok && files == start
    else
      && AllQuotable(values)
      && (ok <==> !SecondFails(AfterFirst(start, target, values), target, unset, second))
      && files == if ok then Edited(start, target, values, unset) else AfterFirst(start, target, values)
  }

  lemma SaveUnloaded(s: Screen, first: Fate, second: Fate)
    requires s.cfg.None?
    ensures SaveUnder(s, first, second) == s.(failed := true)
  {
  }

  lemma SaveUnchanged(s: Screen, first: Fate, second: Fate)
    requires s.cfg.Some? && !ScreenDirty(s)
    ensures SaveUnder(s, first, second) == s.(failed := false)
  {
    hide AnyDirty;
  }

  lemma SaveWritten(s: Screen, first: Fate, second: Fate, files: map<string, FileData>, ok: bool)
    requires s.cfg.Some? && ScreenDirty(s) && WritesDone(s, first, second, files, ok)
    ensures SaveUnder(s, first, second) == if ok then Saved(s, files) else s.(files := files, failed := true)
  {
    hide AnyDirty, EditedValues, ClearedKeys, AfterFirst, Edited, SecondFails, FirstFails, Before, Saved, ScopeFile,
      AllQuotable;
  }

  lemma NoFaultsIsSave(s: Screen)
    ensures SaveUnder(s, Completes, Completes) == Save(s)
  {
    hide AfterSet, AfterUnset, WithTemplate, EditedValues, ClearedKeys, Saved, Edited, AnyDirty;
    if s.cfg.Some? {
      NothingQuotable();
    }
  }

  lemma NothingQuotable()
    ensures AllQuotable(map[])
  {
  }

  // ---- agreement ----

  /** Every row's saved part is what the file of the scope says. */
  predicate Agrees(s: Screen)
    requires s.cfg.Some?
  {
    forall i :: 0 <= i < |s.fields| ==> Faithful(s.fields[i], Parsed(s.files, ScopeFile(s.cfg.value, s.scope)))
  }

  /** A screen whose pending edits can be written; its cache may be stale and its files may assign
      keys more than once. */
  predicate Savable(s: Screen) {
    && s.cfg.Some? && ConfigOk(s.cfg.value) && RowsOk(s)
    && forall i :: 0 <= i < |s.fields| ==> Writable(s.fields[i])
  }

  lemma PendingWritable(s: Screen)
    requires Savable(s)
    ensures var values := EditedValues(s.fields);
            && PatternKeys(values) && NewlineFreeValues(values)
            && forall k :: k in values ==> Storable(values[k])
  {
    hide L.Name, Storable, IsKey, EditedValues, ConfigOk;
    RowsDistinct(s);
    EditedExact(s.fields);
    var values := EditedValues(s.fields);
    forall k | k in values
      ensures IsKey(k) && NewlineFree(values[k]) && Storable(values[k])
    {
      var i :| 0 <= i < |s.fields| && Edits(s.fields[i], k);
      L.NamesAreKeys(s.fields[i].key);
      assert Writable(s.fields[i]);
    }
  }

  lemma FirstParses(files: map<string, FileData>, target: string, values: map<string, string>)
    requires AllQuotable(values) && PatternKeys(values) && NewlineFreeValues(values)
    ensures Parsed(AfterFirst(files, target, values), target) ==
            Parsed(files, target) + Effective(LinesOf(files, target), values)
  {
    hide LinesOf, Parsed, AfterSet, Reread, Assigned;
    if values == map[] {
      assert Effective(LinesOf(files, target), values) == map[];
    } else {
      AfterSetParses(files, target, values, target);
    }
  }

  lemma BothParse(files: map<string, FileData>, target: string, values: map<string, string>, unset: seq<string>)
    requires AllQuotable(values) && PatternKeys(values) && NewlineFreeValues(values)
    requires forall k :: k in unset ==> IsKey(k)
    ensures Parsed(Edited(files, target, values, unset), target) ==
            Parsed(files, target) + Effective(LinesOf(files, target), values) - KeySet(unset)
  {
    hide LinesOf, Parsed, AfterSet, AfterUnset, Effective, IsKey;
    FirstParses(files, target, values);
    AfterUnsetParses(AfterFirst(files, target, values), target, KeySet(unset), target);
    assert (set k | k in KeySet(unset) && IsKey(k)) == KeySet(unset);
  }

  // ---- exactly when a save that goes through leaves agreement ----

  /** What a row needs for the save: an unchanged one must agree already, and one that is written
      must be on one active line at most, unless the last of several reads as its value. */
  predicate KeptUp(f: Field, lines: seq<string>, parsed: map<string, string>) {
    var n := L.Name(f.key);
    if !Dirty(f) then Faithful(f, parsed)
    else f.present ==> Count(lines, n) <= 1 || (n in parsed && parsed[n] == f.value)
  }

  /** One row after the save, by what the save collected. */
  lemma RowAfterSave(f: Field, lines: seq<string>, parsed: map<string, string>, values: map<string, string>,
                     gone: set<string>)
    requires var n := L.Name(f.key);
             && (n in values <==> Dirty(f) && f.present)
             && (n in values ==> values[n] == f.value && Reread(f.value) == f.value)
             && (n in gone <==> Dirty(f) && !f.present)
             && (n in parsed <==> Count(lines, n) > 0)
    ensures Faithful(MarkedSaved(f), parsed + Effective(lines, values) - gone) <==> KeptUp(f, lines, parsed)
  {
    hide L.Name, Reread, Assigned;
    var n := L.Name(f.key);
    var after := parsed + Effective(lines, values) - gone;
    if n in values {
      assert n in after;
      assert after[n] == if Count(lines, n) <= 1 then f.value else parsed[n];
    } else if n in gone {
      assert n !in after;
    } else {
      assert n in after <==> n in parsed;
      assert n in after ==> after[n] == parsed[n];
    }
  }

  lemma CountsParsed(files: map<string, FileData>, p: string, k: string)
    ensures k in Parsed(files, p) <==> Count(LinesOf(files, p), k) > 0
  {
    hide Parsed, ParseLines, LinesOf, Assigned;
    ParsedIsParseLines(files, p);
    ParseLookup(LinesOf(files, p), k);
  }

  lemma RowSaved(s: Screen, i: nat)
    requires Savable(s) && Saves(s) && i < |s.fields|
    ensures var target := ScopeFile(s.cfg.value, s.scope);
            Faithful(MarkedSaved(s.fields[i]), Parsed(Save(s).files, target)) <==>
            KeptUp(s.fields[i], LinesOf(s.files, target), Parsed(s.files, target))
  {
    hide L.Name, EditedValues, ClearedKeys, Parsed, LinesOf, WithTemplate, Storable, HasBothQuotes, IsKey, ConfigOk,
      Edited,
      Reread, Assigned, KeptUp, Faithful, Writable, AnyDirty, AllQuotable, Effective;
    var c, f := s.cfg.value, s.fields[i];
    var target, files, n := ScopeFile(c, s.scope), Before(s, c), L.Name(f.key);
    var values, unset := EditedValues(s.fields), ClearedKeys(s.fields);
    PendingWritable(s);
    ClearedAreKeys(s.fields);
    BothParse(files, target, values, unset);
    RowsDistinct(s);
    EditedExact(s.fields);
    ClearedOnce(s.fields, i);
    CountsParsed(files, target, n);
    TemplateParses(s.files, c, target, n);
    if n in values {
      L.NamesAreKeys(f.key);
      ValueRereads(values, n);
    }
    RowAfterSave(f, LinesOf(files, target), Parsed(files, target), values, KeySet(unset));
    SameKeptUp(f, LinesOf(s.files, target), LinesOf(files, target), Parsed(files, target));
  }

  lemma ValueRereads(values: map<string, string>, n: string)
    requires AllQuotable(values) && n in values && IsKey(n) && Storable(values[n])
    ensures Reread(values[n]) == values[n]
  {
    hide IsKey, HasBothQuotes, Storable, Reread;
    AssignParses(n, values[n]);
  }

  lemma SameKeptUp(f: Field, a: seq<string>, b: seq<string>, parsed: map<string, string>)
    requires Assigned(a, L.Name(f.key)) == Assigned(b, L.Name(f.key))
    ensures KeptUp(f, a, parsed) == KeptUp(f, b, parsed)
  {
    hide Assigned, L.Name;
  }

  /** Whatever the files hold and however stale the cache is: after a save that goes through, the
      rows agree with the file if and only if every row that was not written agreed before, and every
      value that was written is its key's only assignment or what its last line said already. */
  lemma SaveAgreesIff(s: Screen)
    requires Savable(s) && Saves(s)
    ensures Save(s).cfg == s.cfg
    ensures var target := ScopeFile(s.cfg.value, s.scope);
            Agrees(Save(s)) <==>
            forall i :: 0 <= i < |s.fields| ==> KeptUp(s.fields[i], LinesOf(s.files, target), Parsed(s.files, target))
  {
    hide Parsed, LinesOf, KeptUp, Faithful, Savable, Saves, Save;
    SaveShape(s);
    var target := ScopeFile(s.cfg.value, s.scope);
    var after := Parsed(Save(s).files, target);
    forall i | 0 <= i < |s.fields|
      ensures Faithful(Save(s).fields[i], after) <==>
              KeptUp(s.fields[i], LinesOf(s.files, target), Parsed(s.files, target))
    {
      RowSaved(s, i);
    }
  }

  lemma SaveShape(s: Screen)
    requires Saves(s)
    ensures Save(s).fields == MapFields(s.fields, MarkedSaved) && Save(s).cfg == s.cfg && Save(s).scope == s.scope
    ensures s.cfg.Some?
  {
    hide Edited, WithTemplate, EditedValues, ClearedKeys, AllQuotable, AnyDirty, L.Name;
  }

  // ---- exactly when a failed save leaves agreement ----

  lemma InvSavable(s: Screen)
    requires Inv(s) && s.cfg.Some?
    ensures Savable(s) && Agrees(s)
  {
    hide Parsed, ConfigOk, FilesOk, Faithful, Writable;
  }

  lemma UnderShape(s: Screen, first: Fate, second: Fate)
    requires s.cfg.Some? && SaveUnder(s, first, second).failed
    ensures ScreenDirty(s)
    ensures var t := SaveUnder(s, first, second);
            var values := EditedValues(s.fields);
            && t.cfg == s.cfg && t.scope == s.scope && t.fields == s.fields
            && t.files == if FirstFails(values, first) then Before(s, s.cfg.value)
                          else AfterFirst(Before(s, s.cfg.value), ScopeFile(s.cfg.value, s.scope), values)
  {
    hide AfterFirst, Before, EditedValues, ClearedKeys, Edited, AnyDirty, SecondFails;
  }

  lemma FirstMoves(s: Screen, i: nat)
    requires Inv(s) && s.cfg.Some? && i < |s.fields| && AllQuotable(EditedValues(s.fields))
    ensures var target := ScopeFile(s.cfg.value, s.scope);
            var after := Parsed(AfterFirst(Before(s, s.cfg.value), target, EditedValues(s.fields)), target);
            Faithful(s.fields[i], after) <==> !(Dirty(s.fields[i]) && s.fields[i].present)
  {
    hide L.Name, EditedValues, Parsed, LinesOf, WithTemplate, Storable, HasBothQuotes, IsKey, AfterFirst, Reread,
      Assigned,
      ConfigOk, AllQuotable, Writable;
    var c, f := s.cfg.value, s.fields[i];
    var target, files, n := ScopeFile(c, s.scope), Before(s, c), L.Name(f.key);
    var values := EditedValues(s.fields);
    InvSavable(s);
    assert Faithful(f, Parsed(s.files, target));
    PendingWritable(s);
    FirstParses(files, target, values);
    RowsDistinct(s);
    EditedExact(s.fields);
    TemplateParses(s.files, c, target, n);
    RowOnce(s, i);
    if n in values {
      L.NamesAreKeys(f.key);
      ValueRereads(values, n);
    }
  }

  lemma RowOnce(s: Screen, i: nat)
    requires Inv(s) && s.cfg.Some? && i < |s.fields|
    ensures Count(LinesOf(s.files, ScopeFile(s.cfg.value, s.scope)), L.Name(s.fields[i].key)) <= 1
  {
    hide L.Name, LinesOf, Assigned, ConfigOk, FieldsOk;
    assert s.fields[i].key == ROWS[i];
  }

  /** After a failed save the rows agree with the file if and only if the first write failed or had
      nothing to write. Otherwise the file has the new values while the rows still hold the old ones. */
  lemma FailedSaveAgreesIff(s: Screen, first: Fate, second: Fate)
    requires Inv(s) && s.cfg.Some? && SaveUnder(s, first, second).failed
    ensures SaveUnder(s, first, second).cfg == s.cfg
    ensures Agrees(SaveUnder(s, first, second)) <==>
            EditedValues(s.fields) == map[] || FirstFails(EditedValues(s.fields), first)
  {
    hide Parsed, Faithful, AfterFirst, SaveUnder, Inv, FirstFails, EditedValues, Before, ScreenDirty;
    UnderShape(s, first, second);
    var values, t := EditedValues(s.fields), SaveUnder(s, first, second);
    if FirstFails(values, first) {
      BeforeAgrees(s);
    } else {
      FirstDone(values, first);
      forall i | 0 <= i < |s.fields|
        ensures Faithful(t.fields[i], Parsed(t.files, ScopeFile(s.cfg.value, s.scope))) <==>
                !(Dirty(s.fields[i]) && s.fields[i].present)
      {
        FirstMoves(s, i);
      }
      WrittenIff(s);
    }
  }

  lemma FirstDone(values: map<string, string>, first: Fate)
    requires !FirstFails(values, first)
    ensures AllQuotable(values) && (values == map[] || first.Completes?)
  {
  }

  lemma WrittenIff(s: Screen)
    requires Inv(s) && s.cfg.Some?
    ensures EditedValues(s.fields) == map[] <==>
            forall i :: 0 <= i < |s.fields| ==> !(Dirty(s.fields[i]) && s.fields[i].present)
  {
    hide L.Name, EditedValues, Dirty, FilesOk, ConfigOk, FieldsOk, CursorOk;
    RowsDistinct(s);
    EditedExact(s.fields);
    var values := EditedValues(s.fields);
    if values != map[] {
      var k :| k in values;
      var i :| 0 <= i < |s.fields| && Edits(s.fields[i], k);
    }
    forall i | 0 <= i < |s.fields| && Dirty(s.fields[i]) && s.fields[i].present
      ensures values != map[]
    {
      assert L.Name(s.fields[i].key) in values;
    }
  }

  lemma BeforeAgrees(s: Screen)
    requires Inv(s) && s.cfg.Some?
    ensures forall i :: 0 <= i < |s.fields| ==>
              Faithful(s.fields[i], Parsed(Before(s, s.cfg.value), ScopeFile(s.cfg.value, s.scope)))
  {
    hide Parsed, Faithful, WithTemplate, ConfigOk;
    InvSavable(s);
    TemplateParses(s.files, s.cfg.value, ScopeFile(s.cfg.value, s.scope), "");
  }

  // ---- after a failed save ----

  /** Trying again restores agreement: the rows are still pending, and a save of them that goes
      through leaves every row as the file says. */
  lemma RetryAgrees(s: Screen, first: Fate, second: Fate)
    requires Inv(s) && s.cfg.Some? && SaveUnder(s, first, second).failed
    requires AllQuotable(EditedValues(s.fields))
    ensures var t := SaveUnder(s, first, second);
            Saves(t) && !Save(t).failed && Save(t).cfg == s.cfg && Agrees(Save(t)) && !ScreenDirty(Save(t))
  {
    hide Parsed, Faithful, AfterFirst, SaveUnder, Inv, FirstFails, EditedValues, Before, ScreenDirty, LinesOf,
      KeptUp, Save,
      Savable, AllQuotable;
    UnderShape(s, first, second);
    var t := SaveUnder(s, first, second);
    StillSavable(s, t);
    RetrySaves(s, t);
    var target := ScopeFile(t.cfg.value, t.scope);
    forall i | 0 <= i < |t.fields|
      ensures KeptUp(t.fields[i], LinesOf(t.files, target), Parsed(t.files, target))
    {
      RowKeptUp(s, first, i);
    }
    SaveAgreesIff(t);
    SavedClean(t);
  }

  lemma StillSavable(s: Screen, t: Screen)
    requires Inv(s) && s.cfg.Some? && t.cfg == s.cfg && t.fields == s.fields
    ensures Savable(t)
  {
    hide Parsed, FilesOk, ConfigOk, Faithful, Writable, CursorOk;
  }

  lemma RetrySaves(s: Screen, t: Screen)
    requires t.cfg == s.cfg && s.cfg.Some? && t.fields == s.fields
    requires ScreenDirty(s) && AllQuotable(EditedValues(s.fields))
    ensures Saves(t)
  {
    hide AnyDirty, AllQuotable, EditedValues;
  }

  lemma SavedClean(s: Screen)
    requires Saves(s)
    ensures !Save(s).failed && !ScreenDirty(Save(s))
  {
    hide Edited, WithTemplate, EditedValues, ClearedKeys, AllQuotable, L.Name;
  }

  lemma RowKeptUp(s: Screen, first: Fate, i: nat)
    requires Inv(s) && s.cfg.Some? && i < |s.fields| && AllQuotable(EditedValues(s.fields))
    ensures var target, values := ScopeFile(s.cfg.value, s.scope), EditedValues(s.fields);
            var files := if FirstFails(values, first) then Before(s, s.cfg.value)
                         else AfterFirst(Before(s, s.cfg.value), target, values);
            KeptUp(s.fields[i], LinesOf(files, target), Parsed(files, target))
  {
    hide L.Name, EditedValues, Parsed, LinesOf, WithTemplate, HasBothQuotes, IsKey, AfterSet, Reread, Assigned,
      ConfigOk, AllQuotable, Writable, Storable, Faithful, FirstFails, FilesOk;
    var c, f := s.cfg.value, s.fields[i];
    var target, n := ScopeFile(c, s.scope), L.Name(f.key);
    RowOnce(s, i);
    TemplateParses(s.files, c, target, n);
    BeforeAgrees(s);
    InvSavable(s);
    PendingWritable(s);
    FirstCount(Before(s, c), target, EditedValues(s.fields), n);
    FirstMoves(s, i);
  }

  lemma FirstCount(files: map<string, FileData>, target: string, values: map<string, string>, n: string)
    requires AllQuotable(values) && PatternKeys(values) && NewlineFreeValues(values)
    requires Count(LinesOf(files, target), n) <= 1
    ensures Count(LinesOf(AfterFirst(files, target, values), target), n) <= 1
  {
    hide LinesOf, AfterSet, Reread, Assigned, IsKey, HasBothQuotes;
    if values != map[] {
      AfterSetAssigned(files, target, values, target, n);
    }
  }

  /** Reverting does not help: the screen is clean afterwards and agrees exactly if it did before. So
      after a save whose first write went through and whose second failed, the revert key leaves a
      screen without pending changes that contradicts its file. */
  lemma RevertHidesStaleRows(s: Screen, first: Fate, second: Fate)
    requires Inv(s) && s.cfg.Some? && SaveUnder(s, first, second).failed
    ensures var r := RevertAll(SaveUnder(s, first, second));
            && r.cfg == s.cfg && !ScreenDirty(r)
            && (Agrees(r) <==> EditedValues(s.fields) == map[] || FirstFails(EditedValues(s.fields), first))
  {
    hide Parsed, SaveUnder, Inv, FirstFails, EditedValues;
    FailedSaveAgreesIff(s, first, second);
    RevertSame(SaveUnder(s, first, second));
  }

  /** So whenever a save has both values to write and keys to unset, a failure of the second write
      followed by the revert key ends in such a screen. */
  lemma SecondFailureLeavesStaleRows(s: Screen)
    requires Inv(s) && s.cfg.Some? && AllQuotable(EditedValues(s.fields))
    requires EditedValues(s.fields) != map[] && ClearedKeys(s.fields) != []
    ensures var t := SaveUnder(s, Completes, ReadFails);
            t.failed && t.cfg == s.cfg && !Agrees(t) && !ScreenDirty(RevertAll(t)) && !Agrees(RevertAll(t))
  {
    hide Parsed, Inv, EditedValues, ClearedKeys, AllQuotable, SaveUnder, Agrees, RevertAll;
    SecondUnread(s);
    FailedSaveAgreesIff(s, Completes, ReadFails);
    RevertHidesStaleRows(s, Completes, ReadFails);
    RevertSame(SaveUnder(s, Completes, ReadFails));
  }

  lemma SecondUnread(s: Screen)
    requires s.cfg.Some? && AllQuotable(EditedValues(s.fields))
    requires EditedValues(s.fields) != map[] && ClearedKeys(s.fields) != []
    ensures SaveUnder(s, Completes, ReadFails).failed && !FirstFails(EditedValues(s.fields), Completes)
  {
    hide AfterFirst, Before, Edited, AllQuotable, L.Name;
    if !ScreenDirty(s) {
      CleanCollectsNothing(s.fields);
    }
  }

  lemma {:induction false} CleanCollectsNothing(fields: seq<Field>)
    requires !AnyDirty(fields)
    ensures EditedValues(fields) == map[] && ClearedKeys(fields) == []
    decreases |fields|
  {
    hide L.Name;
    if fields != [] {
      assert !Dirty(fields[|fields| - 1]);
      CleanCollectsNothing(fields[..|fields| - 1]);
    }
  }

  lemma RevertSame(t: Screen)
    requires t.cfg.Some?
    ensures var r := RevertAll(t); r.cfg == t.cfg && !ScreenDirty(r) && (Agrees(r) <==> Agrees(t))
  {
    hide Parsed, L.Name;
    var r := RevertAll(t);
    var parsed := Parsed(t.files, ScopeFile(t.cfg.value, t.scope));
    forall i | 0 <= i < |t.fields|
      ensures Faithful(r.fields[i], parsed) == Faithful(t.fields[i], parsed) && !Dirty(r.fields[i])
    {
      assert r.fields[i] == Reverted(t.fields[i]);
    }
  }
}
