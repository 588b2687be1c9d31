/** The settings screen as the object that the key presses update: its fields are an array that is
    overwritten in place, and its saves go through the shared config directory. Every method does
    what the screen of module SettingsScreen does as a value. */
module SettingsModel {
  import opened Wrappers
  import opened Text
  import opened EnvEdit
  import opened EnvStore
  import opened S = SettingsScreen
  import opened SettingsFaults
  import Laws = SettingsLaws
  import L = Layers

  /** dirty. */
  method ScanDirty(fields: array<Field>) returns (dirty: bool)
    ensures dirty <==> AnyDirty(fields[..])
  {
    for i := 0 to fields.Length
      invariant forall j :: 0 <= j < i ==> !Dirty(fields[j])
    {
      if Dirty(fields[i]) {
        assert Dirty(fields[..][i]);
        return true;
      }
    }
    return false;
  }

  /** The loop of the revert key. */
  method RevertFields(fields: array<Field>)
    modifies fields
    ensures fields[..] == MapFields(old(fields[..]), Reverted)
  {
    for i := 0 to fields.Length
      invariant forall j :: 0 <= j < i ==> fields[j] == Reverted(old(fields[j]))
      invariant forall j :: i <= j < fields.Length ==> fields[j] == old(fields[j])
    {
      fields[i] := fields[i].(value := fields[i].saved);
      fields[i] := fields[i].(present := fields[i].savedPresent);
    }
  }

  /** The last loop of save. */
  method MarkAllSaved(fields: array<Field>)
    modifies fields
    ensures fields[..] == MapFields(old(fields[..]), MarkedSaved)
  {
    for i := 0 to fields.Length
      invariant forall j :: 0 <= j < i ==> fields[j] == MarkedSaved(old(fields[j]))
      invariant forall j :: i <= j < fields.Length ==> fields[j] == old(fields[j])
    {
      fields[i] := fields[i].(saved := fields[i].value);
      fields[i] := fields[i].(savedPresent := fields[i].present);
    }
  }

  /** The loop of save that sorts the dirty fields into values to write and keys to unset. */
  method CollectEdits(fields: array<Field>) returns (values: map<string, string>, unset: seq<string>)
    ensures values == EditedValues(fields[..]) && unset == ClearedKeys(fields[..])
  {
    hide L.Name;
    values, unset := map[], [];
    for i := 0 to fields.Length
      invariant values == EditedValues(fields[..i]) && unset == ClearedKeys(fields[..i])
    {
      var f := fields[i];
      assert fields[..i + 1][..i] == fields[..i];
      if !Dirty(f) {
        continue;
      }
      if f.present {
        values := values[L.Name(f.key) := f.value];
      } else {
        unset := unset + [L.Name(f.key)];
      }
    }
    assert fields[..fields.Length] == fields[..];
  }

  lemma NothingToQuote(values: map<string, string>)
    requires values == map[]
    ensures AllQuotable(values)
  {
  }

  /** WriteEnvTemplates, for the global settings file. */
  method WriteEnvTemplates(dir: ConfigDir, c: Config)
    modifies dir
    ensures dir.files == S.WithTemplate(old(dir.files), c)
  {
    if c.globalPath !in dir.files {
      dir.files := dir.files[c.globalPath := FileData(c.template, PRIVATE_MODE)];
    }
  }

  class Model {
    const dir: ConfigDir
    var cfg: Option<Config>
    var scope: Scope
    var fields: array<Field>
    var cursor: nat
    var editing: bool
    var input: string
    var failed: bool
    var confirmed: bool
    var cancelled: bool
    var openPackages: bool
    var quit: bool

    ghost function State(): Screen
      reads this, fields, dir
    {
      Screen(cfg, dir.files, scope, fields[..], cursor, editing, input, failed, confirmed, cancelled, openPackages,
          quit)
    }

    ghost predicate Valid()
      reads this, fields
    {
      cursor <= fields.Length && (editing ==> cursor > 0)
    }

    /** A temporary name that collides with nothing. */
    ghost predicate Unused(tmp: string)
      reads this, dir
    {
      tmp !in dir.files && (cfg.Some? ==> tmp != cfg.value.globalPath && tmp != cfg.value.storePath)
    }

    /** newSettingsModel. */
    constructor (dir: ConfigDir)
      ensures Valid() && this.dir == dir && fresh(fields)
      ensures State() == S.Reset(None, dir.files, "")
    {
      this.dir := dir;
      cfg, scope, cursor, editing, input := None, Global, 0, false, "";
      failed, confirmed, cancelled, openPackages, quit := false, false, false, false, false;
      fields := new Field[0];
    }

    /** buildSettingFields. */
    method LoadScope(c: Config)
      modifies this`fields
      ensures fresh(fields) && fields[..] == S.LoadFields(Some(c), dir.files, scope)
    {
      hide S.BuildField, Parsed;
      var raw := Parsed(dir.files, S.ScopeFile(c, scope));
      fields := new Field[|ROWS|](i requires 0 <= i < |ROWS| => S.BuildField(raw, c.settings, ROWS[i]));
    }

    /** reset. */
    method Reset(cfg: Option<Config>)
      modifies this
      ensures Valid() && fresh(fields)
      ensures State() == S.Reset(cfg, dir.files, old(input))
    {
      hide S.LoadFields;
      this.cfg := cfg;
      scope := Global;
      ClearMarks();
      fields := new Field[0];
      S.NothingToLoad(dir.files, scope);
      if cfg.Some? {
        LoadScope(cfg.value);
      }
    }

    method ClearMarks()
      modifies this`cursor, this`editing, this`failed, this`confirmed, this`cancelled, this`openPackages, this`quit
      ensures cursor == 0 && !editing && !failed && !confirmed && !cancelled && !openPackages && !quit
    {
      cursor, editing := 0, false;
      failed, confirmed, cancelled, openPackages, quit := false, false, false, false, false;
    }

    /** toggleScope. */
    method ToggleScope()
      requires Valid() && !editing
      modifies this`scope, this`cursor, this`failed, this`fields
      ensures Valid() && (fields == old(fields) || fresh(fields))
      ensures State() == S.ToggleScope(old(State()))
      ensures (exists i :: 0 <= i < old(fields.Length) && Laws.Pending(old(State()).fields[i])) ==>
                failed && scope == old(scope) && fields == old(fields) && fields[..] == old(fields[..])
    {
      hide S.BuildFields, Parsed, S.AnyDirty;
      Laws.PendingIsDirty(fields[..]);
      var dirty := ScanDirty(fields);
      if dirty {
        failed := true;
        return;
      }
      scope := if scope.Global? then Project else Global;
      cursor := 0;
      failed := false;
      if cfg.Some? {
        LoadScope(cfg.value);
      }
    }

    /** clearOverride. */
    method ClearOverride()
      requires Valid() && !editing
      modifies this`failed, fields
      ensures Valid() && fields == old(fields)
      ensures State() == S.ClearOverride(old(State()))
    {
      if scope.Global? || cursor == 0 || !fields[cursor - 1].present {
        return;
      }
      fields[cursor - 1] := fields[cursor - 1].(present := false);
      failed := false;
    }

    /** activate. */
    method Activate()
      requires Valid() && !editing
      modifies this`failed, this`confirmed, this`openPackages, this`editing, this`input, fields
      ensures Valid() && fields == old(fields)
      ensures State() == S.Activate(old(State()))
    {
      hide S.ToggleBool, L.IsBool, S.InputText;
      failed, confirmed := false, false;
      if cursor == 0 {
        openPackages := true;
        return;
      }
      var f := fields[cursor - 1];
      if L.IsBool(f.key) {
        fields[cursor - 1] := S.ToggleBool(f, scope);
        return;
      }
      editing := true;
      input := S.InputText(f.value);
    }

    /** The enter key in the editor. */
    method CommitEdit(float: string -> Option<real>)
      requires Valid() && editing
      modifies this`failed, this`editing, fields
      ensures State() == S.Commit(old(State()), float)
    {
      hide S.Acceptable, Trim;
      var value := Trim(input);
      if !S.Acceptable(fields[cursor - 1].key, value, float) {
        failed := true;
        return;
      }
      fields[cursor - 1] := fields[cursor - 1].(value := value);
      fields[cursor - 1] := fields[cursor - 1].(present := true);
      editing := false;
    }

    /** updateEditing. */
    method UpdateEditing(p: Press, float: string -> Option<real>)
      requires Valid() && editing
      modifies this`failed, this`editing, this`input, fields
      ensures Valid()
      ensures State() == S.UpdateEditing(old(State()), p, float)
    {
      hide S.Commit;
      if p.key.Esc? {
        editing := false;
      } else if p.key.Enter? {
        CommitEdit(float);
      } else {
        input := p.typed;
        failed := false;
      }
    }

    /** The two rewrites of a save: the values first and then, if that went through, the keys to unset. */
    method WriteEdits(target: string, values: map<string, string>, unset: seq<string>, tmp: string, first: Fate,
                      second: Fate)
      returns (ok: bool)
      requires tmp != target && tmp !in dir.files && !first.DiesBefore? && !second.DiesBefore?
      modifies dir
      ensures FirstFails(values, first) ==> !ok && dir.files == old(dir.files)
      ensures !FirstFails(values, first) ==>
                && AllQuotable(values)
                && var files := AfterFirst(old(dir.files), target, values);
                   && (ok <==> !SecondFails(files, target, unset, second))
                   && dir.files == if ok then S.Edited(old(dir.files), target, values, unset) else files
    {
      hide AllQuotable, AfterUnset;
      if |values| > 0 {
        var r := dir.SetEnvValues(target, values, tmp, first);
        if r != Written {
          return false;
        }
      } else {
        NothingToQuote(values);
      }
      if |unset| > 0 {
        var r := dir.UnsetEnvValues(target, unset, tmp, second);
        if r != Written && r != Unchanged {
          return false;
        }
      }
      return true;
    }

    /** The part of a save that touches the directory. */
    method WritePending(tmp: string, first: Fate, second: Fate) returns (ok: bool)
      requires cfg.Some? && Unused(tmp) && !first.DiesBefore? && !second.DiesBefore?
      modifies dir
      ensures WritesDone(old(State()), first, second, dir.files, ok)
    {
      hide AllQuotable, S.EditedValues, S.ClearedKeys, AfterFirst, FirstFails, SecondFails, S.Edited;
      var target := S.ScopeFile(cfg.value, scope);
      if scope.Global? {
        WriteEnvTemplates(dir, cfg.value);
      }
      var values, unset := CollectEdits(fields);
      ok := WriteEdits(target, values, unset, tmp, first, second);
    }

    /** save, with what becomes of each of its two writes. */
    method Save(tmp: string, first: Fate, second: Fate)
      requires Valid() && !editing && Unused(tmp) && !first.DiesBefore? && !second.DiesBefore?
      modifies this`failed, this`confirmed, fields, dir
      ensures Valid() && fields == old(fields)
      ensures State() == SaveUnder(old(State()), first, second)
    {
      hide S.AnyDirty, SaveUnder, WritesDone, S.Saved;
      ghost var before := State();
      if cfg.None? {
        SaveUnloaded(before, first, second);
        failed := true;
        return;
      }
      var dirty := ScanDirty(fields);
      if !dirty {
        SaveUnchanged(before, first, second);
        failed := false;
        return;
      }
      var ok := WritePending(tmp, first, second);
      SaveWritten(before, first, second, dir.files, ok);
      if !ok {
        failed := true;
        return;
      }
      SavedParts(before, dir.files);
      FinishSave();
    }

    /** A save whose writes go through. */
    method SaveNow(tmp: string)
      requires Valid() && !editing && Unused(tmp)
      modifies this`failed, this`confirmed, fields, dir
      ensures Valid() && fields == old(fields)
      ensures State() == S.Save(old(State()))
    {
      hide S.Save, SaveUnder;
      NoFaultsIsSave(State());
      Save(tmp, Completes, Completes);
    }

    method FinishSave()
      modifies this`failed, this`confirmed, fields
      ensures fields[..] == S.MapFields(old(fields[..]), S.MarkedSaved) && !failed && !confirmed
    {
      MarkAllSaved(fields);
      failed, confirmed := false, false;
    }

    /** The esc and q keys. */
    method Leave()
      requires Valid() && !editing
      modifies this`failed, this`confirmed, this`cancelled
      ensures Valid() && fields == old(fields)
      ensures State() == S.Leave(old(State()))
    {
      hide S.AnyDirty;
      var dirty := ScanDirty(fields);
      if dirty && !confirmed {
        failed := true;
        confirmed := true;
        return;
      }
      cancelled := true;
    }

    /** The revert key. */
    method Revert()
      requires Valid() && !editing
      modifies this`failed, this`confirmed, fields
      ensures Valid() && fields == old(fields)
      ensures State() == S.RevertAll(old(State()))
    {
      RevertFields(fields);
      failed, confirmed := false, false;
    }

    /** The keys that concern no field. */
    method Navigate(key: Key)
      requires Valid() && !editing
      modifies this`cursor, this`quit
      ensures Valid()
      ensures State() == S.Navigate(old(State()), key)
    {
      if key.CtrlC? {
        quit := true;
      } else if key.Up? && cursor > 0 {
        cursor := cursor - 1;
      } else if key.Down? && cursor < fields.Length {
        cursor := cursor + 1;
      }
    }

    /** Update. */
    method Update(p: Press, float: string -> Option<real>, tmp: string)
      requires Valid() && Unused(tmp)
      modifies this, fields, dir
      ensures Valid() && (fields == old(fields) || fresh(fields))
      ensures State() == S.Update(old(State()), p, float)
    {
      hide S.Save, S.ToggleScope, S.ClearOverride, S.Activate, S.UpdateEditing, S.Leave, S.Navigate, S.RevertAll;
      if editing {
        UpdateEditing(p, float);
        return;
      }
      if !p.key.Esc? && !p.key.Quit? {
        confirmed := false;
      }
      match p.key {
        case Esc => Leave();
        case Quit => Leave();
        case Space => Activate();
        case Enter => Activate();
        case Revert => Revert();
        case SaveKey => SaveNow(tmp);
        case Tab => ToggleScope();
        case Clear => ClearOverride();
        case _ => Navigate(p.key);
      }
    }

    // ---- whole runs ----

    /** The presses of a run, one after the other. A row with a pending edit stays as it is, in the
        scope it belongs to, as long as no press of the run touches it. */
    method Play(presses: seq<Press>, float: string -> Option<real>, tmp: string)
      requires Valid() && Unused(tmp)
      modifies this, fields, dir
      ensures Valid() && Unused(tmp) && (fields == old(fields) || fresh(fields))
      ensures State() == S.Run(old(State()), KeyEvents(presses), float)
      ensures forall i :: 0 <= i < old(fields.Length) && Laws.Pending(old(State()).fields[i])
                          && Laws.Untouched(old(State()), KeyEvents(presses), float, i) ==>
                scope == old(scope) && i < fields.Length && fields[i] == old(State()).fields[i]
    {
      hide S.Update, S.Run, Laws.Untouched, Laws.Pending;
      ghost var start := State();
      Laws.RunKeepsEdits(start, KeyEvents(presses), float);
      RunsNothing(start, float);
      for i := 0 to |presses|
        invariant Valid() && Unused(tmp) && (fields == old(fields) || fresh(fields))
        invariant State() == S.Run(start, KeyEvents(presses[..i]), float)
      {
        ghost var before := State();
        UpdateFiles(before, presses[i], float);
        Update(presses[i], float, tmp);
        TmpStaysUnused(before, State(), tmp);
        RunsOneMore(start, presses, i, float);
      }
      assert presses[..|presses|] == presses;
    }

    /** The screen is opened and used: afterwards each row of the object's own array tells the truth
        about the file of its scope, and the discard guard is armed only by an escape just pressed. */
    method Use(cfg: Config, presses: seq<Press>, float: string -> Option<real>, tmp: string)
      requires Valid() && NewlineFree(input) && ConfigOk(cfg) && FilesOk(cfg, dir.files)
      requires forall i :: 0 <= i < |presses| ==> NewlineFree(presses[i].typed)
      requires tmp !in dir.files && tmp != cfg.globalPath && tmp != cfg.storePath
      modifies this, fields, dir
      ensures Valid() && Unused(tmp) && fresh(fields) && this.cfg == Some(cfg)
      ensures State() == S.Run(S.Reset(Some(cfg), old(dir.files), old(input)), KeyEvents(presses), float)
      ensures forall i :: 0 <= i < fields.Length ==> Faithful(fields[i], Parsed(dir.files, ScopeFile(cfg, scope)))
      ensures confirmed ==> !editing && presses != [] && IsEscape(Key(presses[|presses| - 1]))
    {
      hide S.Run, S.Reset, Faithful, ConfigOk, FilesOk, Parsed;
      ghost var files, text := dir.files, input;
      Reset(Some(cfg));
      ResetKeeps(Some(cfg), files, text);
      Play(presses, float, tmp);
      ghost var events := KeyEvents(presses);
      RunTells(cfg, files, text, presses, float);
      assert State().cfg == Some(cfg);
    }

    /** One more press after such a use: an open screen with unsaved changes is left only by the
        second of two escapes, or by ctrl+c. */
    method UseAndPress(cfg: Config, presses: seq<Press>, last: Press, float: string -> Option<real>, tmp: string)
      returns (unsaved: bool)
      requires Valid() && NewlineFree(input) && ConfigOk(cfg) && FilesOk(cfg, dir.files)
      requires forall i :: 0 <= i < |presses| ==> NewlineFree(presses[i].typed)
      requires tmp !in dir.files && tmp != cfg.globalPath && tmp != cfg.storePath
      modifies this, fields, dir
      ensures Valid()
      ensures unsaved && cancelled ==>
                IsEscape(Key(last)) && presses != [] && IsEscape(Key(presses[|presses| - 1]))
      ensures unsaved && quit ==> last.key.CtrlC?
    {
      hide S.Run, S.Reset, S.Update, Faithful, ConfigOk, FilesOk, Parsed;
      ghost var files, text := dir.files, input;
      Use(cfg, presses, float, tmp);
      var dirty := ScanDirty(fields);
      unsaved := dirty && !cancelled && !quit;
      Update(last, float, tmp);
      if unsaved {
        LeavesOnPurpose(cfg, files, text, presses, last, float);
      }
    }
  }

  lemma SavedParts(s: Screen, files: map<string, FileData>)
    ensures S.Saved(s, files) ==
            s.(files := files, fields := S.MapFields(s.fields, S.MarkedSaved), failed := false, confirmed := false)
  {
  }

  function KeyEvents(presses: seq<Press>): (events: seq<Event>)
    ensures |events| == |presses| && forall i :: 0 <= i < |presses| ==> events[i] == Key(presses[i])
  {
    seq(|presses|, i requires 0 <= i < |presses| => Key(presses[i]))
  }

  lemma RunsNothing(s: Screen, float: string -> Option<real>)
    ensures S.Run(s, KeyEvents([]), float) == s
  {
  }

  lemma RunsOneMore(s: Screen, presses: seq<Press>, i: nat, float: string -> Option<real>)
    requires i < |presses|
    ensures S.Run(s, KeyEvents(presses[..i + 1]), float) ==
            S.Update(S.Run(s, KeyEvents(presses[..i]), float), presses[i], float)
  {
    hide S.Update;
    var events := KeyEvents(presses[..i + 1]);
    assert events[..|events| - 1] == KeyEvents(presses[..i]);
  }

  lemma TmpStaysUnused(s: Screen, t: Screen, tmp: string)
    requires OwnFilesOnly(s, t) && tmp !in s.files
    requires s.cfg.Some? ==> tmp != s.cfg.value.globalPath && tmp != s.cfg.value.storePath
    ensures tmp !in t.files
  {
  }

  lemma ResetKeeps(cfg: Option<Config>, files: map<string, FileData>, input: string)
    ensures S.Reset(cfg, files, input).files == files && S.Reset(cfg, files, input).cfg == cfg
  {
  }

  lemma RunTells(cfg: Config, files: map<string, FileData>, input: string, presses: seq<Press>,
                 float: string -> Option<real>)
    requires NewlineFree(input) && ConfigOk(cfg) && FilesOk(cfg, files)
    requires forall i :: 0 <= i < |presses| ==> NewlineFree(presses[i].typed)
    ensures var s := S.Run(S.Reset(Some(cfg), files, input), KeyEvents(presses), float);
            && s.cfg == Some(cfg)
            && (forall i :: 0 <= i < |s.fields| ==> Faithful(s.fields[i], Parsed(s.files, ScopeFile(cfg, s.scope))))
            && (s.confirmed ==> !s.editing && presses != [] && IsEscape(Key(presses[|presses| - 1])))
  {
    hide S.Run, S.Reset, ConfigOk, FilesOk, Parsed;
    var events := KeyEvents(presses);
    var s := S.Run(S.Reset(Some(cfg), files, input), events, float);
    ConfirmedRun(Some(cfg), files, input, events, float);
    RunKeepsConfig(S.Reset(Some(cfg), files, input), events, float);
    ResetKeeps(Some(cfg), files, input);
    forall i | 0 <= i < |s.fields|
      ensures Faithful(s.fields[i], Parsed(s.files, ScopeFile(cfg, s.scope)))
    {
      CacheAgreesWithFile(cfg, files, input, events, float, i);
    }
  }

  lemma LeavesOnPurpose(cfg: Config, files: map<string, FileData>, input: string, presses: seq<Press>, last: Press,
                        float: string -> Option<real>)
    requires var s := S.Run(S.Reset(Some(cfg), files, input), KeyEvents(presses), float);
             !s.cancelled && !s.quit && ScreenDirty(s)
    ensures var t := S.Update(S.Run(S.Reset(Some(cfg), files, input), KeyEvents(presses), float), last, float);
            && (t.cancelled ==> IsEscape(Key(last)) && presses != [] && IsEscape(Key(presses[|presses| - 1])))
            && (t.quit ==> last.key.CtrlC?)
  {
    hide S.Run, S.Reset, S.Update, ScreenDirty;
    LeftDirtyOnlyOnPurpose(Some(cfg), files, input, KeyEvents(presses), Key(last), float);
  }
}
