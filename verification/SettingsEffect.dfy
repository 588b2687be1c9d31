/** What the settings screen's rows mean for the configuration that is loaded afterwards. */
module SettingsEffect {
  import opened Wrappers
  import opened Text
  import opened EnvLine
  import opened EnvEdit
  import opened EnvStore
  import opened S = SettingsScreen
  import L = Layers

  // ---- what is shown is what is loaded ----

  function LoadedFor(linux: bool, c: Config, files: map<string, FileData>, os: map<string, string>): L.Settings {
    L.Loaded(linux, files, c.globalPath, c.storePath, os)
  }

  /** The setting of f's key, as loaded, is what the row shows: its value where the row is set, and
      what the layer below gives where it is not; higher layers may still override it. */
  predicate TakesEffect(linux: bool, c: Config, files: map<string, FileData>, os: map<string, string>, scope: Scope,
                        f: Field) {
    var loaded := L.Get(LoadedFor(linux, c, files, os), f.key);
    var store := Parsed(files, c.storePath);
    if L.Counts(os, f.key, false) then loaded == L.Decode(f.key, L.Raw(os, f.key))
    else if scope.Global? && L.Has(store, f.key) then loaded == L.Decode(f.key, L.Raw(store, f.key))
    else if f.present then loaded == L.Decode(f.key, f.value)
    else if scope.Project?
    then loaded == L.Get(L.Resolve(L.Defaults(linux), Parsed(files, c.globalPath), map[], map[]), f.key)
    else loaded == L.Get(L.Defaults(linux), f.key)
  }

  lemma CleanFieldEffective(linux: bool, c: Config, files: map<string, FileData>, os: map<string, string>,
                            scope: Scope, f: Field)
    requires Faithful(f, Parsed(files, ScopeFile(c, scope))) && !Dirty(f)
    ensures TakesEffect(linux, c, files, os, scope, f)
  {
    hide L.Get, L.Decode, L.Resolve, Parsed, L.Name;
    var g, p := Parsed(files, c.globalPath), Parsed(files, c.storePath);
    L.HighestLayerWins(L.Defaults(linux), g, p, os, f.key);
    L.HighestLayerWins(L.Defaults(linux), g, map[], map[], f.key);
  }

  lemma SavedIsClean(s: Screen)
    requires Saves(s)
    ensures Save(s).fields == MapFields(s.fields, MarkedSaved) && Save(s).cfg == s.cfg && Save(s).scope == s.scope
    ensures !ScreenDirty(Save(s))
  {
    hide Edited, WithTemplate, EditedValues, ClearedKeys, AllQuotable;
    hide L.Name;
  }

  /** From every reachable state: once a save has gone through, loading the configuration gives
      every row's setting the value that the row showed when it was saved. */
  lemma SavedSettingsTakeEffect(cfg: Config, files: map<string, FileData>, input: string, events: seq<Event>,
                                float: string -> Option<real>, linux: bool, os: map<string, string>, i: nat)
    requires NewlineFree(input) && ConfigOk(cfg) && FilesOk(cfg, files)
    requires forall j :: 0 <= j < |events| ==> OneLine(events[j])
    requires var s := Run(Reset(Some(cfg), files, input), events, float); Saves(s) && i < |s.fields|
    ensures var s := Run(Reset(Some(cfg), files, input), events, float);
            var f := Save(s).fields[i];
            && f.key == s.fields[i].key && f.value == s.fields[i].value && f.present == s.fields[i].present
            && TakesEffect(linux, cfg, Save(s).files, os, s.scope, f)
  {
    hide Parsed, S.Step, ConfigOk, FilesOk, LoadFields, Save, TakesEffect, Run, Saves, Faithful, ScreenDirty;
    var init := Reset(Some(cfg), files, input);
    ResetInv(Some(cfg), files, input);
    RunInv(init, events, float);
    RunKeepsConfig(init, events, float);
    var s := Run(init, events, float);
    SavedRow(s, linux, os, i);
  }

  lemma SavedRow(s: Screen, linux: bool, os: map<string, string>, i: nat)
    requires Inv(s) && Saves(s) && i < |s.fields|
    ensures i < |Save(s).fields|
    ensures var f := Save(s).fields[i];
            && f == MarkedSaved(s.fields[i])
            && TakesEffect(linux, s.cfg.value, Save(s).files, os, s.scope, f)
  {
    hide Parsed, ConfigOk, FilesOk, Save, TakesEffect, ScreenDirty, Inv, Faithful, Writable, AllQuotable, EditedValues;
    SaveFieldsOk(s);
    SavedIsClean(s);
    var f := Save(s).fields[i];
    CleanFieldEffective(linux, s.cfg.value, Save(s).files, os, s.scope, f);
  }

  // ---- a row that inherits shows what it would be set to ----

  /** The text that a row shows for an inherited setting decodes to that setting. */
  lemma FallbackDecodes(s: L.Settings, k: L.Key)
    requires forall w :: w in s.allowHosts ==> IsWord(w)
    ensures L.Decode(k, Fallback(s, k)) == L.Get(s, k)
  {
    hide IsWord, Fields, JoinWords;
    FieldsJoinWords(s.allowHosts);
    assert L.ReadBool("true") && !L.ReadBool("false");
  }

  lemma LoadedWords(d: L.Settings, g: map<string, string>, p: map<string, string>, os: map<string, string>)
    requires d.allowHosts == []
    ensures forall w :: w in L.Resolve(d, g, p, os).allowHosts ==> IsWord(w)
  {
    hide IsWord, L.ReadBool, L.Name;
  }

  /** Writing an inherited row into the project store as it is shown changes no setting. */
  lemma PinningChangesNothing(linux: bool, c: Config, files: map<string, FileData>, os: map<string, string>,
                              k: L.Key, other: L.Key)
    requires c.globalPath != c.storePath
    requires var shown := Fallback(LoadedFor(linux, c, files, os), k);
             L.CleanEdit(LinesOf(files, c.storePath), map[L.Name(k) := shown])
    ensures var shown := Fallback(LoadedFor(linux, c, files, os), k);
            L.Get(LoadedFor(linux, c, AfterSet(files, c.storePath, map[L.Name(k) := shown]), os), other) ==
            L.Get(LoadedFor(linux, c, files, os), other)
  {
    hide L.Get, L.Decode, L.Resolve, Parsed, AfterSet, L.Name, Fallback, Assigned, Storable, LinesOf, HasBothQuotes,
      IsKey;
    var now := LoadedFor(linux, c, files, os);
    var values := map[L.Name(k) := Fallback(now, k)];
    L.StoreEditMovesOnlyItsKeys(linux, files, c.globalPath, c.storePath, os, values, other);
    LoadedWords(L.Defaults(linux), Parsed(files, c.globalPath), Parsed(files, c.storePath), os);
    FallbackDecodes(now, k);
    if L.Has(values, other) {
      NamesDistinct(k, other);
    }
  }

  // ---- only accepted values are pending ----

  /** A value that was changed or that waits to be written, if only to set a row at its inherited
      text, is one that the screen accepts for its key; a boolean among them is spelled out. */
  predicate Checked(f: Field, float: string -> Option<real>) {
    f.value != f.saved || (Dirty(f) && f.present) ==>
      Acceptable(f.key, f.value, float) && (L.IsBool(f.key) ==> f.value == "true" || f.value == "false")
  }

  predicate AllChecked(fields: seq<Field>, float: string -> Option<real>) {
    forall i :: 0 <= i < |fields| ==> Checked(fields[i], float)
  }

  lemma ToggledChecked(f: Field, scope: Scope, float: string -> Option<real>)
    requires Checked(f, float) && L.IsBool(f.key)
    ensures Checked(ToggleBool(f, scope), float)
  {
  }

  lemma EditsChecked(s: Screen, p: Press, float: string -> Option<real>)
    requires CursorOk(s) && AllChecked(s.fields, float)
    ensures s.editing ==> AllChecked(UpdateEditing(s, p, float).fields, float)
  {
    hide Acceptable, Trim, L.IsBool;
  }

  lemma ClearChecked(s: Screen, float: string -> Option<real>)
    requires AllChecked(s.fields, float)
    ensures AllChecked(ClearOverride(s).fields, float)
  {
    hide Acceptable, L.IsBool;
  }

  lemma ActivateChecked(s: Screen, float: string -> Option<real>)
    requires AllChecked(s.fields, float)
    ensures AllChecked(Activate(s).fields, float)
  {
    hide Checked, L.IsBool, ToggleBool, InputText;
    if s.cursor > 0 && s.cursor <= |s.fields| && L.IsBool(s.fields[s.cursor - 1].key) {
      ToggledChecked(s.fields[s.cursor - 1], s.scope, float);
    }
  }

  lemma LoadedChecked(cfg: Option<Config>, files: map<string, FileData>, scope: Scope, float: string -> Option<real>)
    ensures AllChecked(LoadFields(cfg, files, scope), float)
  {
    hide Acceptable, L.IsBool, Parsed, L.Name, L.Get;
  }

  lemma ScopeChecked(s: Screen, float: string -> Option<real>)
    requires AllChecked(s.fields, float)
    ensures AllChecked(ToggleScope(s).fields, float)
  {
    hide Checked, LoadFields, AnyDirty;
    LoadedChecked(s.cfg, s.files, if s.scope.Global? then Project else Global, float);
  }

  lemma SaveChecked(s: Screen, float: string -> Option<real>)
    requires AllChecked(s.fields, float)
    ensures AllChecked(Save(s).fields, float)
  {
    hide Edited, WithTemplate, EditedValues, ClearedKeys, AllQuotable, AnyDirty, Saved, Checked;
    forall files | true
      ensures AllChecked(Saved(s, files).fields, float)
    {
      SavedChecked(s, files, float);
    }
  }

  lemma SavedChecked(s: Screen, files: map<string, FileData>, float: string -> Option<real>)
    ensures AllChecked(Saved(s, files).fields, float)
  {
    hide Acceptable, L.IsBool;
  }

  lemma RevertChecked(fields: seq<Field>, float: string -> Option<real>)
    ensures AllChecked(MapFields(fields, Reverted), float)
  {
    hide Acceptable, L.IsBool;
  }

  lemma StepChecked(s: Screen, e: Event, float: string -> Option<real>)
    requires CursorOk(s) && AllChecked(s.fields, float)
    ensures AllChecked(S.Step(s, e, float).fields, float)
  {
    hide AllChecked, UpdateEditing, Dispatch, PackagesEdit, CursorOk, Rearm;
    match e {
      case Key(p) =>
        EditsChecked(s, p, float);
        RearmSame(s, p);
        DispatchChecked(Rearm(s, p), p.key, float);
      case PackagesSaved(scope, value) => PackagesSameFields(s, scope, value);
    }
  }

  lemma RearmSame(s: Screen, p: Press)
    ensures Rearm(s, p).fields == s.fields && Rearm(s, p).editing == s.editing
  {
  }

  lemma PackagesSameFields(s: Screen, scope: Scope, value: Option<string>)
    ensures PackagesEdit(s, scope, value).fields == s.fields
  {
    hide PackagesFiles;
  }

  lemma SameFields(s: Screen, key: Key)
    ensures Navigate(s, key).fields == s.fields && Leave(s).fields == s.fields
    ensures RevertAll(s).fields == MapFields(s.fields, Reverted)
  {
    hide MapFields, AnyDirty;
  }

  lemma DispatchChecked(s: Screen, key: Key, float: string -> Option<real>)
    requires AllChecked(s.fields, float)
    ensures AllChecked(Dispatch(s, key).fields, float)
  {
    hide AllChecked, Save, ToggleScope, ClearOverride, Activate, Navigate, Leave, RevertAll;
    SameFields(s, key);
    ClearChecked(s, float);
    ActivateChecked(s, float);
    ScopeChecked(s, float);
    SaveChecked(s, float);
    RevertChecked(s.fields, float);
  }

  /** Over every run, no value that the screen would refuse ever waits to be saved. */
  lemma {:induction false} PendingValuesAccepted(cfg: Config, files: map<string, FileData>, input: string,
                                                 events: seq<Event>,
                                                 float: string -> Option<real>)
    requires NewlineFree(input) && ConfigOk(cfg) && FilesOk(cfg, files)
    requires forall j :: 0 <= j < |events| ==> OneLine(events[j])
    ensures AllChecked(Run(Reset(Some(cfg), files, input), events, float).fields, float)
    decreases |events|
  {
    hide S.Step, ConfigOk, FilesOk, LoadFields, AllChecked;
    var start := Reset(Some(cfg), files, input);
    if events == [] {
      LoadedChecked(Some(cfg), files, Global, float);
    } else {
      var init := events[..|events| - 1];
      PendingValuesAccepted(cfg, files, input, init, float);
      ResetInv(Some(cfg), files, input);
      RunInv(start, init, float);
      StepChecked(Run(start, init, float), events[|events| - 1], float);
    }
  }
}
