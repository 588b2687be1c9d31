/** The settings screen: an editable cached view of one env file at a time. */
module SettingsScreen {
  import opened Wrappers
  import opened Text
  import opened EnvLine
  import opened EnvEdit
  import opened EnvFile
  import opened EnvStore
  import L = Layers

  // ---- fields ----

  datatype Scope = Global | Project

  /** One editable key: its value and presence as shown, and as last loaded or saved. */
  datatype Field = Field(key: L.Key, value: string, saved: string, present: bool, savedPresent: bool)

  predicate Dirty(f: Field) {
    f.value != f.saved || f.present != f.savedPresent
  }

  /** The rows of the screen, in order. */
  const ROWS: seq<L.Key> := [L.Base, L.Mem, L.Cpu, L.Skip, L.Root, L.Sudo, L.NetJail, L.Allow, L.Approve]

  function BoolValue(b: bool): string {
    if b then "true" else "false"
  }

  /** What a row shows when its file does not mention the key. */
  function Fallback(cfg: L.Settings, k: L.Key): string {
    match L.Get(cfg, k)
    case Text(s) => s
    case Flag(b) => BoolValue(b)
    case Words(ws) => JoinWords(ws)
  }

  function BuildField(raw: map<string, string>, cfg: L.Settings, k: L.Key): Field {
    var present := L.Name(k) in raw;
    var value := if present then raw[L.Name(k)] else Fallback(cfg, k);
    Field(k, value, value, present, present)
  }

  function BuildFields(raw: map<string, string>, cfg: L.Settings): (fields: seq<Field>)
    ensures |fields| == |ROWS|
    ensures forall i :: 0 <= i < |ROWS| ==> fields[i] == BuildField(raw, cfg, ROWS[i])
  {
    seq(|ROWS|, i requires 0 <= i < |ROWS| => BuildField(raw, cfg, ROWS[i]))
  }

  predicate AnyDirty(fields: seq<Field>) {
    exists i :: 0 <= i < |fields| && Dirty(fields[i])
  }

  function Reverted(f: Field): Field {
    f.(value := f.saved, present := f.savedPresent)
  }

  function MarkedSaved(f: Field): Field {
    f.(saved := f.value, savedPresent := f.present)
  }

  function MapFields(fields: seq<Field>, g: Field -> Field): (r: seq<Field>)
    ensures |r| == |fields| && forall i :: 0 <= i < |fields| ==> r[i] == g(fields[i])
  {
    seq(|fields|, i requires 0 <= i < |fields| => g(fields[i]))
  }

  /** The values that a save writes, and the keys that it unsets. */
  function EditedValues(fields: seq<Field>): map<string, string> {
    if fields == [] then map[]
    else
      var f, before := fields[|fields| - 1], EditedValues(fields[..|fields| - 1]);
      if Dirty(f) && f.present then before[L.Name(f.key) := f.value] else before
  }

  function ClearedKeys(fields: seq<Field>): seq<string> {
    if fields == [] then []
    else
      var f, before := fields[|fields| - 1], ClearedKeys(fields[..|fields| - 1]);
      if Dirty(f) && !f.present then before + [L.Name(f.key)] else before
  }

  // ---- the screen ----

  /** The configuration that the screen was opened with: where the two files are, the merged
      settings, and the text of a fresh global file. */
  datatype Config = Config(settings: L.Settings, globalPath: string, storePath: string, template: string)

  datatype Screen = Screen(
    cfg: Option<Config>,
    files: map<string, FileData>,
    scope: Scope,
    fields: seq<Field>,
    cursor: nat,              // 0 is the Packages row
    editing: bool,
    input: string,
    failed: bool,
    confirmed: bool,          // an esc with unsaved changes has been refused once
    cancelled: bool,
    openPackages: bool,
    quit: bool)

  datatype Key = Esc | Quit | CtrlC | Up | Down | Space | Enter | Revert | SaveKey | Tab | Clear | OtherKey

  /** A key press, with the text that the input field holds after it when one is being edited. */
  datatype Press = Press(key: Key, typed: string)

  function ScopeFile(cfg: Config, scope: Scope): string {
    if scope.Project? then cfg.storePath else cfg.globalPath
  }

  function ScreenDirty(s: Screen): bool {
    AnyDirty(s.fields)
  }

  function LoadFields(cfg: Option<Config>, files: map<string, FileData>, scope: Scope): seq<Field> {
    match cfg
    case None => []
    case Some(c) => BuildFields(Parsed(files, ScopeFile(c, scope)), c.settings)
  }

  lemma NothingToLoad(files: map<string, FileData>, scope: Scope)
    ensures LoadFields(None, files, scope) == []
  {
  }

  /** reset. */
  function Reset(cfg: Option<Config>, files: map<string, FileData>, input: string): Screen {
    Screen(cfg, files, Global, LoadFields(cfg, files, Global), 0, false, input, false, false, false, false, false)
  }

  function ToggleScope(s: Screen): Screen {
    if ScreenDirty(s) then s.(failed := true)
    else
      var scope := if s.scope.Global? then Project else Global;
      s.(scope := scope, cursor := 0, failed := false,
         fields := if s.cfg.Some? then LoadFields(s.cfg, s.files, scope) else s.fields)
  }

  function ClearOverride(s: Screen): Screen {
    if s.scope.Global? || s.cursor == 0 || s.cursor > |s.fields| || !s.fields[s.cursor - 1].present then s
    else s.(fields := s.fields[s.cursor - 1 := s.fields[s.cursor - 1].(present := false)], failed := false)
  }

  /** In project scope a boolean cycles through true, false and inherited. */
  function ToggleBool(f: Field, scope: Scope): Field {
    if scope.Global? then f.(value := BoolValue(f.value != "true"), present := true)
    else if !f.present then f.(value := "true", present := true)
    else if f.value == "true" then f.(value := "false")
    else f.(present := false)
  }

  /** textinput.SetValue: one line, blanks for tabs and line breaks, at most 512 characters. */
  function InputText(v: string): (r: string)
    ensures NewlineFree(r)
  {
    var n := if |v| < 512 then |v| else 512;
    seq(n, i requires 0 <= i < n => if v[i] == '\n' || v[i] == '\r' || v[i] == '\t' then ' ' else v[i])
  }

  function Activate(s: Screen): Screen {
    var s1 := s.(failed := false, confirmed := false);
    if s.cursor == 0 || s.cursor > |s.fields| then s1.(openPackages := true)
    else
      var f := s.fields[s.cursor - 1];
      if L.IsBool(f.key) then s1.(fields := s.fields[s.cursor - 1 := ToggleBool(f, s.scope)])
      else s1.(editing := true, input := InputText(f.value))
  }

  /** validateSetting; float is strconv.ParseFloat. */
  predicate Acceptable(k: L.Key, v: string, float: string -> Option<real>) {
    match k
    case Mem =>
      && v != ""
      && v[|v| - 1] in {'b', 'k', 'm', 'g'}
      && float(v[..|v| - 1]).Some?
    case Cpu => float(v).Some? && float(v).value > 0.0
    case Base => v != ""
    case _ => true
  }

  function UpdateEditing(s: Screen, p: Press, float: string -> Option<real>): Screen {
    if p.key.Esc? then s.(editing := false)
    else if p.key.Enter? then Commit(s, float)
    else s.(input := p.typed, failed := false)
  }

  /** The enter key in the editor. */
  function Commit(s: Screen, float: string -> Option<real>): Screen {
    var v := Trim(s.input);
    if s.cursor == 0 || s.cursor > |s.fields| then s
    else if !Acceptable(s.fields[s.cursor - 1].key, v, float) then s.(failed := true)
    else
      var f := s.fields[s.cursor - 1].(value := v, present := true);
      s.(fields := s.fields[s.cursor - 1 := f], editing := false)
  }

  /** WriteEnvTemplates, for the global settings file. */
  function WithTemplate(files: map<string, FileData>, c: Config): map<string, FileData> {
    if c.globalPath in files then files else files[c.globalPath := FileData(c.template, PRIVATE_MODE)]
  }

  function KeySet(keys: seq<string>): set<string> {
    set k | k in keys
  }

  /** Files after the writes of a save. */
  ghost function Edited(files: map<string, FileData>, target: string, values: map<string, string>,
                        unset: seq<string>): map<string, FileData>
    requires AllQuotable(values)
  {
    var files1 := if values == map[] then files else AfterSet(files, target, values);
    if unset == [] then files1 else AfterUnset(files1, target, KeySet(unset))
  }

  /** save, without I/O errors: the only failure left is a value that cannot be quoted. */
  ghost function Save(s: Screen): Screen {
    if s.cfg.None? then s.(failed := true)
    else if !ScreenDirty(s) then s.(failed := false)
    else
      var c := s.cfg.value;
      var target := ScopeFile(c, s.scope);
      var files := if s.scope.Global? then WithTemplate(s.files, c) else s.files;
      var values, unset := EditedValues(s.fields), ClearedKeys(s.fields);
      if !AllQuotable(values) then s.(files := files, failed := true)
      else Saved(s, Edited(files, target, values, unset))
  }

  function Saved(s: Screen, files: map<string, FileData>): Screen {
    s.(files := files, fields := MapFields(s.fields, MarkedSaved), failed := false, confirmed := false)
  }

  /** Every key but an escape takes back a refused escape. */
  function Rearm(s: Screen, p: Press): Screen {
    if p.key.Esc? || p.key.Quit? then s else s.(confirmed := false)
  }

  /** The keys that concern no field. */
  function Navigate(s: Screen, key: Key): Screen {
    if key.CtrlC? then s.(quit := true) else s.(cursor := MovedCursor(s.cursor, key, |s.fields|))
  }

  function MovedCursor(cursor: nat, key: Key, last: nat): nat {
    if key.Up? && cursor > 0 then cursor - 1
    else if key.Down? && cursor < last then cursor + 1
    else cursor
  }

  function RevertAll(s: Screen): Screen {
    s.(fields := MapFields(s.fields, Reverted), failed := false, confirmed := false)
  }

  /** Update. */
  ghost function Update(s: Screen, p: Press, float: string -> Option<real>): Screen {
    if s.editing then UpdateEditing(s, p, float) else Dispatch(Rearm(s, p), p.key)
  }

  ghost function Dispatch(s: Screen, key: Key): Screen {
    match key
    case Esc => Leave(s)
    case Quit => Leave(s)
    case Space => Activate(s)
    case Enter => Activate(s)
    case Revert => RevertAll(s)
    case SaveKey => Save(s)
    case Tab => ToggleScope(s)
    case Clear => ClearOverride(s)
    case _ => Navigate(s, key)
  }

  function Leave(s: Screen): Screen {
    if ScreenDirty(s) && !s.confirmed then s.(failed := true, confirmed := true) else s.(cancelled := true)
  }

  /** What happens while the screen lives: key presses, and saves of the packages screen that is
      reached from it, which edits another key of the same files. */
  datatype Event = Key(p: Press) | PackagesSaved(scope: Scope, value: Option<string>)

  ghost function PackagesEdit(s: Screen, scope: Scope, value: Option<string>): Screen {
    if s.cfg.None? then s else s.(files := PackagesFiles(s.files, s.cfg.value, scope, value))
  }

  ghost function PackagesFiles(files: map<string, FileData>, c: Config, scope: Scope,
                               value: Option<string>): map<string, FileData> {
    var target := ScopeFile(c, scope);
    var files1 := if scope.Global? then WithTemplate(files, c) else files;
    match value
    case Some(v) => if HasBothQuotes(v) then files1 else AfterSet(files1, target, map[L.Name(L.Packages) := v])
    case None => AfterUnset(files1, target, {L.Name(L.Packages)})
  }

  ghost function Step(s: Screen, e: Event, float: string -> Option<real>): Screen {
    match e
    case Key(p) => Update(s, p, float)
    case PackagesSaved(scope, value) => PackagesEdit(s, scope, value)
  }

  ghost function Run(s: Screen, events: seq<Event>, float: string -> Option<real>): Screen {
    if events == [] then s
    else Step(Run(s, events[..|events| - 1], float), events[|events| - 1], float)
  }

  // ---- the invariant ----

  predicate RowsOk(s: Screen) {
    if s.cfg.None? then s.fields == []
    else |s.fields| == |ROWS| && forall i :: 0 <= i < |ROWS| ==> s.fields[i].key == ROWS[i]
  }

  predicate CursorOk(s: Screen) {
    && s.cursor <= |s.fields|
    && (s.editing ==> s.cursor > 0 && !L.IsBool(s.fields[s.cursor - 1].key) && !s.confirmed)
  }

  /** The cache speaks the truth about a field. */
  predicate Faithful(f: Field, parsed: map<string, string>) {
    && (f.savedPresent <==> L.Name(f.key) in parsed)
    && (f.savedPresent ==> f.saved == parsed[L.Name(f.key)])
  }

  /** A pending edit can be written and read back. */
  predicate Writable(f: Field) {
    Dirty(f) && f.present ==> NewlineFree(f.value) && Storable(f.value)
  }

  predicate FieldsOk(fields: seq<Field>, parsed: map<string, string>) {
    forall i :: 0 <= i < |fields| ==> Faithful(fields[i], parsed) && Writable(fields[i])
  }

  /** No file assigns a key of the screen twice. */
  predicate NoDuplicates(files: map<string, FileData>, path: string) {
    forall i :: 0 <= i < |ROWS| ==> Count(LinesOf(files, path), L.Name(ROWS[i])) <= 1
  }

  predicate ConfigOk(c: Config) {
    && c.globalPath != c.storePath
    && ParseText(c.template) == map[]
  }

  /** The shipped template, in which every assignment is commented out, is such a text. */
  lemma CommentedTemplateOk(c: Config)
    requires c.globalPath != c.storePath
    requires forall l :: l in ReadLines(c.template) ==> Trim(l) == "" || HasPrefix(Trim(l), '#')
    ensures ConfigOk(c)
  {
    CommentsAssignNothing(c.template);
  }

  predicate FilesOk(c: Config, files: map<string, FileData>) {
    NoDuplicates(files, c.globalPath) && NoDuplicates(files, c.storePath)
  }

  predicate Inv(s: Screen) {
    && RowsOk(s) && CursorOk(s) && NewlineFree(s.input)
    && (s.cfg.Some? ==>
          && ConfigOk(s.cfg.value)
          && FilesOk(s.cfg.value, s.files)
          && FieldsOk(s.fields, Parsed(s.files, ScopeFile(s.cfg.value, s.scope))))
  }

  /** What the terminal input field guarantees: its text is one line. */
  predicate OneLine(e: Event) {
    match e
    case Key(p) => NewlineFree(p.typed)
    case PackagesSaved(_, value) => value.Some? ==> NewlineFree(value.value)
  }

  // ---- names ----

  function NameLength(k: L.Key): nat {
    match k
    case Mem => 14
    case Cpu => 14
    case Base => 15
    case Packages => 18
    case Skip => 21
    case Root => 16
    case Sudo => 9
    case NetJail => 17
    case Allow => 18
    case AllowFile => 23
    case Approve => 17
  }

  function NameMark(k: L.Key): char {
    match k
    case Mem => 'M'
    case Cpu => 'C'
    case Packages => 'I'
    case Approve => 'A'
    case NetJail => 'N'
    case Allow => 'N'
    case _ => ' '
  }

  lemma NameShape(k: L.Key)
    ensures |L.Name(k)| == NameLength(k)
    ensures NameMark(k) != ' ' ==> L.Name(k)[5] == NameMark(k)
  {
  }

  lemma NamesDistinct(a: L.Key, b: L.Key)
    requires L.Name(a) == L.Name(b)
    ensures a == b
  {
    hide L.Name;
    NameShape(a);
    NameShape(b);
  }

  // ---- what a save collects ----

  predicate DistinctKeys(fields: seq<Field>) {
    forall i, j :: 0 <= i < j < |fields| ==> fields[i].key != fields[j].key
  }

  /** The written values are those of the present dirty fields, each under its own name. */
  lemma {:induction false} EditedExact(fields: seq<Field>)
    requires DistinctKeys(fields)
    ensures forall i :: 0 <= i < |fields| ==>
              var f, n := fields[i], L.Name(fields[i].key);
              && (n in EditedValues(fields) <==> Dirty(f) && f.present)
              && (n in EditedValues(fields) ==> EditedValues(fields)[n] == f.value)
    ensures forall k :: k in EditedValues(fields) ==> exists i :: 0 <= i < |fields| && Edits(fields[i], k)
    decreases |fields|
  {
    hide L.Name, Dirty;
    if fields != [] {
      var m := |fields| - 1;
      var init, last := fields[..m], fields[m];
      EditedExact(init);
      forall i | 0 <= i < |fields|
        ensures var f, n := fields[i], L.Name(fields[i].key);
                && (n in EditedValues(fields) <==> Dirty(f) && f.present)
                && (n in EditedValues(fields) ==> EditedValues(fields)[n] == f.value)
      {
        if i < m {
          assert init[i] == fields[i];
          if L.Name(fields[i].key) == L.Name(last.key) {
            NamesDistinct(fields[i].key, last.key);
          }
        } else if L.Name(last.key) in EditedValues(init) {
          var j :| 0 <= j < m && Edits(init[j], L.Name(last.key));
          NamesDistinct(init[j].key, last.key);
          assert false;
        }
      }
      forall k | k in EditedValues(fields)
        ensures exists i :: 0 <= i < |fields| && Edits(fields[i], k)
      {
        if k in EditedValues(init) {
          var j :| 0 <= j < m && Edits(init[j], k);
          assert Edits(fields[j], k);
        } else {
          assert Edits(fields[m], k);
        }
      }
    }
  }

  predicate Edits(f: Field, name: string) {
    L.Name(f.key) == name && Dirty(f) && f.present
  }

  predicate Clears(f: Field, name: string) {
    L.Name(f.key) == name && Dirty(f) && !f.present
  }

  /** The unset keys are those of the absent dirty fields. */
  lemma {:induction false} ClearedExact(fields: seq<Field>, k: string)
    ensures k in ClearedKeys(fields) <==> exists i :: 0 <= i < |fields| && Clears(fields[i], k)
    decreases |fields|
  {
    hide Clears, L.Name, Dirty;
    if fields != [] {
      var m := |fields| - 1;
      ClearedExact(fields[..m], k);
      ClearsLast(fields[m], k);
      if exists i :: 0 <= i < |fields| && Clears(fields[i], k) {
        var i :| 0 <= i < |fields| && Clears(fields[i], k);
        assert i < m ==> Clears(fields[..m][i], k);
      }
      if exists i :: 0 <= i < m && Clears(fields[..m][i], k) {
        var i :| 0 <= i < m && Clears(fields[..m][i], k);
        assert Clears(fields[i], k);
      }
    }
  }

  lemma ClearsLast(f: Field, k: string)
    ensures Clears(f, k) <==> Dirty(f) && !f.present && L.Name(f.key) == k
  {
  }

  // ---- files stay in order ----

  lemma TemplateParses(files: map<string, FileData>, c: Config, p: string, k: string)
    requires ConfigOk(c)
    ensures Parsed(WithTemplate(files, c), p) == Parsed(files, p)
    ensures Assigned(LinesOf(WithTemplate(files, c), p), k) == Assigned(LinesOf(files, p), k)
  {
    hide ParseText, ReadLines, Assigned, ParseLines;
    if c.globalPath !in files && p == c.globalPath {
      ParseTextIsParseLines(c.template);
      ParseLookup(ReadLines(c.template), k);
      NothingAssigned(k);
    }
  }

  lemma TemplateFilesOk(files: map<string, FileData>, c: Config)
    requires ConfigOk(c) && FilesOk(c, files)
    ensures FilesOk(c, WithTemplate(files, c))
  {
    hide L.Name, WithTemplate, LinesOf, ConfigOk;
    forall i | 0 <= i < |ROWS|
      ensures Count(LinesOf(WithTemplate(files, c), c.globalPath), L.Name(ROWS[i])) <= 1
      ensures Count(LinesOf(WithTemplate(files, c), c.storePath), L.Name(ROWS[i])) <= 1
    {
      TemplateParses(files, c, c.globalPath, L.Name(ROWS[i]));
      TemplateParses(files, c, c.storePath, L.Name(ROWS[i]));
    }
  }

  lemma SetNoDuplicates(files: map<string, FileData>, path: string, values: map<string, string>, p: string)
    requires AllQuotable(values) && PatternKeys(values) && NewlineFreeValues(values)
    requires NoDuplicates(files, p)
    ensures NoDuplicates(AfterSet(files, path, values), p)
  {
    hide L.Name, AfterSet, LinesOf, Assigned, Reread, IsKey, HasBothQuotes;
    forall i | 0 <= i < |ROWS|
      ensures Count(LinesOf(AfterSet(files, path, values), p), L.Name(ROWS[i])) <= 1
    {
      AfterSetAssigned(files, path, values, p, L.Name(ROWS[i]));
    }
  }

  lemma UnsetNoDuplicates(files: map<string, FileData>, path: string, keys: set<string>, p: string)
    requires NoDuplicates(files, p)
    ensures NoDuplicates(AfterUnset(files, path, keys), p)
  {
    hide L.Name, AfterUnset, LinesOf, Assigned, IsKey;
    forall i | 0 <= i < |ROWS|
      ensures Count(LinesOf(AfterUnset(files, path, keys), p), L.Name(ROWS[i])) <= 1
    {
      AfterUnsetAssigned(files, path, keys, p, L.Name(ROWS[i]));
    }
  }

  // ---- saving ----

  predicate Saves(s: Screen) {
    s.cfg.Some? && ScreenDirty(s) && AllQuotable(EditedValues(s.fields))
  }

  lemma RowsDistinct(s: Screen)
    requires RowsOk(s)
    ensures DistinctKeys(s.fields)
  {
  }

  /** The pending edits of a screen in order are a clean edit of its file. */
  lemma PendingIsClean(s: Screen)
    requires Inv(s) && Saves(s)
    ensures var files := if s.scope.Global? then WithTemplate(s.files, s.cfg.value) else s.files;
            L.CleanEdit(LinesOf(files, ScopeFile(s.cfg.value, s.scope)), EditedValues(s.fields))
  {
    hide L.Name, LinesOf, WithTemplate, Storable, HasBothQuotes, IsKey, Assigned, EditedValues, Parsed, Faithful;
    var c := s.cfg.value;
    var files := if s.scope.Global? then WithTemplate(s.files, c) else s.files;
    TemplateFilesOk(s.files, c);
    RowsDistinct(s);
    EditedExact(s.fields);
    var values := EditedValues(s.fields);
    forall k | k in values
      ensures IsKey(k) && NewlineFree(values[k]) && Storable(values[k])
      ensures Count(LinesOf(files, ScopeFile(c, s.scope)), k) <= 1
    {
      var i :| 0 <= i < |s.fields| && Edits(s.fields[i], k);
      L.NamesAreKeys(s.fields[i].key);
      assert Writable(s.fields[i]);
      assert s.fields[i].key == ROWS[i];
    }
  }

  lemma EditedParses(files: map<string, FileData>, target: string, values: map<string, string>, unset: seq<string>,
                     p: string)
    requires L.CleanEdit(LinesOf(files, target), values)
    requires forall k :: k in unset ==> IsKey(k)
    ensures Parsed(Edited(files, target, values, unset), p) ==
            if p == target then Parsed(files, p) + values - KeySet(unset) else Parsed(files, p)
  {
    hide LinesOf, Storable, HasBothQuotes, IsKey, Assigned, Parsed, AfterSet, AfterUnset;
    var files1 := if values == map[] then files else AfterSet(files, target, values);
    L.CleanEditParses(files, target, values, p);
    AfterUnsetParses(files1, target, KeySet(unset), p);
    assert (set k | k in KeySet(unset) && IsKey(k)) == KeySet(unset);
  }

  lemma EditedFilesOk(c: Config, files: map<string, FileData>, target: string, values: map<string, string>,
                      unset: seq<string>)
    requires L.CleanEdit(LinesOf(files, target), values) && FilesOk(c, files)
    ensures FilesOk(c, Edited(files, target, values, unset))
  {
    hide LinesOf, Storable, HasBothQuotes, IsKey, Assigned, AfterSet, AfterUnset, NoDuplicates;
    var files1 := if values == map[] then files else AfterSet(files, target, values);
    SetNoDuplicates(files, target, values, c.globalPath);
    SetNoDuplicates(files, target, values, c.storePath);
    UnsetNoDuplicates(files1, target, KeySet(unset), c.globalPath);
    UnsetNoDuplicates(files1, target, KeySet(unset), c.storePath);
  }

  /** A successful save changes what the file parses to by exactly the dirty fields, leaves the
      other file's meaning alone, and never leaves a key assigned twice. */
  lemma SaveExact(s: Screen, p: string)
    requires Inv(s) && Saves(s)
    ensures var c := s.cfg.value;
            Parsed(Save(s).files, p) ==
            if p == ScopeFile(c, s.scope)
            then Parsed(s.files, p) + EditedValues(s.fields) - KeySet(ClearedKeys(s.fields))
            else Parsed(s.files, p)
    ensures FilesOk(s.cfg.value, Save(s).files)
  {
    hide L.Name, LinesOf, WithTemplate, EditedValues, ClearedKeys, Parsed, FieldsOk, Edited, ConfigOk,
      FilesOk, L.CleanEdit, IsKey, AllQuotable, AnyDirty, RowsOk, CursorOk, NewlineFree;
    var c := s.cfg.value;
    var target := ScopeFile(c, s.scope);
    var files := if s.scope.Global? then WithTemplate(s.files, c) else s.files;
    var values, unset := EditedValues(s.fields), ClearedKeys(s.fields);
    TemplateFilesOk(s.files, c);
    TemplateParses(s.files, c, p, "");
    PendingIsClean(s);
    ClearedAreKeys(s.fields);
    EditedParses(files, target, values, unset, p);
    EditedFilesOk(c, files, target, values, unset);
  }

  lemma ClearedAreKeys(fields: seq<Field>)
    ensures forall k :: k in ClearedKeys(fields) ==> IsKey(k)
  {
    hide L.Name, IsKey, ClearedKeys;
    forall k | k in ClearedKeys(fields)
      ensures IsKey(k)
    {
      ClearedExact(fields, k);
      var i :| 0 <= i < |fields| && Clears(fields[i], k);
      L.NamesAreKeys(fields[i].key);
    }
  }

  /** After a save the cache is the file again. */
  lemma SaveFieldsOk(s: Screen)
    requires Inv(s) && Saves(s)
    ensures FieldsOk(Save(s).fields, Parsed(Save(s).files, ScopeFile(s.cfg.value, s.scope)))
  {
    hide L.Name, EditedValues, ClearedKeys, Parsed, AfterSet, AfterUnset, WithTemplate, Storable, HasBothQuotes,
      FilesOk, ConfigOk;
    var c := s.cfg.value;
    var target := ScopeFile(c, s.scope);
    SaveExact(s, target);
    RowsDistinct(s);
    EditedExact(s.fields);
    var before, after := Parsed(s.files, target), Parsed(Save(s).files, target);
    forall i | 0 <= i < |s.fields|
      ensures Faithful(MarkedSaved(s.fields[i]), after) && Writable(MarkedSaved(s.fields[i]))
    {
      var f := s.fields[i];
      assert Faithful(f, before);
      ClearedExact(s.fields, L.Name(f.key));
      ClearedOnce(s.fields, i);
    }
  }

  lemma ClearedOnce(fields: seq<Field>, i: nat)
    requires i < |fields| && DistinctKeys(fields)
    ensures L.Name(fields[i].key) in ClearedKeys(fields) <==> Dirty(fields[i]) && !fields[i].present
  {
    hide L.Name, ClearedKeys, Dirty;
    var n := L.Name(fields[i].key);
    ClearedExact(fields, n);
    if n in ClearedKeys(fields) {
      var j :| 0 <= j < |fields| && Clears(fields[j], n);
      NamesDistinct(fields[i].key, fields[j].key);
    } else {
      assert !Clears(fields[i], n);
    }
  }

  lemma SaveKeepsInv(s: Screen)
    requires Inv(s) && !s.editing
    ensures Inv(Save(s))
  {
    hide L.Name, EditedValues, ClearedKeys, Parsed, AfterSet, AfterUnset, WithTemplate, Storable, HasBothQuotes,
      FilesOk, ConfigOk, FieldsOk, AllQuotable;
    if Saves(s) {
      SaveExact(s, "");
      SaveFieldsOk(s);
    } else if s.cfg.Some? {
      TemplateFilesOk(s.files, s.cfg.value);
      TemplateParses(s.files, s.cfg.value, ScopeFile(s.cfg.value, s.scope), "");
    }
  }

  // ---- the other keys ----

  lemma LoadOk(cfg: Config, files: map<string, FileData>, scope: Scope)
    ensures FieldsOk(LoadFields(Some(cfg), files, scope), Parsed(files, ScopeFile(cfg, scope)))
  {
    hide L.Name, Parsed, L.Get, Storable;
  }

  /** Changing one field in a way that keeps its saved part and leaves it writable. */
  lemma FieldEditOk(fields: seq<Field>, parsed: map<string, string>, i: nat, f: Field)
    requires FieldsOk(fields, parsed) && i < |fields|
    requires f.key == fields[i].key && f.saved == fields[i].saved && f.savedPresent == fields[i].savedPresent
    requires Writable(f)
    ensures FieldsOk(fields[i := f], parsed)
  {
    hide L.Name, Writable;
  }

  lemma BoolWritable()
    ensures NewlineFree("true") && NewlineFree("false") && Storable("true") && Storable("false")
  {
  }

  lemma ToggleWritable(f: Field, scope: Scope)
    requires Writable(f)
    ensures Writable(ToggleBool(f, scope))
  {
    BoolWritable();
    hide Storable;
  }

  lemma ActivateKeepsInv(s: Screen)
    requires Inv(s) && !s.editing
    ensures Inv(Activate(s))
  {
    hide L.Name, Parsed, Storable, FilesOk, ConfigOk, Writable;
    if s.cursor > 0 && L.IsBool(s.fields[s.cursor - 1].key) && s.cfg.Some? {
      var f := s.fields[s.cursor - 1];
      assert Writable(f);
      ToggleWritable(f, s.scope);
      FieldEditOk(s.fields, Parsed(s.files, ScopeFile(s.cfg.value, s.scope)), s.cursor - 1, ToggleBool(f, s.scope));
    }
  }

  lemma CommitWritable(f: Field, input: string)
    requires NewlineFree(input)
    ensures Writable(f.(value := Trim(input), present := true))
  {
    TrimKeepsContents(input, '\n');
    TrimmedStorable(Trim(input));
    hide Storable;
  }

  lemma CommittedKeepsInv(s: Screen)
    requires Inv(s) && s.editing
    ensures 0 < s.cursor <= |s.fields|
    ensures var f := s.fields[s.cursor - 1].(value := Trim(s.input), present := true);
            Inv(s.(fields := s.fields[s.cursor - 1 := f], editing := false))
  {
    hide L.Name, Parsed, Storable, FilesOk, ConfigOk, FieldsOk, L.IsBool, Writable;
    var f := s.fields[s.cursor - 1].(value := Trim(s.input), present := true);
    if s.cfg.Some? {
      CommitWritable(s.fields[s.cursor - 1], s.input);
      FieldEditOk(s.fields, Parsed(s.files, ScopeFile(s.cfg.value, s.scope)), s.cursor - 1, f);
    }
  }

  lemma FailedKeepsInv(s: Screen)
    requires Inv(s)
    ensures Inv(s.(failed := true))
  {
    hide L.Name, Parsed, FilesOk, ConfigOk, FieldsOk, L.IsBool;
  }

  lemma CommitKeepsInv(s: Screen, float: string -> Option<real>)
    requires Inv(s) && s.editing
    ensures Inv(Commit(s, float))
  {
    hide Inv, Acceptable, Trim;
    CommittedKeepsInv(s);
    FailedKeepsInv(s);
  }

  lemma EditingKeepsInv(s: Screen, p: Press, float: string -> Option<real>)
    requires Inv(s) && s.editing && NewlineFree(p.typed)
    ensures Inv(UpdateEditing(s, p, float))
  {
    hide L.Name, Parsed, FilesOk, ConfigOk, FieldsOk, L.IsBool, Commit;
    CommitKeepsInv(s, float);
  }

  lemma TrimmedStorable(v: string)
    requires Trimmed(v)
    ensures Storable(v)
  {
  }

  lemma ToggleScopeKeepsInv(s: Screen)
    requires Inv(s) && !s.editing
    ensures Inv(ToggleScope(s))
  {
    hide L.Name, Parsed, Storable, FilesOk, ConfigOk, FieldsOk, L.Get;
    if s.cfg.Some? {
      LoadOk(s.cfg.value, s.files, if s.scope.Global? then Project else Global);
    }
  }

  lemma ClearKeepsInv(s: Screen)
    requires Inv(s) && !s.editing
    ensures Inv(ClearOverride(s))
  {
    hide L.Name, Parsed, Storable, FilesOk, ConfigOk, FieldsOk;
    if s.cfg.Some? && s.cursor > 0 {
      FieldEditOk(s.fields, Parsed(s.files, ScopeFile(s.cfg.value, s.scope)), s.cursor - 1,
                  s.fields[s.cursor - 1].(present := false));
    }
  }

  lemma RevertKeepsOk(fields: seq<Field>, parsed: map<string, string>)
    requires FieldsOk(fields, parsed)
    ensures FieldsOk(MapFields(fields, Reverted), parsed)
  {
    hide L.Name, Storable;
  }

  lemma FlagsKeepInv(s: Screen, failed: bool, confirmed: bool, cancelled: bool, quit: bool)
    requires Inv(s) && !s.editing
    ensures Inv(s.(failed := failed, confirmed := confirmed, cancelled := cancelled, quit := quit))
  {
    hide L.Name, Parsed, FilesOk, ConfigOk, FieldsOk, L.IsBool;
  }

  lemma CursorKeepsInv(s: Screen, cursor: nat)
    requires Inv(s) && !s.editing
    requires cursor <= |s.fields| || cursor <= s.cursor
    ensures Inv(s.(cursor := cursor))
  {
    hide L.Name, Parsed, FilesOk, ConfigOk, FieldsOk, L.IsBool;
  }

  lemma RevertKeepsInv(s: Screen)
    requires Inv(s) && !s.editing
    ensures Inv(RevertAll(s))
  {
    hide L.Name, Parsed, FilesOk, ConfigOk, FieldsOk, L.IsBool;
    if s.cfg.Some? {
      RevertKeepsOk(s.fields, Parsed(s.files, ScopeFile(s.cfg.value, s.scope)));
    }
  }

  lemma NavigateKeepsInv(s: Screen, key: Key)
    requires Inv(s) && !s.editing
    ensures Inv(Navigate(s, key))
  {
    hide Inv;
    FlagsKeepInv(s, s.failed, s.confirmed, s.cancelled, true);
    if !key.CtrlC? {
      CursorKeepsInv(s, MovedCursor(s.cursor, key, |s.fields|));
    }
  }

  lemma UpdateKeepsInv(s: Screen, p: Press, float: string -> Option<real>)
    requires Inv(s) && NewlineFree(p.typed)
    ensures Inv(Update(s, p, float))
  {
    hide Inv, Save, Activate, ToggleScope, ClearOverride, UpdateEditing, AnyDirty, Navigate;
    if s.editing {
      EditingKeepsInv(s, p, float);
    } else {
      FlagsKeepInv(s, s.failed, false, s.cancelled, s.quit);
      var s1 := Rearm(s, p);
      FlagsKeepInv(s1, true, true, s1.cancelled, s1.quit);
      FlagsKeepInv(s1, s1.failed, s1.confirmed, true, s1.quit);
      match p.key {
        case Space => ActivateKeepsInv(s1);
        case Enter => ActivateKeepsInv(s1);
        case Revert => RevertKeepsInv(s1);
        case SaveKey => SaveKeepsInv(s1);
        case Tab => ToggleScopeKeepsInv(s1);
        case Clear => ClearKeepsInv(s1);
        case _ => NavigateKeepsInv(s1, p.key);
      }
    }
  }

  // ---- the packages screen shares the files ----

  lemma PackagesApart(i: nat)
    requires i < |ROWS|
    ensures L.Name(ROWS[i]) != L.Name(L.Packages)
  {
    hide L.Name;
    if L.Name(ROWS[i]) == L.Name(L.Packages) {
      NamesDistinct(ROWS[i], L.Packages);
    }
  }

  /** Fields that a change of the parsed file does not concern stay right. */
  lemma FieldsFrame(fields: seq<Field>, a: map<string, string>, b: map<string, string>)
    requires FieldsOk(fields, a)
    requires forall i :: 0 <= i < |fields| ==>
               var n := L.Name(fields[i].key); (n in a <==> n in b) && (n in a ==> a[n] == b[n])
    ensures FieldsOk(fields, b)
  {
    hide L.Name, Storable;
  }

  lemma PackagesParse(files: map<string, FileData>, c: Config, scope: Scope, value: Option<string>, p: string, i: nat)
    requires ConfigOk(c) && i < |ROWS|
    requires value.Some? ==> NewlineFree(value.value) && !HasBothQuotes(value.value)
    ensures var files1 := if scope.Global? then WithTemplate(files, c) else files;
            var path, name, n := ScopeFile(c, scope), L.Name(L.Packages), L.Name(ROWS[i]);
            var after := if value.Some? then AfterSet(files1, path, map[name := value.value])
                         else AfterUnset(files1, path, {name});
            && (n in Parsed(after, p) <==> n in Parsed(files, p))
            && (n in Parsed(files, p) ==> Parsed(after, p)[n] == Parsed(files, p)[n])
            && (NoDuplicates(files1, p) ==> NoDuplicates(after, p))
  {
    hide L.Name, Parsed, AfterSet, AfterUnset, LinesOf, WithTemplate, ConfigOk, IsKey, HasBothQuotes, Assigned,
      Reread, NoDuplicates;
    var files1 := if scope.Global? then WithTemplate(files, c) else files;
    var path, name := ScopeFile(c, scope), L.Name(L.Packages);
    TemplateParses(files, c, p, "");
    PackagesApart(i);
    L.NamesAreKeys(L.Packages);
    if value.Some? {
      var values := map[name := value.value];
      assert AllQuotable(values) && PatternKeys(values) && NewlineFreeValues(values);
      AfterSetParses(files1, path, values, p);
      if NoDuplicates(files1, p) {
        SetNoDuplicates(files1, path, values, p);
      }
    } else {
      AfterUnsetParses(files1, path, {name}, p);
      if NoDuplicates(files1, p) {
        UnsetNoDuplicates(files1, path, {name}, p);
      }
    }
  }

  lemma PackagesFilesOk(files: map<string, FileData>, c: Config, scope: Scope, value: Option<string>)
    requires ConfigOk(c) && FilesOk(c, files)
    requires value.Some? ==> NewlineFree(value.value) && !HasBothQuotes(value.value)
    ensures var files1 := if scope.Global? then WithTemplate(files, c) else files;
            var path, name := ScopeFile(c, scope), L.Name(L.Packages);
            FilesOk(c, if value.Some? then AfterSet(files1, path, map[name := value.value])
                       else AfterUnset(files1, path, {name}))
  {
    hide L.Name, AfterSet, AfterUnset, LinesOf, WithTemplate, ConfigOk, NoDuplicates, HasBothQuotes, Parsed;
    TemplateFilesOk(files, c);
    PackagesParse(files, c, scope, value, c.globalPath, 0);
    PackagesParse(files, c, scope, value, c.storePath, 0);
  }

  lemma PackagesFieldsOk(files: map<string, FileData>, c: Config, scope: Scope, value: Option<string>,
                         fields: seq<Field>, p: string)
    requires ConfigOk(c) && FieldsOk(fields, Parsed(files, p))
    requires |fields| == |ROWS| && forall i :: 0 <= i < |ROWS| ==> fields[i].key == ROWS[i]
    requires value.Some? ==> NewlineFree(value.value) && !HasBothQuotes(value.value)
    ensures var files1 := if scope.Global? then WithTemplate(files, c) else files;
            var path, name := ScopeFile(c, scope), L.Name(L.Packages);
            FieldsOk(fields, Parsed(if value.Some? then AfterSet(files1, path, map[name := value.value])
                                    else AfterUnset(files1, path, {name}), p))
  {
    hide L.Name, AfterSet, AfterUnset, LinesOf, WithTemplate, ConfigOk, NoDuplicates, HasBothQuotes, Parsed, FieldsOk;
    var files1 := if scope.Global? then WithTemplate(files, c) else files;
    var path, name := ScopeFile(c, scope), L.Name(L.Packages);
    var after := if value.Some? then AfterSet(files1, path, map[name := value.value])
                 else AfterUnset(files1, path, {name});
    forall i | 0 <= i < |fields|
      ensures var n := L.Name(fields[i].key);
              (n in Parsed(files, p) <==> n in Parsed(after, p)) &&
              (n in Parsed(files, p) ==> Parsed(files, p)[n] == Parsed(after, p)[n])
    {
      PackagesParse(files, c, scope, value, p, i);
    }
    FieldsFrame(fields, Parsed(files, p), Parsed(after, p));
  }

  lemma PackagesFilesKeep(files: map<string, FileData>, c: Config, scope: Scope, value: Option<string>,
                          fields: seq<Field>, p: string)
    requires ConfigOk(c) && FilesOk(c, files) && (value.Some? ==> NewlineFree(value.value))
    requires FieldsOk(fields, Parsed(files, p))
    requires |fields| == |ROWS| && forall i :: 0 <= i < |ROWS| ==> fields[i].key == ROWS[i]
    ensures FilesOk(c, PackagesFiles(files, c, scope, value))
    ensures FieldsOk(fields, Parsed(PackagesFiles(files, c, scope, value), p))
  {
    hide L.Name, Parsed, AfterSet, AfterUnset, WithTemplate, ConfigOk, FilesOk, HasBothQuotes, FieldsOk;
    if value.None? || !HasBothQuotes(value.value) {
      PackagesFilesOk(files, c, scope, value);
      PackagesFieldsOk(files, c, scope, value, fields, p);
    } else {
      TemplateFilesOk(files, c);
      TemplateParses(files, c, p, "");
    }
  }

  lemma FilesKeepInv(s: Screen, files: map<string, FileData>)
    requires Inv(s)
    requires s.cfg.Some? ==>
               FilesOk(s.cfg.value, files) && FieldsOk(s.fields, Parsed(files, ScopeFile(s.cfg.value, s.scope)))
    ensures Inv(s.(files := files))
  {
    hide Parsed, ConfigOk, FilesOk, FieldsOk, L.IsBool;
  }

  lemma PackagesKeepInv(s: Screen, scope: Scope, value: Option<string>)
    requires Inv(s) && (value.Some? ==> NewlineFree(value.value))
    ensures Inv(PackagesEdit(s, scope, value))
  {
    hide L.Name, Parsed, PackagesFiles, ConfigOk, FilesOk, FieldsOk, CursorOk;
    if s.cfg.Some? {
      PackagesFilesKeep(s.files, s.cfg.value, scope, value, s.fields, ScopeFile(s.cfg.value, s.scope));
      FilesKeepInv(s, PackagesFiles(s.files, s.cfg.value, scope, value));
    }
  }

  // ---- every run ----

  lemma ResetInv(cfg: Option<Config>, files: map<string, FileData>, input: string)
    requires NewlineFree(input)
    requires cfg.Some? ==> ConfigOk(cfg.value) && FilesOk(cfg.value, files)
    ensures Inv(Reset(cfg, files, input))
  {
    hide L.Name, Parsed, ConfigOk, FilesOk, FieldsOk, L.Get;
    if cfg.Some? {
      LoadOk(cfg.value, files, Global);
    }
  }

  lemma {:induction false} RunInv(s: Screen, events: seq<Event>, float: string -> Option<real>)
    requires Inv(s) && forall i :: 0 <= i < |events| ==> OneLine(events[i])
    ensures Inv(Run(s, events, float))
    decreases |events|
  {
    hide Inv, Update, PackagesEdit;
    if events != [] {
      var m := |events| - 1;
      RunInv(s, events[..m], float);
      match events[m] {
        case Key(p) =>
          assert OneLine(events[m]);
          UpdateKeepsInv(Run(s, events[..m], float), p, float);
        case PackagesSaved(scope, value) =>
          assert OneLine(events[m]);
          PackagesKeepInv(Run(s, events[..m], float), scope, value);
      }
    }
  }

  /** In every reachable state, whatever keys, scope switches, reverts and saves led to it, a field
      is cached as present exactly when the active file parses with its key, and then with its
      parsed value. */
  lemma CacheAgreesWithFile(cfg: Config, files: map<string, FileData>, input: string, events: seq<Event>,
                            float: string -> Option<real>, i: nat)
    requires NewlineFree(input) && ConfigOk(cfg) && FilesOk(cfg, files)
    requires forall j :: 0 <= j < |events| ==> OneLine(events[j])
    requires i < |Run(Reset(Some(cfg), files, input), events, float).fields|
    ensures var s := Run(Reset(Some(cfg), files, input), events, float);
            && s.cfg == Some(cfg)
            && var f, parsed := s.fields[i], Parsed(s.files, ScopeFile(cfg, s.scope));
            && (f.savedPresent <==> L.Name(f.key) in parsed)
            && (f.savedPresent ==> f.saved == parsed[L.Name(f.key)])
  {
    hide L.Name, Parsed, Step, ConfigOk, FilesOk, LoadFields;
    ResetInv(Some(cfg), files, input);
    RunInv(Reset(Some(cfg), files, input), events, float);
    RunKeepsConfig(Reset(Some(cfg), files, input), events, float);
    var s := Run(Reset(Some(cfg), files, input), events, float);
    assert Faithful(s.fields[i], Parsed(s.files, ScopeFile(cfg, s.scope)));
  }

  lemma StepKeepsConfig(s: Screen, e: Event, float: string -> Option<real>)
    ensures Step(s, e, float).cfg == s.cfg
  {
    hide UpdateEditing, Dispatch, PackagesEdit;
    match e {
      case PackagesSaved(scope, value) => PackagesQuiet(s, scope, value);
      case Key(p) =>
        if s.editing {
          EditingQuiet(s, p, float);
        } else if p.key.Esc? || p.key.Quit? {
          EscapeLeaves(s, p.key);
        } else {
          DispatchQuiet(Rearm(s, p), p.key);
        }
    }
  }

  lemma {:induction false} RunKeepsConfig(s: Screen, events: seq<Event>, float: string -> Option<real>)
    ensures Run(s, events, float).cfg == s.cfg
    decreases |events|
  {
    hide Step;
    if events != [] {
      RunKeepsConfig(s, events[..|events| - 1], float);
      StepKeepsConfig(Run(s, events[..|events| - 1], float), events[|events| - 1], float);
    }
  }

  // ---- leaving ----

  predicate IsEscape(e: Event) {
    e.Key? && (e.p.key.Esc? || e.p.key.Quit?)
  }

  /** None of the actions arms the discard guard, leaves the screen or quits. */
  predicate Quiet(s: Screen, t: Screen) {
    && (t.editing ==> s.editing) && (t.confirmed ==> s.confirmed)
    && t.cancelled == s.cancelled && t.quit == s.quit && t.cfg == s.cfg
  }

  lemma SaveQuiet(s: Screen)
    ensures Quiet(s, Save(s))
  {
    hide Edited, WithTemplate, EditedValues, ClearedKeys, AllQuotable, AnyDirty;
  }

  lemma ScopeQuiet(s: Screen)
    ensures Quiet(s, ToggleScope(s)) && Quiet(s, ClearOverride(s))
  {
    hide LoadFields, AnyDirty;
  }

  lemma ActivateQuiet(s: Screen)
    ensures var t := Activate(s); !t.confirmed && t.cancelled == s.cancelled && t.quit == s.quit && t.cfg == s.cfg
  {
    hide ToggleBool, L.IsBool, InputText;
  }

  lemma EditingQuiet(s: Screen, p: Press, float: string -> Option<real>)
    ensures Quiet(s, UpdateEditing(s, p, float))
  {
    hide Commit;
    CommitKeeps(s, float);
  }

  /** Committing concerns one field and the marks of the editor. */
  lemma CommitKeeps(s: Screen, float: string -> Option<real>)
    ensures var t := Commit(s, float);
            && (t.editing ==> s.editing) && t.confirmed == s.confirmed && t.cancelled == s.cancelled && t.quit == s.quit
            && t.cfg == s.cfg && t.files == s.files
  {
    hide Acceptable, Trim;
  }

  /** Any other key than an escape neither arms the guard nor leaves. */
  lemma DispatchQuiet(s: Screen, key: Key)
    requires !key.Esc? && !key.Quit?
    ensures var t := Dispatch(s, key);
            && (t.confirmed ==> s.confirmed) && t.cancelled == s.cancelled && t.cfg == s.cfg
            && t.quit == (s.quit || key.CtrlC?)
  {
    hide Save, ToggleScope, ClearOverride, Activate, RevertAll, Navigate;
    SaveQuiet(s);
    ScopeQuiet(s);
    ActivateQuiet(s);
    NavigateQuiet(s, key);
  }

  lemma NavigateQuiet(s: Screen, key: Key)
    ensures var t := Navigate(s, key);
            t.confirmed == s.confirmed && t.cancelled == s.cancelled && t.cfg == s.cfg &&
                t.quit == (s.quit || key.CtrlC?)
    ensures Quiet(s, RevertAll(s))
  {
    hide MapFields;
  }

  /** What a key press does to the guard and to the marks of leaving. */
  lemma PressLeaves(s: Screen, p: Press, float: string -> Option<real>)
    requires s.editing ==> !s.confirmed
    ensures var t := Update(s, p, float);
            && t.cfg == s.cfg
            && (t.editing ==> !t.confirmed)
            && (t.confirmed ==> IsEscape(Key(p)))
            && (t.cancelled && !s.cancelled ==> IsEscape(Key(p)) && !s.editing && (ScreenDirty(s) ==> s.confirmed))
            && (t.quit && !s.quit ==> p.key.CtrlC? && !s.editing)
  {
    hide UpdateEditing, Dispatch, AnyDirty;
    if s.editing {
      EditingQuiet(s, p, float);
    } else if p.key.Esc? || p.key.Quit? {
      EscapeLeaves(s, p.key);
    } else {
      DispatchQuiet(Rearm(s, p), p.key);
    }
  }

  lemma EscapeLeaves(s: Screen, key: Key)
    requires !s.editing && (key.Esc? || key.Quit?)
    ensures var t := Dispatch(s, key);
            && t.cfg == s.cfg && !t.editing && t.quit == s.quit
            && (t.cancelled && !s.cancelled ==> ScreenDirty(s) ==> s.confirmed)
  {
    hide AnyDirty;
  }

  lemma PackagesQuiet(s: Screen, scope: Scope, value: Option<string>)
    ensures var t := PackagesEdit(s, scope, value);
            && t.cfg == s.cfg && t.editing == s.editing && t.confirmed == s.confirmed
            && t.cancelled == s.cancelled && t.quit == s.quit
  {
    hide PackagesFiles;
  }

  /** The discard guard is armed only right after a refused escape, outside the editor. */
  lemma ConfirmedStep(s: Screen, e: Event, float: string -> Option<real>)
    requires s.editing ==> !s.confirmed
    ensures var s' := Step(s, e, float);
            && (s'.editing ==> !s'.confirmed)
            && (s'.confirmed && e.Key? ==> IsEscape(e))
            && (e.PackagesSaved? ==> s'.confirmed == s.confirmed && s'.editing == s.editing)
  {
    hide Update, PackagesEdit;
    match e {
      case Key(p) => PressLeaves(s, p, float);
      case PackagesSaved(scope, value) => PackagesQuiet(s, scope, value);
    }
  }

  predicate KeysOnly(events: seq<Event>) {
    forall i :: 0 <= i < |events| ==> events[i].Key?
  }

  lemma {:induction false} ConfirmedRun(cfg: Option<Config>, files: map<string, FileData>, input: string,
                                        events: seq<Event>,
                                        float: string -> Option<real>)
    requires KeysOnly(events)
    ensures var s := Run(Reset(cfg, files, input), events, float);
            && (s.editing ==> !s.confirmed)
            && (s.confirmed ==> events != [] && IsEscape(events[|events| - 1]))
    decreases |events|
  {
    hide Step, LoadFields;
    if events != [] {
      var init := events[..|events| - 1];
      ConfirmedRun(cfg, files, input, init, float);
      ConfirmedStep(Run(Reset(cfg, files, input), init, float), events[|events| - 1], float);
    }
  }

  lemma LeaveNeedsEscape(s: Screen, e: Event, float: string -> Option<real>)
    requires !s.cancelled && !s.quit && (s.editing ==> !s.confirmed)
    ensures var s' := Step(s, e, float);
            && (s'.cancelled ==> IsEscape(e) && !s.editing && (ScreenDirty(s) ==> s.confirmed))
            && (s'.quit ==> e.Key? && e.p.key.CtrlC? && !s.editing)
  {
    hide Update, PackagesEdit, AnyDirty;
    match e {
      case Key(p) => PressLeaves(s, p, float);
      case PackagesSaved(scope, value) => PackagesQuiet(s, scope, value);
    }
  }

  /** The screen is never left with unsaved changes except by two consecutive presses of esc or q,
      or by ctrl+c. */
  lemma LeftDirtyOnlyOnPurpose(cfg: Option<Config>, files: map<string, FileData>, input: string, events: seq<Event>,
                               last: Event, float: string -> Option<real>)
    requires KeysOnly(events)
    requires var s := Run(Reset(cfg, files, input), events, float); !s.cancelled && !s.quit && ScreenDirty(s)
    ensures var s := Step(Run(Reset(cfg, files, input), events, float), last, float);
            && (s.cancelled ==> IsEscape(last) && events != [] && IsEscape(events[|events| - 1]))
            && (s.quit ==> last.Key? && last.p.key.CtrlC?)
  {
    hide Step, LoadFields, AnyDirty, Run;
    ConfirmedRun(cfg, files, input, events, float);
    LeaveNeedsEscape(Run(Reset(cfg, files, input), events, float), last, float);
  }

  // ---- the files that the screen touches ----

  /** Every file after the step was there before, or is one of the two settings files. */
  predicate OwnFilesOnly(s: Screen, t: Screen) {
    forall path :: path in t.files ==>
      path in s.files || (s.cfg.Some? && (path == s.cfg.value.globalPath || path == s.cfg.value.storePath))
  }

  lemma SaveFiles(s: Screen)
    ensures OwnFilesOnly(s, Save(s))
  {
    hide EditedValues, ClearedKeys, AllQuotable, AnyDirty, Edited, Saved;
    if s.cfg.Some? && ScreenDirty(s) && AllQuotable(EditedValues(s.fields)) {
      var files := if s.scope.Global? then WithTemplate(s.files, s.cfg.value) else s.files;
      var target := ScopeFile(s.cfg.value, s.scope);
      EditedFiles(files, target, EditedValues(s.fields), ClearedKeys(s.fields));
      SavedFiles(s, Edited(files, target, EditedValues(s.fields), ClearedKeys(s.fields)));
    }
  }

  lemma EditedFiles(files: map<string, FileData>, target: string, values: map<string, string>, unset: seq<string>)
    requires AllQuotable(values)
    ensures forall path :: path in Edited(files, target, values, unset) ==> path in files || path == target
  {
    hide AllQuotable;
  }

  lemma SavedFiles(s: Screen, files: map<string, FileData>)
    ensures Saved(s, files).files == files
  {
  }

  lemma ScopeFiles(s: Screen)
    ensures ToggleScope(s).files == s.files && ClearOverride(s).files == s.files && Leave(s).files == s.files
  {
    hide AnyDirty, LoadFields;
  }

  lemma ActivateFiles(s: Screen)
    ensures Activate(s).files == s.files
  {
    hide ToggleBool, L.IsBool, InputText;
  }

  lemma EditingFiles(s: Screen, p: Press, float: string -> Option<real>)
    ensures UpdateEditing(s, p, float).files == s.files
  {
    hide Commit;
    CommitKeeps(s, float);
  }

  lemma UpdateFiles(s: Screen, p: Press, float: string -> Option<real>)
    ensures OwnFilesOnly(s, Update(s, p, float)) && Update(s, p, float).cfg == s.cfg
  {
    StepKeepsConfig(s, Key(p), float);
    hide Save, ToggleScope, ClearOverride, UpdateEditing, Activate, Leave;
    var s1 := Rearm(s, p);
    EditingFiles(s, p, float);
    ScopeFiles(s1);
    ActivateFiles(s1);
    SaveFiles(s1);
  }

  // ---- booleans ----

  /** What a toggle does, for every text that a file may hold. In global scope the setting changes
      exactly when the row shows "true" or reads as false: a row that shows another spelling of
      true keeps its meaning. In project scope a set row goes to false exactly from "true" and is
      otherwise unset at once. */
  lemma ToggleChangesIff(f: Field)
    ensures var g := ToggleBool(f, Global);
            && g.present && (g.value == "true" || g.value == "false")
            && (L.ReadBool(g.value) != L.ReadBool(f.value) <==> f.value == "true" || !L.ReadBool(f.value))
    ensures var p := ToggleBool(f, Project);
            && (p.present && !L.ReadBool(p.value) <==> f.present && f.value == "true")
            && (p.present && L.ReadBool(p.value) <==> !f.present)
            && (!p.present ==> p == f.(present := false))
  {
    TrueAndFalse();
    hide L.ReadBool;
  }

  lemma TrueAndFalse()
    ensures L.ReadBool("true") && !L.ReadBool("false")
  {
  }

  /** Two toggles in global scope, and three in project scope, come back to the start: in global
      scope to the same text exactly for "true" and "false", in project scope to the same presence
      always, and for a set row to the same meaning unless it shows another spelling of true. */
  lemma ToggleCycles(f: Field)
    ensures var g := ToggleBool(ToggleBool(f, Global), Global);
            g == f.(present := true) <==> f.value == "true" || f.value == "false"
    ensures var p := ToggleBool(ToggleBool(ToggleBool(f, Project), Project), Project);
            && p.present == f.present
            && (f.present ==> (p == f <==> f.value == "true" || f.value == "false"))
            && (f.present ==>
                  (L.ReadBool(p.value) == L.ReadBool(f.value) <==> f.value == "true" || !L.ReadBool(f.value)))
  {
    TrueAndFalse();
    hide L.ReadBool;
  }

  /** The failing family by example: a file may spell true as "1". */
  lemma OneIsNotToggled(k: L.Key)
    ensures var f := Field(k, "1", "1", true, true);
            && L.ReadBool(f.value)
            && ToggleBool(f, Global).value == "true"
            && !ToggleBool(f, Project).present
  {
  }
}
