/** The packages screen: the list of apt packages, edited in one scope at a time. */
module PackagesScreen {
  import opened Wrappers
  import opened Text
  import opened EnvLine
  import opened EnvEdit
  import opened EnvFile
  import opened EnvStore
  import L = Layers
  import opened S = SettingsScreen

  // ---- package lists ----

  predicate NoDup(list: seq<string>) {
    forall i, j :: 0 <= i < j < |list| ==> list[i] != list[j]
  }

  /** Append the words that the list does not hold yet. */
  function AddAll(list: seq<string>, words: seq<string>): seq<string> {
    if words == [] then list
    else
      var before, last := AddAll(list, words[..|words| - 1]), words[|words| - 1];
      if last in before then before else before + [last]
  }

  /** splitPackages. */
  function SplitPackages(s: string): seq<string> {
    AddAll([], Fields(s))
  }

  /** A list that the screen can hold. */
  predicate ListOk(list: seq<string>) {
    NoDup(list) && forall w :: w in list ==> IsWord(w)
  }

  /** Position of the first x in words, or |words| when there is none. */
  function FirstAt(words: seq<string>, x: string): (i: nat)
    ensures i <= |words|
    ensures i < |words| ==> words[i] == x
    ensures forall j :: 0 <= j < i ==> words[j] != x
  {
    if words == [] || words[0] == x then 0 else 1 + FirstAt(words[1..], x)
  }

  /** Adding keeps the old list in front, holds each word once, and adds the new ones in the order
      in which they first appear. */
  lemma {:induction false} AddAllExact(list: seq<string>, words: seq<string>)
    requires NoDup(list)
    ensures var r := AddAll(list, words);
            && NoDup(r)
            && list <= r
            && (forall w :: w in r <==> w in list || w in words)
            && (forall i, j :: |list| <= i < j < |r| ==> FirstAt(words, r[i]) < FirstAt(words, r[j]))
    decreases |words|
  {
    hide FirstAt;
    if words != [] {
      var n := |words| - 1;
      var init, last := words[..n], words[n];
      AddAllExact(list, init);
      var before, r := AddAll(list, init), AddAll(list, words);
      assert words == init + [last];
      forall i, j | |list| <= i < j < |r|
        ensures FirstAt(words, r[i]) < FirstAt(words, r[j])
      {
        NewAreWords(list, init, i);
        FirstAtGrows(init, last, r[i]);
        if j < |before| {
          NewAreWords(list, init, j);
          FirstAtGrows(init, last, r[j]);
        } else {
          FirstAtGrows(init, last, last);
        }
      }
    }
  }

  lemma {:induction false} NewAreWords(list: seq<string>, words: seq<string>, i: nat)
    requires |list| <= i < |AddAll(list, words)|
    ensures AddAll(list, words)[i] in words
    decreases |words|
  {
    if words != [] {
      var init := words[..|words| - 1];
      if i < |AddAll(list, init)| {
        NewAreWords(list, init, i);
      }
    }
  }

  lemma FirstAtGrows(words: seq<string>, last: string, x: string)
    ensures x in words ==> FirstAt(words + [last], x) == FirstAt(words, x) < |words|
    ensures x !in words && x == last ==> FirstAt(words + [last], x) == |words|
  {
    var all := words + [last];
    var i, k := FirstAt(all, x), FirstAt(words, x);
    if x in words {
      assert k < |words|;
      assert all[k] == x;
      assert i < |words| ==> words[i] == x;
    } else if x == last {
      assert all[|words|] == x;
      assert forall j :: 0 <= j < |words| ==> all[j] == words[j] && words[j] != x;
    }
  }

  /** A list without repetitions is what splitting its words gives back. */
  lemma {:induction false} AddAllDistinct(words: seq<string>)
    requires NoDup(words)
    ensures AddAll([], words) == words
    decreases |words|
  {
    if words != [] {
      var n := |words| - 1;
      AddAllDistinct(words[..n]);
      assert words == words[..n] + [words[n]];
    }
  }

  /** The editor may drop repetitions in the typed text before it adds: the list comes out the same. */
  lemma {:induction false} AddDeduplicated(list: seq<string>, words: seq<string>)
    requires NoDup(list)
    ensures AddAll(list, AddAll([], words)) == AddAll(list, words)
    decreases |words|
  {
    if words != [] {
      var n := |words| - 1;
      var init, last := words[..n], words[n];
      var d := AddAll([], init);
      AddDeduplicated(list, init);
      AddAllExact([], init);
      AddAllExact(list, init);
      assert (d + [last])[..|d|] == d;
    }
  }

  /** Joining a list and splitting it again changes nothing. */
  lemma SplitJoined(list: seq<string>)
    requires ListOk(list)
    ensures SplitPackages(JoinWords(list)) == list
  {
    hide Fields, JoinWords, IsWord;
    FieldsJoinWords(list);
    AddAllDistinct(list);
  }

  lemma SplitOk(s: string)
    ensures ListOk(SplitPackages(s))
  {
    hide IsWord;
    AddAllExact([], Fields(s));
  }

  // ---- the screen ----

  datatype PackageList = PackageList(
    cfg: Option<Config>,
    files: map<string, FileData>,
    scope: Scope,
    original: seq<string>,
    pkgs: seq<string>,
    present: bool,
    originalPresent: bool,
    cursor: nat,
    adding: bool,
    input: string,
    failed: bool,
    confirmed: bool,          // an esc with unsaved changes has been refused once
    cancelled: bool,
    quit: bool)

  datatype PackageKey = Esc | Quit | CtrlC | Up | Down | Home | End | Add | Delete | Revert | SaveKey | Tab
      | Clear | Enter | OtherKey

  /** A key press, with the text that the input field holds after it when one is being added. */
  datatype PackagePress = PackagePress(key: PackageKey, typed: string)

  function PackagesName(): string {
    L.Name(L.Packages)
  }

  predicate ListDirty(s: PackageList) {
    s.present != s.originalPresent || s.pkgs != s.original
  }

  function FileList(c: Config, files: map<string, FileData>, scope: Scope): seq<string> {
    var raw := Parsed(files, ScopeFile(c, scope));
    SplitPackages(if PackagesName() in raw then raw[PackagesName()] else c.settings.initPackages)
  }

  /** loadScope. */
  function Load(s: PackageList): PackageList {
    match s.cfg
    case None => s.(original := [], pkgs := [], present := false, originalPresent := false)
    case Some(c) =>
      var list := FileList(c, s.files, s.scope);
      var present := PackagesName() in Parsed(s.files, ScopeFile(c, s.scope));
      s.(original := list, pkgs := list, present := present, originalPresent := present)
  }

  /** reset. */
  function ResetList(cfg: Option<Config>, files: map<string, FileData>): PackageList {
    Load(PackageList(cfg, files, Global, [], [], false, false, 0, false, "", false, false, false, false))
  }

  function LastIndex(list: seq<string>): nat {
    if list == [] then 0 else |list| - 1
  }

  function DeleteAt(s: PackageList): PackageList {
    if s.cursor >= |s.pkgs| then s
    else
      var pkgs := s.pkgs[..s.cursor] + s.pkgs[s.cursor + 1..];
      s.(pkgs := pkgs, cursor := if s.cursor < |pkgs| then s.cursor else LastIndex(pkgs), present := true,
          failed := false)
  }

  function RevertList(s: PackageList): PackageList {
    s.(pkgs := s.original, present := s.originalPresent, cursor := 0, failed := false)
  }

  function ToggleListScope(s: PackageList): PackageList {
    if ListDirty(s) then s.(failed := true)
    else Load(s.(scope := OtherScope(s.scope))).(cursor := 0, failed := false)
  }

  function OtherScope(scope: Scope): Scope {
    if scope.Global? then Project else Global
  }

  function ClearList(s: PackageList): PackageList {
    if s.scope.Global? || !s.present then s else s.(present := false, failed := false)
  }

  /** The enter key while adding. */
  function AddTyped(s: PackageList): PackageList {
    var pkgs := AddAll(s.pkgs, SplitPackages(s.input));
    var s1 := s.(pkgs := pkgs, adding := false, input := "", failed := false);
    if |pkgs| > |s.pkgs| then s1.(cursor := LastIndex(pkgs), present := true) else s1
  }

  function UpdateAdding(s: PackageList, p: PackagePress): PackageList {
    if p.key.Esc? then s.(adding := false)
    else if p.key.Enter? then AddTyped(s)
    else s.(input := p.typed)
  }

  function TemplateFirst(s: PackageList, c: Config): map<string, FileData> {
    if s.scope.Global? then WithTemplate(s.files, c) else s.files
  }

  predicate Unquotable(s: PackageList) {
    s.present && HasBothQuotes(JoinWords(s.pkgs))
  }

  /** save, without I/O errors. */
  ghost function SaveList(s: PackageList): PackageList {
    if s.cfg.None? then s.(failed := true)
    else if !ListDirty(s) then s.(failed := false)
    else
      var c := s.cfg.value;
      var target := ScopeFile(c, s.scope);
      if Unquotable(s) then s.(files := TemplateFirst(s, c), failed := true)
      else
        s.(files := ListWritten(TemplateFirst(s, c), target, s.pkgs, s.present),
           original := s.pkgs, originalPresent := s.present, failed := false)
  }

  ghost function ListWritten(files: map<string, FileData>, target: string, pkgs: seq<string>,
                             present: bool): map<string, FileData>
    requires present ==> !HasBothQuotes(JoinWords(pkgs))
  {
    if present then AfterSet(files, target, map[PackagesName() := JoinWords(pkgs)])
    else AfterUnset(files, target, {PackagesName()})
  }

  function LeaveList(s: PackageList): PackageList {
    if ListDirty(s) && !s.confirmed then s.(failed := true, confirmed := true) else s.(cancelled := true)
  }

  predicate Leaves(p: PackagePress) {
    p.key.Esc? || p.key.Quit?
  }

  /** The keys that leave the list alone. */
  function Move(s: PackageList, key: PackageKey): PackageList {
    if key.Add? then s.(adding := true, failed := false, input := "")
    else if key.CtrlC? then s.(quit := true)
    else s.(cursor := MovedTo(s.cursor, key, s.pkgs))
  }

  function MovedTo(cursor: nat, key: PackageKey, list: seq<string>): nat {
    if key.Up? && cursor > 0 then cursor - 1
    else if key.Down? && cursor + 1 < |list| then cursor + 1
    else if key.Home? then 0
    else if key.End? then LastIndex(list)
    else cursor
  }

  /** Every key but an escape takes back a refused escape. */
  function Rearmed(s: PackageList, p: PackagePress): PackageList {
    if Leaves(p) then s else s.(confirmed := false)
  }

  /** Update. */
  ghost function UpdateList(s: PackageList, p: PackagePress): PackageList {
    if s.adding then UpdateAdding(s, p) else Act(Rearmed(s, p), p.key)
  }

  ghost function Act(s: PackageList, key: PackageKey): PackageList {
    match key
    case Esc => LeaveList(s)
    case Quit => LeaveList(s)
    case Delete => DeleteAt(s)
    case Revert => RevertList(s)
    case SaveKey => SaveList(s)
    case Tab => ToggleListScope(s)
    case Clear => ClearList(s)
    case _ => Move(s, key)
  }

  ghost function RunList(s: PackageList, keys: seq<PackagePress>): PackageList {
    if keys == [] then s else UpdateList(RunList(s, keys[..|keys| - 1]), keys[|keys| - 1])
  }

  // ---- the list stays a list of distinct words ----

  predicate ListsOk(s: PackageList) {
    ListOk(s.pkgs) && ListOk(s.original) && (s.cursor < |s.pkgs| || s.cursor == 0)
  }

  lemma AddKeepsOk(list: seq<string>, typed: string)
    requires ListOk(list)
    ensures ListOk(AddAll(list, SplitPackages(typed)))
    ensures |AddAll(list, SplitPackages(typed))| >= |list|
  {
    hide IsWord;
    SplitOk(typed);
    AddAllExact(list, SplitPackages(typed));
  }

  lemma LoadKeepsOk(s: PackageList)
    ensures ListsOk(Load(s).(cursor := 0))
  {
    hide ListOk, SplitPackages, L.Name, Parsed;
    EmptyListOk();
    if s.cfg.Some? {
      var raw := Parsed(s.files, ScopeFile(s.cfg.value, s.scope));
      SplitOk(if PackagesName() in raw then raw[PackagesName()] else s.cfg.value.settings.initPackages);
    }
  }

  lemma EmptyListOk()
    ensures ListOk([])
  {
  }

  lemma DeleteKeepsOk(s: PackageList)
    requires ListsOk(s)
    ensures ListsOk(DeleteAt(s))
  {
    hide IsWord;
  }

  lemma SaveListsOk(s: PackageList)
    requires ListsOk(s)
    ensures ListsOk(SaveList(s))
  {
    hide ListOk, ListWritten, WithTemplate, JoinWords, HasBothQuotes;
  }

  lemma AddTypedOk(s: PackageList)
    requires ListsOk(s)
    ensures ListsOk(AddTyped(s))
  {
    hide ListOk, SplitPackages, AddAll;
    AddKeepsOk(s.pkgs, s.input);
  }

  lemma AddingListsOk(s: PackageList, p: PackagePress)
    requires ListsOk(s)
    ensures ListsOk(UpdateAdding(s, p))
  {
    hide ListOk, AddTyped;
    AddTypedOk(s);
  }

  lemma OthersListsOk(s: PackageList)
    requires ListsOk(s)
    ensures ListsOk(ToggleListScope(s)) && ListsOk(ClearList(s)) && ListsOk(RevertList(s)) && ListsOk(LeaveList(s))
  {
    hide ListOk, Load;
    if !ListDirty(s) {
      LoadKeepsOk(s.(scope := OtherScope(s.scope)));
    }
  }

  lemma MoveListsOk(s: PackageList, key: PackageKey)
    requires ListsOk(s)
    ensures ListsOk(Move(s, key))
  {
    hide ListOk;
  }

  lemma UpdateKeepsLists(s: PackageList, p: PackagePress)
    requires ListsOk(s)
    ensures ListsOk(UpdateList(s, p))
  {
    hide ListOk, UpdateAdding, SaveList, DeleteAt, ToggleListScope, ClearList, RevertList, LeaveList, Move;
    AddingListsOk(s, p);
    var s1 := Rearmed(s, p);
    OthersListsOk(s1);
    DeleteKeepsOk(s1);
    SaveListsOk(s1);
    MoveListsOk(s1, p.key);
  }

  /** Over every key sequence the list holds no word twice. */
  lemma {:induction false} ListStaysDistinct(cfg: Option<Config>, files: map<string, FileData>, keys: seq<PackagePress>)
    ensures ListsOk(RunList(ResetList(cfg, files), keys))
    decreases |keys|
  {
    hide ListsOk, UpdateList, ResetList;
    if keys == [] {
      ResetListsOk(cfg, files);
    } else {
      ListStaysDistinct(cfg, files, keys[..|keys| - 1]);
      UpdateKeepsLists(RunList(ResetList(cfg, files), keys[..|keys| - 1]), keys[|keys| - 1]);
    }
  }

  lemma ResetListsOk(cfg: Option<Config>, files: map<string, FileData>)
    ensures ListsOk(ResetList(cfg, files))
  {
    hide ListOk, FileList, Parsed;
    LoadKeepsOk(PackageList(cfg, files, Global, [], [], false, false, 0, false, "", false, false, false, false));
  }

  // ---- revert ----

  /** What revert goes back to, and where it came from. */
  predicate SameBase(s: PackageList, t: PackageList) {
    && t.original == s.original && t.originalPresent == s.originalPresent
    && t.files == s.files && t.scope == s.scope && t.cfg == s.cfg
  }

  lemma AddTypedBase(s: PackageList)
    ensures SameBase(s, AddTyped(s))
  {
    hide SplitPackages, AddAll, LastIndex;
  }

  lemma EditsBase(s: PackageList)
    ensures SameBase(s, LeaveList(s)) && SameBase(s, RevertList(s)) && SameBase(s, ClearList(s))
  {
    hide ListDirty;
  }

  lemma DeleteBase(s: PackageList)
    ensures SameBase(s, DeleteAt(s))
  {
    hide LastIndex;
  }

  lemma MoveBase(s: PackageList, key: PackageKey)
    ensures SameBase(s, Move(s, key))
  {
    hide LastIndex;
  }

  lemma ActBase(s: PackageList, key: PackageKey)
    requires !key.SaveKey? && !key.Tab?
    ensures SameBase(s, Act(s, key))
  {
    hide SaveList, ToggleListScope, LeaveList, DeleteAt, RevertList, ClearList, Move, SameBase;
    EditsBase(s);
    DeleteBase(s);
    MoveBase(s, key);
  }

  /** Only a save and a switch of scope move the list that revert goes back to. */
  lemma OriginalStays(s: PackageList, p: PackagePress)
    requires !s.adding ==> !p.key.SaveKey? && !p.key.Tab?
    ensures SameBase(s, UpdateList(s, p))
  {
    hide Act, AddTyped;
    AddTypedBase(s);
    if !s.adding {
      ActBase(Rearmed(s, p), p.key);
    }
  }

  /** None of the keys saves or switches the scope; what is typed while adding does not count. */
  ghost predicate EditsOnly(s: PackageList, keys: seq<PackagePress>) {
    forall i :: 0 <= i < |keys| && !RunList(s, keys[..i]).adding ==> !keys[i].key.SaveKey? && !keys[i].key.Tab?
  }

  lemma {:induction false} OriginalOverRun(s: PackageList, keys: seq<PackagePress>)
    requires EditsOnly(s, keys)
    ensures SameBase(s, RunList(s, keys))
    decreases |keys|
  {
    hide UpdateList;
    if keys != [] {
      var init := keys[..|keys| - 1];
      assert forall i :: 0 <= i < |init| ==> init[..i] == keys[..i];
      OriginalOverRun(s, init);
      OriginalStays(RunList(s, init), keys[|keys| - 1]);
    }
  }

  /** However the list was edited since it was last loaded or saved, deletions included, revert
      brings back exactly that list. */
  lemma RevertRestoresList(s: PackageList, keys: seq<PackagePress>, p: PackagePress)
    requires !ListDirty(s) && EditsOnly(s, keys)
    requires !RunList(s, keys).adding && p.key.Revert?
    ensures var t := UpdateList(RunList(s, keys), p);
            t.pkgs == s.pkgs && t.present == s.present && !ListDirty(t) && t.files == s.files
  {
    hide RunList, EditsOnly, AddTyped;
    OriginalOverRun(s, keys);
  }

  /** A freshly loaded screen and a successfully saved one are clean. */
  lemma CleanAfter(s: PackageList)
    ensures !ListDirty(Load(s))
    ensures s.cfg.Some? && !SaveList(s).failed ==> !ListDirty(SaveList(s))
  {
    hide FileList, ListWritten, WithTemplate, JoinWords, HasBothQuotes, Parsed;
  }

  // ---- saving and reading back ----

  /** A save that goes through. */
  predicate SavesList(s: PackageList) {
    s.cfg.Some? && ListDirty(s) && !Unquotable(s)
  }

  /** A save fails exactly when there is no configuration or the joined list holds both quote
      characters, and then the edit is still pending. */
  lemma SaveListFails(s: PackageList)
    ensures SaveList(s).failed <==> s.cfg.None? || (ListDirty(s) && s.present && HasBothQuotes(JoinWords(s.pkgs)))
    ensures SavesList(s) <==> s.cfg.Some? && ListDirty(s) && !SaveList(s).failed
    ensures SaveList(s).failed ==> ListDirty(SaveList(s)) == ListDirty(s) && SaveList(s).pkgs == s.pkgs
  {
    hide ListWritten, WithTemplate, JoinWords, HasBothQuotes;
  }

  lemma FailedSaveFiles(s: PackageList)
    requires s.cfg.Some? && ListDirty(s) && Unquotable(s)
    ensures SaveList(s).files == TemplateFirst(s, s.cfg.value)
  {
    hide ListWritten, TemplateFirst, ListDirty, Unquotable, ScopeFile;
  }

  /** A list that cannot be quoted leaves the meaning of every file alone. */
  lemma FailedSaveKeepsFiles(s: PackageList, p: string)
    requires s.cfg.Some? && ConfigOk(s.cfg.value) && ListDirty(s) && Unquotable(s)
    ensures Parsed(SaveList(s).files, p) == Parsed(s.files, p)
  {
    hide SaveList, WithTemplate, Parsed, ConfigOk, ListDirty, Unquotable;
    FailedSaveFiles(s);
    TemplateParses(s.files, s.cfg.value, p, "");
  }

  /** A joined list is always a value that the env file keeps. */
  lemma JoinedIsStorable(list: seq<string>)
    requires ListOk(list)
    ensures NewlineFree(JoinWords(list)) && Storable(JoinWords(list))
  {
    hide IsWord;
    JoinWordsClean(list);
  }

  /** The list that a file assigns, if it does. */
  function FiledList(files: map<string, FileData>, p: string): Option<seq<string>> {
    var raw := Parsed(files, p);
    if PackagesName() in raw then Some(SplitPackages(raw[PackagesName()])) else None
  }

  /** Loading after a save of a present list gives the list back if and only if the file held at
      most one active packages line, or its last one already read as this list. */
  lemma SaveThenLoad(s: PackageList)
    requires ListsOk(s) && s.cfg.Some? && ConfigOk(s.cfg.value) && SavesList(s) && s.present
    ensures var target := ScopeFile(s.cfg.value, s.scope);
            var t := Load(SaveList(s));
            && t.present
            && (t.pkgs == s.pkgs <==>
                  || Count(LinesOf(s.files, target), PackagesName()) <= 1
                  || FiledList(s.files, target) == Some(s.pkgs))
  {
    hide L.Name, Parsed, LinesOf, JoinWords, SplitPackages, Assigned, SaveList, SavesList, ListOk, ConfigOk;
    SaveParses(s);
    SplitJoined(s.pkgs);
    CountedIsParsed(s.files, ScopeFile(s.cfg.value, s.scope), PackagesName());
    SaveKeepsPlace(s);
  }

  lemma SaveKeepsPlace(s: PackageList)
    ensures SaveList(s).cfg == s.cfg && SaveList(s).scope == s.scope
  {
    hide ListWritten, WithTemplate, JoinWords, HasBothQuotes;
  }

  lemma SavedFiles(s: PackageList)
    requires SavesList(s)
    ensures SaveList(s).files ==
            ListWritten(TemplateFirst(s, s.cfg.value), ScopeFile(s.cfg.value, s.scope), s.pkgs, s.present)
  {
    hide ListWritten, TemplateFirst, ListDirty, ScopeFile, JoinWords, HasBothQuotes;
  }

  lemma WriteParses(files: map<string, FileData>, target: string, list: seq<string>)
    requires ListOk(list) && !HasBothQuotes(JoinWords(list))
    ensures Parsed(ListWritten(files, target, list, true), target) ==
            Parsed(files, target) +
            if Count(LinesOf(files, target), PackagesName()) <= 1 then map[PackagesName() := JoinWords(list)] else map[]
  {
    hide L.Name, Parsed, LinesOf, AfterSet, JoinWords, HasBothQuotes, Assigned, Reread,
      IsKey, Storable, ListOk, AllQuotable, PatternKeys, NewlineFreeValues;
    var name, v := PackagesName(), JoinWords(list);
    JoinedIsStorable(list);
    PackagesValue(v);
    L.NamesAreKeys(L.Packages);
    AssignParses(name, v);
    var values := map[name := v];
    AfterSetParses(files, target, values, target);
    assert Effective(LinesOf(files, target), values) ==
        if Count(LinesOf(files, target), name) <= 1 then values else map[];
  }

  lemma SaveParses(s: PackageList)
    requires ListsOk(s) && s.cfg.Some? && ConfigOk(s.cfg.value) && SavesList(s) && s.present
    ensures var target := ScopeFile(s.cfg.value, s.scope);
            Parsed(SaveList(s).files, target) ==
            Parsed(s.files, target) +
            if Count(LinesOf(s.files, target), PackagesName()) <= 1
            then map[PackagesName() := JoinWords(s.pkgs)] else map[]
  {
    hide L.Name, Parsed, LinesOf, ListWritten, WithTemplate, JoinWords, HasBothQuotes, Assigned,
      ConfigOk, ListOk, SaveList, ScopeFile, ListDirty;
    var c := s.cfg.value;
    var target := ScopeFile(c, s.scope);
    SavedFiles(s);
    WriteParses(TemplateFirst(s, c), target, s.pkgs);
    TemplateParses(s.files, c, target, PackagesName());
  }

  lemma CountedIsParsed(files: map<string, FileData>, p: string, k: string)
    ensures k in Parsed(files, p) <==> Count(LinesOf(files, p), k) > 0
  {
    hide Parsed, ParseLines, LinesOf, Assigned;
    ParsedIsParseLines(files, p);
    ParseLookup(LinesOf(files, p), k);
  }

  lemma PackagesValue(v: string)
    requires !HasBothQuotes(v) && NewlineFree(v)
    ensures var values := map[PackagesName() := v];
            AllQuotable(values) && PatternKeys(values) && NewlineFreeValues(values)
  {
    hide L.Name, IsKey, HasBothQuotes;
    L.NamesAreKeys(L.Packages);
  }

  /** Saving a cleared list removes every packages line from the scope's file. */
  lemma SaveClearsList(s: PackageList, p: string)
    requires s.cfg.Some? && ConfigOk(s.cfg.value) && SavesList(s) && !s.present
    ensures Parsed(SaveList(s).files, p) ==
            if p == ScopeFile(s.cfg.value, s.scope) then Parsed(s.files, p) - {PackagesName()} else Parsed(s.files, p)
  {
    hide L.Name, Parsed, AfterUnset, AfterSet, WithTemplate, JoinWords, HasBothQuotes, IsKey, ConfigOk, SaveList,
      ScopeFile;
    var c := s.cfg.value;
    var files := TemplateFirst(s, c);
    SavedFiles(s);
    var target := ScopeFile(c, s.scope);
    TemplateParses(s.files, c, p, "");
    L.NamesAreKeys(L.Packages);
    AfterUnsetParses(files, target, {PackagesName()}, p);
    assert (set k | k in {PackagesName()} && IsKey(k)) == {PackagesName()};
  }

  /** To the settings screen, which shows other keys of the same files, every save of this screen is
      one of the edits that leave its cache right. */
  lemma SaveIsPackagesEdit(s: PackageList, settings: Screen)
    requires s.cfg.Some? && ListDirty(s)
    requires settings.cfg == s.cfg && settings.files == s.files
    ensures SaveList(s).files ==
            PackagesEdit(settings, s.scope, if s.present then Some(JoinWords(s.pkgs)) else None).files
  {
    hide L.Name, AfterSet, AfterUnset, WithTemplate, JoinWords, HasBothQuotes, SaveList, ListDirty;
    if Unquotable(s) {
      FailedSaveFiles(s);
    } else {
      SavedFiles(s);
    }
  }

  // ---- the cache agrees with the file ----

  predicate OneLineEach(c: Config, files: map<string, FileData>) {
    Count(LinesOf(files, c.globalPath), PackagesName()) <= 1 && Count(LinesOf(files, c.storePath), PackagesName()) <= 1
  }

  /** What the screen last loaded or saved is what the file says: the same presence and, when the
      file assigns the list, the same list. */
  predicate ListCached(s: PackageList) {
    s.cfg.Some? ==>
      && ConfigOk(s.cfg.value)
      && OneLineEach(s.cfg.value, s.files)
      && FiledList(s.files, ScopeFile(s.cfg.value, s.scope)) == if s.originalPresent then Some(s.original) else None
  }

  lemma WrittenOneLine(c: Config, files: map<string, FileData>, target: string, list: seq<string>, present: bool)
    requires ListOk(list) && (present ==> !HasBothQuotes(JoinWords(list)))
    requires OneLineEach(c, files)
    ensures OneLineEach(c, ListWritten(files, target, list, present))
  {
    hide L.Name, LinesOf, AfterSet, AfterUnset, JoinWords, HasBothQuotes, Assigned, Reread, IsKey, ListOk,
      AllQuotable, PatternKeys, NewlineFreeValues, Storable;
    var name, v := PackagesName(), JoinWords(list);
    if present {
      JoinedIsStorable(list);
      PackagesValue(v);
      AfterSetAssigned(files, target, map[name := v], c.globalPath, name);
      AfterSetAssigned(files, target, map[name := v], c.storePath, name);
    } else {
      AfterUnsetAssigned(files, target, {name}, c.globalPath, name);
      AfterUnsetAssigned(files, target, {name}, c.storePath, name);
    }
  }

  lemma TemplateOneLine(s: PackageList)
    requires s.cfg.Some? && ConfigOk(s.cfg.value) && OneLineEach(s.cfg.value, s.files)
    ensures OneLineEach(s.cfg.value, TemplateFirst(s, s.cfg.value))
  {
    hide L.Name, LinesOf, WithTemplate, ConfigOk, Assigned;
    TemplateParses(s.files, s.cfg.value, s.cfg.value.globalPath, PackagesName());
    TemplateParses(s.files, s.cfg.value, s.cfg.value.storePath, PackagesName());
  }

  lemma SaveOneLine(s: PackageList)
    requires ListsOk(s) && s.cfg.Some? && ConfigOk(s.cfg.value) && OneLineEach(s.cfg.value, s.files)
    ensures OneLineEach(s.cfg.value, SaveList(s).files)
  {
    hide SaveList, ListWritten, WithTemplate, TemplateFirst, OneLineEach, ConfigOk, ListDirty, ListOk, HasBothQuotes,
      JoinWords;
    TemplateOneLine(s);
    if !ListDirty(s) {
      CleanSaveFiles(s);
    } else if Unquotable(s) {
      FailedSaveFiles(s);
    } else {
      SavedFiles(s);
      WrittenOneLine(s.cfg.value, TemplateFirst(s, s.cfg.value), ScopeFile(s.cfg.value, s.scope), s.pkgs, s.present);
    }
  }

  lemma CleanSaveFiles(s: PackageList)
    requires s.cfg.Some? && !ListDirty(s)
    ensures SaveList(s) == s.(failed := false)
  {
    hide ListDirty;
  }

  lemma SavedBase(s: PackageList)
    requires SavesList(s)
    ensures SaveList(s).original == s.pkgs && SaveList(s).originalPresent == s.present
  {
    hide ListWritten, TemplateFirst, ListDirty, ScopeFile, Unquotable;
  }

  lemma FailedSaveBase(s: PackageList)
    requires s.cfg.Some? && ListDirty(s) && Unquotable(s)
    ensures SaveList(s).original == s.original && SaveList(s).originalPresent == s.originalPresent
  {
    hide ListWritten, TemplateFirst, ListDirty, ScopeFile, Unquotable;
  }

  lemma SaveFiled(s: PackageList)
    requires ListsOk(s) && ListCached(s) && SavesList(s)
    ensures FiledList(SaveList(s).files, ScopeFile(s.cfg.value, s.scope)) == if s.present then Some(s.pkgs) else None
  {
    hide L.Name, Parsed, LinesOf, JoinWords, SplitPackages, Assigned, SaveList, ListDirty, Unquotable, ListOk, ConfigOk;
    if s.present {
      SaveParses(s);
      SplitJoined(s.pkgs);
    } else {
      SaveClearsList(s, ScopeFile(s.cfg.value, s.scope));
    }
  }

  lemma SaveKeepsCache(s: PackageList)
    requires ListsOk(s) && ListCached(s)
    ensures ListCached(SaveList(s))
  {
    hide SaveList, FiledList, OneLineEach, ConfigOk, ListDirty, ListsOk, Unquotable, ScopeFile;
    SaveKeepsPlace(s);
    if s.cfg.Some? {
      SaveOneLine(s);
      if !ListDirty(s) {
        CleanSaveFiles(s);
      } else if Unquotable(s) {
        FailedSaveBase(s);
        FailedFiled(s);
      } else {
        SavedBase(s);
        SaveFiled(s);
      }
    }
  }

  lemma FailedFiled(s: PackageList)
    requires s.cfg.Some? && ConfigOk(s.cfg.value) && ListDirty(s) && Unquotable(s)
    ensures FiledList(SaveList(s).files, ScopeFile(s.cfg.value, s.scope)) ==
            FiledList(s.files, ScopeFile(s.cfg.value, s.scope))
  {
    hide SaveList, ConfigOk, ListDirty, Unquotable, Parsed, ScopeFile;
    FailedSaveKeepsFiles(s, ScopeFile(s.cfg.value, s.scope));
  }

  lemma LoadCached(s: PackageList)
    requires s.cfg.Some? ==> ConfigOk(s.cfg.value) && OneLineEach(s.cfg.value, s.files)
    ensures ListCached(Load(s)) && ListCached(Load(s).(cursor := 0, failed := false))
  {
    hide SplitPackages, Parsed, OneLineEach, ConfigOk, L.Name;
  }

  lemma ScopeKeepsCache(s: PackageList)
    requires ListCached(s)
    ensures ListCached(ToggleListScope(s))
  {
    hide FiledList, OneLineEach, ConfigOk, Load;
    LoadCached(s.(scope := OtherScope(s.scope)));
  }

  lemma SameBaseCached(s: PackageList, t: PackageList)
    requires ListCached(s) && SameBase(s, t)
    ensures ListCached(t)
  {
    hide FiledList, OneLineEach, ConfigOk;
  }

  lemma UpdateKeepsCache(s: PackageList, p: PackagePress)
    requires ListsOk(s) && ListCached(s)
    ensures ListCached(UpdateList(s, p))
  {
    hide ListCached, SaveList, ToggleListScope, ListOk, UpdateAdding, LeaveList, DeleteAt, RevertList, ClearList, Move;
    var s1 := Rearmed(s, p);
    SameBaseCached(s, s1);
    if s.adding || !(p.key.SaveKey? || p.key.Tab?) {
      OriginalStays(s, p);
      SameBaseCached(s, UpdateList(s, p));
    } else if p.key.SaveKey? {
      SaveKeepsCache(s1);
    } else {
      ScopeKeepsCache(s1);
    }
  }

  /** In every reachable state the screen's saved list agrees with the file of its scope. */
  lemma {:induction false} ListCacheAgrees(cfg: Option<Config>, files: map<string, FileData>, keys: seq<PackagePress>)
    requires cfg.Some? ==> ConfigOk(cfg.value) && OneLineEach(cfg.value, files)
    ensures ListCached(RunList(ResetList(cfg, files), keys))
    decreases |keys|
  {
    hide ListsOk, ListCached, UpdateList, OneLineEach, ConfigOk, Load;
    if keys == [] {
      LoadCached(PackageList(cfg, files, Global, [], [], false, false, 0, false, "", false, false, false, false));
    } else {
      var init := keys[..|keys| - 1];
      ListCacheAgrees(cfg, files, init);
      ListStaysDistinct(cfg, files, init);
      UpdateKeepsCache(RunList(ResetList(cfg, files), init), keys[|keys| - 1]);
    }
  }

  // ---- leaving ----

  /** The discard guard of the packages screen is armed only right after a refused escape. */
  predicate Guarded(s: PackageList, armedBy: bool) {
    (s.adding ==> !s.confirmed) && (s.confirmed ==> armedBy)
  }

  /** None of these actions arms the guard, leaves or starts adding. */
  predicate QuietList(s: PackageList, t: PackageList) {
    (t.adding ==> s.adding) && (t.confirmed ==> s.confirmed) && t.cancelled == s.cancelled && t.quit == s.quit
  }

  lemma SaveListQuiet(s: PackageList)
    ensures QuietList(s, SaveList(s))
  {
    hide ListWritten, TemplateFirst, ListDirty, ScopeFile, Unquotable;
  }

  lemma ListActionsQuiet(s: PackageList)
    ensures QuietList(s, ToggleListScope(s))
    ensures QuietList(s, ClearList(s)) && QuietList(s, RevertList(s))
  {
    hide ListDirty, Load;
    LoadQuiet(s.(scope := OtherScope(s.scope)));
  }

  lemma LoadQuiet(s: PackageList)
    ensures var t := Load(s);
            && t.adding == s.adding && t.confirmed == s.confirmed && t.cancelled == s.cancelled && t.quit == s.quit
            && t.files == s.files && t.cfg == s.cfg
  {
    hide FileList, Parsed;
  }

  lemma DeleteQuiet(s: PackageList)
    ensures QuietList(s, DeleteAt(s))
  {
    hide LastIndex;
  }

  lemma AddingQuiet(s: PackageList, p: PackagePress)
    ensures QuietList(s, UpdateAdding(s, p))
  {
    hide AddAll, SplitPackages, LastIndex;
  }

  lemma MoveQuiet(s: PackageList, key: PackageKey)
    ensures var t := Move(s, key);
            t.confirmed == s.confirmed && t.cancelled == s.cancelled && t.quit == (s.quit || key.CtrlC?)
  {
    hide LastIndex;
  }

  lemma LeaveStep(s: PackageList, p: PackagePress)
    requires Guarded(s, true)
    ensures var t := UpdateList(s, p);
            && Guarded(t, Leaves(p))
            && (t.cancelled && !s.cancelled ==> Leaves(p) && !s.adding && (ListDirty(s) ==> s.confirmed))
            && (t.quit && !s.quit ==> p.key.CtrlC?)
  {
    hide SaveList, ToggleListScope, UpdateAdding, DeleteAt, RevertList, ClearList, Move, ListDirty;
    AddingQuiet(s, p);
    var s1 := Rearmed(s, p);
    SaveListQuiet(s1);
    ListActionsQuiet(s1);
    DeleteQuiet(s1);
    MoveQuiet(s1, p.key);
  }

  lemma {:induction false} GuardOverRun(cfg: Option<Config>, files: map<string, FileData>, keys: seq<PackagePress>)
    ensures Guarded(RunList(ResetList(cfg, files), keys), keys != [] && Leaves(keys[|keys| - 1]))
    decreases |keys|
  {
    hide UpdateList, FileList, Parsed;
    if keys != [] {
      var init := keys[..|keys| - 1];
      GuardOverRun(cfg, files, init);
      LeaveStep(RunList(ResetList(cfg, files), init), keys[|keys| - 1]);
    }
  }

  /** The screen is never left with an unsaved list except by two consecutive presses of esc or q,
      or by ctrl+c. */
  lemma ListLeftDirtyOnlyOnPurpose(cfg: Option<Config>, files: map<string, FileData>, keys: seq<PackagePress>,
                                   last: PackagePress)
    requires var s := RunList(ResetList(cfg, files), keys); !s.cancelled && !s.quit && ListDirty(s)
    ensures var t := UpdateList(RunList(ResetList(cfg, files), keys), last);
            && (t.cancelled ==> Leaves(last) && keys != [] && Leaves(keys[|keys| - 1]))
            && (t.quit ==> last.key.CtrlC?)
  {
    hide UpdateList, RunList, ResetList, ListDirty;
    GuardOverRun(cfg, files, keys);
    LeaveStep(RunList(ResetList(cfg, files), keys), last);
  }

  // ---- the files that the screen touches ----

  /** Every file after the step was there before, or is one of the two settings files. */
  predicate OwnListFiles(s: PackageList, t: PackageList) {
    forall path :: path in t.files ==>
      path in s.files || (s.cfg.Some? && (path == s.cfg.value.globalPath || path == s.cfg.value.storePath))
  }

  lemma WrittenFiles(files: map<string, FileData>, target: string, list: seq<string>, present: bool)
    requires present ==> !HasBothQuotes(JoinWords(list))
    ensures forall path :: path in ListWritten(files, target, list, present) ==> path in files || path == target
  {
    hide JoinWords, HasBothQuotes, L.Name;
  }

  lemma SaveListFiles(s: PackageList)
    ensures OwnListFiles(s, SaveList(s))
  {
    hide SaveList, ListWritten, ListDirty, Unquotable;
    if s.cfg.None? {
      SaveUnloaded(s);
    } else if !ListDirty(s) {
      CleanSaveFiles(s);
    } else if Unquotable(s) {
      FailedSaveFiles(s);
    } else {
      SavedFiles(s);
      UnquotableIff(s);
      WrittenFiles(TemplateFirst(s, s.cfg.value), ScopeFile(s.cfg.value, s.scope), s.pkgs, s.present);
    }
  }

  lemma SaveUnloaded(s: PackageList)
    requires s.cfg.None?
    ensures SaveList(s) == s.(failed := true)
  {
  }

  lemma UnquotableIff(s: PackageList)
    ensures Unquotable(s) <==> s.present && HasBothQuotes(JoinWords(s.pkgs))
  {
  }

  lemma ScopeListFiles(s: PackageList)
    ensures ToggleListScope(s).files == s.files && ToggleListScope(s).cfg == s.cfg
  {
    hide ListDirty, Load, OtherScope;
    LoadQuiet(s.(scope := OtherScope(s.scope)));
  }

  lemma UpdateListFiles(s: PackageList, p: PackagePress)
    ensures OwnListFiles(s, UpdateList(s, p)) && UpdateList(s, p).cfg == s.cfg
  {
    hide UpdateList, SaveList, ToggleListScope;
    if s.adding || !(p.key.SaveKey? || p.key.Tab?) {
      OriginalStays(s, p);
    } else {
      SaveOrScope(s, p);
      var s1 := Rearmed(s, p);
      SaveListFiles(s1);
      SaveKeepsPlace(s1);
      ScopeListFiles(s1);
    }
  }

  lemma SaveOrScope(s: PackageList, p: PackagePress)
    requires !s.adding && (p.key.SaveKey? || p.key.Tab?)
    ensures UpdateList(s, p) == if p.key.SaveKey? then SaveList(Rearmed(s, p)) else ToggleListScope(Rearmed(s, p))
  {
    hide SaveList, ToggleListScope, LeaveList, DeleteAt, RevertList, ClearList, Move, UpdateAdding;
  }

  lemma {:induction false} ListKeepsConfig(s: PackageList, keys: seq<PackagePress>)
    ensures RunList(s, keys).cfg == s.cfg
    decreases |keys|
  {
    hide UpdateList;
    if keys != [] {
      ListKeepsConfig(s, keys[..|keys| - 1]);
      UpdateListFiles(RunList(s, keys[..|keys| - 1]), keys[|keys| - 1]);
    }
  }
}
