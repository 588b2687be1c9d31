/** What each key of the packages screen does, said on the lists themselves, and that no edit of the list
    is ever lost unnoticed. */
module PackagesLaws {
  import opened Wrappers
  import opened Text
  import opened EnvLine
  import opened EnvStore
  import L = Layers
  import opened S = SettingsScreen
  import opened P = PackagesScreen

  /** The list or its presence differs from what was saved. */
  predicate Unsaved(s: PackageList) {
    s.pkgs != s.original || s.present != s.originalPresent
  }

  /** The tab key on an unsaved list changes nothing but says so. */
  lemma TabKeepsList(s: PackageList, typed: string)
    requires !s.adding && Unsaved(s)
    ensures var t := UpdateList(s, PackagePress(PackageKey.Tab, typed));
            && t.pkgs == s.pkgs && t.present == s.present && t.original == s.original
            && t.originalPresent == s.originalPresent && t.scope == s.scope && t.files == s.files && t.failed
  {
    hide Load;
  }

  /** On a saved list it goes to the other scope and shows what that scope's file says, or what it inherits. */
  lemma TabShowsOtherList(s: PackageList, typed: string)
    requires !s.adding && !Unsaved(s) && s.cfg.Some?
    ensures var t := UpdateList(s, PackagePress(PackageKey.Tab, typed));
            var raw := Parsed(s.files, if s.scope.Global? then s.cfg.value.storePath else s.cfg.value.globalPath);
            && t.scope != s.scope && t.cursor == 0 && t.files == s.files && !Unsaved(t)
            && (t.present <==> "JAIL_INIT_PACKAGES" in raw)
            && t.pkgs == SplitPackages(
                  if "JAIL_INIT_PACKAGES" in raw then raw["JAIL_INIT_PACKAGES"] else s.cfg.value.settings.initPackages)
  {
    hide SplitPackages, Parsed;
  }

  /** The delete key takes the selected word out of the list, and only that one; the list counts as set. */
  lemma DeleteTakesSelected(s: PackageList, typed: string)
    requires !s.adding
    ensures var t := UpdateList(s, PackagePress(PackageKey.Delete, typed));
            && t.original == s.original && t.originalPresent == s.originalPresent && t.files == s.files
            && t.scope == s.scope
            && (s.cursor >= |s.pkgs| ==> t.pkgs == s.pkgs && t.present == s.present)
            && (s.cursor < |s.pkgs| ==>
                  && s.pkgs == t.pkgs[..s.cursor] + [s.pkgs[s.cursor]] + t.pkgs[s.cursor..] && t.present
                  && (t.cursor < |t.pkgs| || t.cursor == 0))
  {
    hide DeleteAt;
    DeleteAtTakes(Rearmed(s, PackagePress(PackageKey.Delete, typed)));
  }

  lemma DeleteAtTakes(s: PackageList)
    ensures var t := DeleteAt(s);
            && t.original == s.original && t.originalPresent == s.originalPresent && t.files == s.files
            && t.scope == s.scope
            && (s.cursor >= |s.pkgs| ==> t.pkgs == s.pkgs && t.present == s.present)
            && (s.cursor < |s.pkgs| ==>
                  && s.pkgs == t.pkgs[..s.cursor] + [s.pkgs[s.cursor]] + t.pkgs[s.cursor..] && t.present
                  && (t.cursor < |t.pkgs| || t.cursor == 0))
  {
    if s.cursor < |s.pkgs| {
      CutOut(s.pkgs, s.cursor);
    }
  }

  lemma CutOut(list: seq<string>, k: nat)
    requires k < |list|
    ensures var rest := list[..k] + list[k + 1..];
            && rest[..k] == list[..k] && rest[k..] == list[k + 1..]
            && list == rest[..k] + [list[k]] + rest[k..]
  {
  }

  /** The revert key shows the saved list and presence again. */
  lemma RevertShowsSaved(s: PackageList, typed: string)
    requires !s.adding
    ensures var t := UpdateList(s, PackagePress(PackageKey.Revert, typed));
            && t.pkgs == s.original && t.present == s.originalPresent && t.original == s.original
            && t.originalPresent == s.originalPresent && t.files == s.files && t.scope == s.scope && t.cursor == 0
  {
  }

  /** The clear key marks the list of the project scope as not set, and touches nothing else. */
  lemma ClearUnsetsList(s: PackageList, typed: string)
    requires !s.adding
    ensures var t := UpdateList(s, PackagePress(PackageKey.Clear, typed));
            && t.pkgs == s.pkgs && t.original == s.original && t.originalPresent == s.originalPresent
            && t.files == s.files && t.scope == s.scope
            && t.present == (s.present && s.scope.Global?)
  {
  }

  /** The escape and q keys leave a saved list at once, and an unsaved one only when pressed again; a first
      press on an unsaved list warns. Nothing else changes. */
  lemma EscapeLeavesList(s: PackageList, p: PackagePress)
    requires !s.adding && !s.cancelled && (p.key.Esc? || p.key.Quit?)
    ensures var t := UpdateList(s, p);
            && t.pkgs == s.pkgs && t.original == s.original && t.present == s.present && t.files == s.files
            && (t.cancelled <==> !Unsaved(s) || s.confirmed)
            && (!t.cancelled ==> t.confirmed && t.failed)
  {
  }

  /** The add key opens an empty input; in it esc and typing leave the list alone. */
  lemma InputKeepsList(s: PackageList, p: PackagePress)
    ensures !s.adding && p.key == PackageKey.Add ==>
              UpdateList(s, p).adding && UpdateList(s, p).input == "" && UpdateList(s, p).pkgs == s.pkgs
    ensures s.adding && p.key != PackageKey.Enter ==>
              UpdateList(s, p).pkgs == s.pkgs && UpdateList(s, p).present == s.present
    ensures s.adding && p.key == PackageKey.Esc ==> !UpdateList(s, p).adding
  {
    hide AddTyped, LeaveList, DeleteAt, RevertList, ClearList, SaveList, ToggleListScope;
  }

  /** The enter key appends every typed word that the list does not hold, each once, behind the old list;
      the list counts as set if it grew. */
  lemma EnterAppends(s: PackageList, typed: string)
    requires s.adding && NoDup(s.pkgs)
    ensures var t := UpdateList(s, PackagePress(PackageKey.Enter, typed));
            && !t.adding && t.input == "" && s.pkgs <= t.pkgs && NoDup(t.pkgs)
            && (forall w :: w in t.pkgs <==> w in s.pkgs || w in Fields(s.input))
            && t.present == (s.present || t.pkgs != s.pkgs)
            && (t.pkgs != s.pkgs ==> t.cursor == |t.pkgs| - 1)
            && t.original == s.original && t.files == s.files
  {
    hide Fields, AddAll, NoDup;
    WordsAdded(s.pkgs, s.input);
    hide SplitPackages;
    AddTypedParts(s);
  }

  lemma WordsAdded(list: seq<string>, typed: string)
    requires NoDup(list)
    ensures var t := AddAll(list, SplitPackages(typed));
            && list <= t && NoDup(t) && (forall w :: w in t <==> w in list || w in Fields(typed))
            && (|t| > |list| <==> t != list)
  {
    hide Fields, AddAll, NoDup;
    EmptyNoDup();
    AddAllExact([], Fields(typed));
    AddAllExact(list, SplitPackages(typed));
    var t := AddAll(list, SplitPackages(typed));
    assert |t| == |list| ==> t == list;
  }

  lemma EmptyNoDup()
    ensures NoDup([])
  {
  }

  lemma AddTypedParts(s: PackageList)
    ensures var list := AddAll(s.pkgs, SplitPackages(s.input));
            var t := AddTyped(s);
            && !t.adding && t.input == "" && t.pkgs == list && t.original == s.original && t.files == s.files
            && (|list| > |s.pkgs| ==> t.present && t.cursor == |list| - 1)
            && (|list| <= |s.pkgs| ==> t.present == s.present)
  {
    hide AddAll, SplitPackages;
  }

  /** Up, down, home and end move the cursor inside the list; ctrl+c quits. */
  lemma KeysMoveListCursor(s: PackageList, p: PackagePress)
    requires !s.adding
    requires p.key.Up? || p.key.Down? || p.key.Home? || p.key.End? || p.key.CtrlC?
    ensures var t := UpdateList(s, p);
            && t.pkgs == s.pkgs && t.original == s.original && t.present == s.present && t.files == s.files
            && t.scope == s.scope
            && (p.key.Up? ==> t.cursor == if s.cursor == 0 then 0 else s.cursor - 1)
            && (p.key.Down? ==> t.cursor == if s.cursor + 1 < |s.pkgs| then s.cursor + 1 else s.cursor)
            && (p.key.Home? ==> t.cursor == 0)
            && (p.key.End? ==> t.cursor == if |s.pkgs| == 0 then 0 else |s.pkgs| - 1)
            && (p.key.CtrlC? ==> t.quit)
  {
  }

  /** The save key writes an unsaved list that can be quoted and then counts it as saved; it changes the list
      in no case, and nothing at all without a configuration or without changes. */
  lemma SaveKeepsList(s: PackageList, typed: string)
    requires !s.adding
    ensures var t := UpdateList(s, PackagePress(PackageKey.SaveKey, typed));
            && t.pkgs == s.pkgs && t.present == s.present && t.scope == s.scope
            && (t.failed <==> s.cfg.None? || (Unsaved(s) && s.present
                                              && '"' in JoinWords(s.pkgs) && '\'' in JoinWords(s.pkgs)))
            && (s.cfg.Some? && !t.failed ==> !Unsaved(t))
            && (t.failed || !Unsaved(s) ==> t.original == s.original && t.originalPresent == s.originalPresent)
            && (s.cfg.None? || !Unsaved(s) ==> t.files == s.files)
  {
    hide ListWritten, TemplateFirst, JoinWords;
  }

  /** Over every run: an unsaved list stays as it is unless a key of the run is one of those that edit, revert
      or save it; in particular no switch of scope takes it away. */
  predicate MayMove(s: PackageList, p: PackagePress) {
    if s.adding then p.key.Enter?
    else p.key.Delete? || p.key.Revert? || p.key.SaveKey? || p.key.Clear?
  }

  lemma UnsavedStays(s: PackageList, p: PackagePress)
    requires Unsaved(s) && !MayMove(s, p)
    ensures var t := UpdateList(s, p);
            && t.pkgs == s.pkgs && t.present == s.present && t.original == s.original
            && t.originalPresent == s.originalPresent && t.scope == s.scope && t.files == s.files
  {
    hide AddTyped, ToggleListScope, LeaveList, DeleteAt, RevertList, ClearList, SaveList, Move;
    if !s.adding {
      LeaveSame(Rearmed(s, p));
      MoveSame(Rearmed(s, p), p.key);
      TabSame(Rearmed(s, p));
    }
  }

  predicate SameList(s: PackageList, t: PackageList) {
    && t.pkgs == s.pkgs && t.present == s.present && t.original == s.original
    && t.originalPresent == s.originalPresent && t.scope == s.scope && t.files == s.files
  }

  lemma LeaveSame(s: PackageList)
    ensures SameList(s, LeaveList(s))
  {
  }

  lemma MoveSame(s: PackageList, key: PackageKey)
    ensures SameList(s, Move(s, key))
  {
    hide LastIndex;
  }

  lemma TabSame(s: PackageList)
    requires Unsaved(s)
    ensures SameList(s, ToggleListScope(s))
  {
    hide Load;
  }

  lemma {:induction false} UnsavedOverRun(s: PackageList, keys: seq<PackagePress>)
    requires Unsaved(s) && forall n :: 0 <= n < |keys| ==> !MayMove(RunList(s, keys[..n]), keys[n])
    ensures var t := RunList(s, keys);
            && t.pkgs == s.pkgs && t.present == s.present && t.original == s.original
            && t.originalPresent == s.originalPresent && t.scope == s.scope && t.files == s.files
    decreases |keys|
  {
    hide UpdateList, MayMove;
    if keys != [] {
      var init := keys[..|keys| - 1];
      assert forall n :: 0 <= n < |init| ==> init[..n] == keys[..n];
      UnsavedOverRun(s, init);
      UnsavedStays(RunList(s, init), keys[|keys| - 1]);
    }
  }
}
