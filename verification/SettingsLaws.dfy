/** What each key of the settings screen does, said on the rows themselves, and that no pending edit is
    ever lost unnoticed. */
module SettingsLaws {
  import opened Wrappers
  import opened Text
  import opened EnvLine
  import opened EnvEdit
  import opened EnvStore
  import opened S = SettingsScreen
  import L = Layers

  // ---- no pending edit disappears unnoticed ----

  /** A row with something to save. */
  predicate Pending(f: Field) {
    f.value != f.saved || f.present != f.savedPresent
  }

  /** The events that may move a pending row i: the revert key, the save key, the enter key in the
      editor of that row, and the space, enter and clear keys on that row. */
  predicate Touches(s: Screen, e: Event, i: nat) {
    && e.Key?
    && if s.editing then e.p.key.Enter? && s.cursor == i + 1
       else
         || e.p.key.Revert? || e.p.key.SaveKey?
         || (s.cursor == i + 1 && (e.p.key.Space? || e.p.key.Enter? || e.p.key.Clear?))
  }

  lemma ClearMoves(s: Screen)
    ensures var t := ClearOverride(s);
            && t.scope == s.scope && |t.fields| == |s.fields|
            && forall i :: 0 <= i < |s.fields| && s.cursor != i + 1 ==> t.fields[i] == s.fields[i]
  {
  }

  lemma ActivateMoves(s: Screen)
    ensures var t := Activate(s);
            && t.scope == s.scope && |t.fields| == |s.fields|
            && forall i :: 0 <= i < |s.fields| && s.cursor != i + 1 ==> t.fields[i] == s.fields[i]
  {
    hide ToggleBool, L.IsBool, InputText;
  }

  lemma CommitMoves(s: Screen, float: string -> Option<real>)
    ensures var t := Commit(s, float);
            && t.scope == s.scope && |t.fields| == |s.fields|
            && forall i :: 0 <= i < |s.fields| && s.cursor != i + 1 ==> t.fields[i] == s.fields[i]
  {
    hide Acceptable, Trim;
  }

  lemma SaveMoves(s: Screen)
    ensures var t := Save(s);
            && t.scope == s.scope && |t.fields| == |s.fields|
            && (t.fields == s.fields ||
                (!t.failed && forall i :: 0 <= i < |s.fields| ==>
                   t.fields[i] == s.fields[i].(saved := s.fields[i].value, savedPresent := s.fields[i].present)))
  {
    hide Edited, WithTemplate, EditedValues, ClearedKeys, AllQuotable, AnyDirty, L.Name, Saved, ScopeFile;
    forall files | true
      ensures Saved(s, files).scope == s.scope && !Saved(s, files).failed && |Saved(s, files).fields| == |s.fields|
      ensures forall i :: 0 <= i < |s.fields| ==>
                Saved(s, files).fields[i] ==
                    s.fields[i].(saved := s.fields[i].value, savedPresent := s.fields[i].present)
    {
      SavedMoves(s, files);
    }
  }

  lemma SavedMoves(s: Screen, files: map<string, FileData>)
    ensures var t := Saved(s, files);
            && t.scope == s.scope && !t.failed && |t.fields| == |s.fields|
            && forall i :: 0 <= i < |s.fields| ==>
                 t.fields[i] == s.fields[i].(saved := s.fields[i].value, savedPresent := s.fields[i].present)
  {
  }

  lemma TabRefused(s: Screen, i: nat)
    requires i < |s.fields| && Pending(s.fields[i])
    ensures ToggleScope(s) == s.(failed := true)
  {
    hide LoadFields;
    assert Dirty(s.fields[i]);
  }

  lemma StillMoves(s: Screen, key: Key)
    ensures Navigate(s, key).fields == s.fields && Navigate(s, key).scope == s.scope
    ensures Leave(s).fields == s.fields && Leave(s).scope == s.scope
    ensures RevertAll(s).scope == s.scope && |RevertAll(s).fields| == |s.fields|
  {
    hide AnyDirty, Navigate, Leave, RevertAll;
    NavigateStill(s, key);
    LeaveStill(s);
    RevertStill(s);
  }

  lemma NavigateStill(s: Screen, key: Key)
    ensures Navigate(s, key).fields == s.fields && Navigate(s, key).scope == s.scope
  {
  }

  lemma LeaveStill(s: Screen)
    ensures Leave(s).fields == s.fields && Leave(s).scope == s.scope
  {
    hide AnyDirty;
  }

  lemma RevertStill(s: Screen)
    ensures RevertAll(s).scope == s.scope && |RevertAll(s).fields| == |s.fields|
  {
  }

  lemma RearmMoves(s: Screen, p: Press)
    ensures var t := Rearm(s, p);
            t.fields == s.fields && t.scope == s.scope && t.cursor == s.cursor && t.editing == s.editing
  {
  }

  /** One key press outside the editor, on a row that is pending. */
  lemma DispatchKeepsEdits(s: Screen, key: Key, i: nat)
    requires i < |s.fields| && Pending(s.fields[i])
    ensures var t := Dispatch(s, key);
            && t.scope == s.scope && |t.fields| == |s.fields|
            && (t.fields[i] != s.fields[i] ==>
                  || key.Revert?
                  || (key.SaveKey? && !t.failed)
                  || (s.cursor == i + 1 && (key.Space? || key.Enter? || key.Clear?)))
  {
    hide Save, ToggleScope, ClearOverride, Activate, Navigate, Leave, RevertAll;
    SaveMoves(s);
    TabRefused(s, i);
    ClearMoves(s);
    ActivateMoves(s);
    StillMoves(s, key);
  }

  /** A pending row stays as it is, in its place and in its scope, under every event that does not
      touch it. If it moves, the event was the revert key, a save that did not fail, or an edit of
      that very row; in particular the tab key never takes it away. */
  lemma NoEditLost(s: Screen, e: Event, float: string -> Option<real>, i: nat)
    requires i < |s.fields| && Pending(s.fields[i])
    ensures var t := S.Step(s, e, float);
            && t.scope == s.scope && |t.fields| == |s.fields|
            && (t.fields[i] != s.fields[i] ==> Touches(s, e, i) && (!s.editing && e.p.key.SaveKey? ==> !t.failed))
  {
    hide UpdateEditing, Dispatch, PackagesEdit, Rearm;
    match e {
      case Key(p) =>
        if s.editing {
          EditingKeepsEdits(s, p, float);
        } else {
          RearmMoves(s, p);
          DispatchKeepsEdits(Rearm(s, p), p.key, i);
        }
      case PackagesSaved(scope, value) => PackagesMoves(s, scope, value);
    }
  }

  lemma PendingIsDirty(fields: seq<Field>)
    ensures (exists i :: 0 <= i < |fields| && Pending(fields[i])) ==> AnyDirty(fields)
  {
    if i :| 0 <= i < |fields| && Pending(fields[i]) {
      assert Dirty(fields[i]);
    }
  }

  lemma EditingKeepsEdits(s: Screen, p: Press, float: string -> Option<real>)
    ensures var t := UpdateEditing(s, p, float);
            && t.scope == s.scope && |t.fields| == |s.fields|
            && forall i :: 0 <= i < |s.fields| && t.fields[i] != s.fields[i] ==> s.cursor == i + 1 && p.key.Enter?
  {
    hide Commit;
    CommitMoves(s, float);
  }

  lemma PackagesMoves(s: Screen, scope: Scope, value: Option<string>)
    ensures PackagesEdit(s, scope, value).fields == s.fields && PackagesEdit(s, scope, value).scope == s.scope
  {
    hide PackagesFiles;
  }

  /** Over every run: an edit is still pending as it was, in the same scope, unless some event of the
      run touched its row. */
  lemma {:induction false} EditStaysPending(s: Screen, events: seq<Event>, float: string -> Option<real>, i: nat)
    requires i < |s.fields| && Pending(s.fields[i])
    ensures var t := Run(s, events, float);
            || (t.scope == s.scope && |t.fields| == |s.fields| && t.fields[i] == s.fields[i])
            || exists n :: 0 <= n < |events| && Touches(Run(s, events[..n], float), events[n], i)
    decreases |events|
  {
    hide S.Step, Touches, Pending;
    if events != [] {
      var init := events[..|events| - 1];
      EditStaysPending(s, init, float, i);
      if n :| 0 <= n < |init| && Touches(Run(s, init[..n], float), init[n], i) {
        assert init[..n] == events[..n] && init[n] == events[n];
      } else {
        NoEditLost(Run(s, init, float), events[|events| - 1], float, i);
        if Touches(Run(s, init, float), events[|events| - 1], i) {
          assert events[..|init|] == init;
        }
      }
    }
  }

  /** No event of the run touches row i. */
  ghost predicate Untouched(s: Screen, events: seq<Event>, float: string -> Option<real>, i: nat) {
    forall n :: 0 <= n < |events| ==> !Touches(Run(s, events[..n], float), events[n], i)
  }

  lemma RunKeepsEdits(s: Screen, events: seq<Event>, float: string -> Option<real>)
    ensures var t := Run(s, events, float);
            forall i :: 0 <= i < |s.fields| && Pending(s.fields[i]) && Untouched(s, events, float, i) ==>
              t.scope == s.scope && |t.fields| == |s.fields| && t.fields[i] == s.fields[i]
  {
    hide Run, Touches, Pending;
    forall i | 0 <= i < |s.fields| && Pending(s.fields[i]) && Untouched(s, events, float, i)
      ensures var t := Run(s, events, float);
              t.scope == s.scope && |t.fields| == |s.fields| && t.fields[i] == s.fields[i]
    {
      EditStaysPending(s, events, float, i);
    }
  }

  /** The tab key on a screen with a pending row changes neither scope nor rows nor files, and says so. */
  lemma TabKeepsEdits(s: Screen, typed: string, float: string -> Option<real>, i: nat)
    requires !s.editing && i < |s.fields| && Pending(s.fields[i])
    ensures var t := Update(s, Press(Tab, typed), float);
            t.scope == s.scope && t.fields == s.fields && t.files == s.files && t.cursor == s.cursor && t.failed
  {
    hide ToggleScope;
    TabRefused(Rearm(s, Press(Tab, typed)), i);
  }

  // ---- what each key does ----

  /** The tab key on a screen without pending rows goes to the other scope and shows what its file says. */
  lemma TabShowsOtherScope(s: Screen, typed: string, float: string -> Option<real>)
    requires !s.editing && s.cfg.Some? && forall i :: 0 <= i < |s.fields| ==> !Pending(s.fields[i])
    ensures var t := Update(s, Press(Tab, typed), float);
            var raw := Parsed(s.files, if s.scope.Global? then s.cfg.value.storePath else s.cfg.value.globalPath);
            && t.scope != s.scope && t.cursor == 0 && !t.failed && t.files == s.files && |t.fields| == 9
            && forall i :: 0 <= i < 9 ==>
                 var f := t.fields[i];
                 && f.key == ROWS[i] && !Pending(f)
                 && (f.present <==> L.Name(f.key) in raw)
                 && (f.present ==> f.value == raw[L.Name(f.key)])
  {
    hide L.Name, L.Get, Parsed;
    assert !AnyDirty(s.fields);
  }

  /** The rows of the screen, by the names of their keys. */
  lemma RowNames()
    ensures |ROWS| == 9
    ensures L.Name(ROWS[0]) == "JAIL_BASE_IMAGE" && L.Name(ROWS[1]) == "JAIL_MEM_LIMIT"
    ensures L.Name(ROWS[2]) == "JAIL_CPU_LIMIT"
    ensures L.Name(ROWS[3]) == "JAIL_SKIP_PERMISSIONS" && L.Name(ROWS[4]) == "JAIL_RUN_AS_ROOT"
    ensures L.Name(ROWS[5]) == "JAIL_SUDO"
    ensures L.Name(ROWS[6]) == "JAIL_NETWORK_JAIL" && L.Name(ROWS[7]) == "JAIL_NETWORK_ALLOW"
    ensures L.Name(ROWS[8]) == "JAIL_AUTO_APPROVE"
  {
  }

  /** The escape and q keys: a screen without pending rows is left; one with pending rows is left only
      when the key before was such a key too, and is otherwise warned about. Rows never change. */
  lemma EscapeLeaves(s: Screen, p: Press, float: string -> Option<real>)
    requires !s.editing && !s.cancelled && (p.key.Esc? || p.key.Quit?)
    ensures var t := Update(s, p, float);
            var pending := exists i :: 0 <= i < |s.fields| && Pending(s.fields[i]);
            && t.fields == s.fields && t.scope == s.scope && t.files == s.files
            && (t.cancelled <==> !pending || s.confirmed)
            && (!t.cancelled ==> t.confirmed && t.failed)
  {
    hide Pending, Dirty;
    assert forall f :: Dirty(f) == Pending(f) by { DirtyIsPending(); }
  }

  lemma DirtyIsPending()
    ensures forall f :: Dirty(f) == Pending(f)
  {
  }

  /** Up and down move by one row and stop at the ends; ctrl+c quits; other keys do nothing. */
  lemma KeysMoveCursor(s: Screen, p: Press, float: string -> Option<real>)
    requires !s.editing && (p.key.Up? || p.key.Down? || p.key.CtrlC? || p.key.OtherKey?)
    ensures var t := Update(s, p, float);
            && t.fields == s.fields && t.scope == s.scope && t.files == s.files && !t.confirmed
            && (p.key.Up? ==> t.cursor == if s.cursor == 0 then 0 else s.cursor - 1)
            && (p.key.Down? && s.cursor <= |s.fields| ==>
                  t.cursor == if s.cursor == |s.fields| then s.cursor else s.cursor + 1)
            && (p.key.CtrlC? ==> t.quit) && (!p.key.CtrlC? ==> t.quit == s.quit)
            && (p.key.CtrlC? || p.key.OtherKey? ==> t.cursor == s.cursor)
  {
  }

  /** The revert key gives every row its saved value and presence back and keeps what is saved. */
  lemma RevertRestores(s: Screen, typed: string, float: string -> Option<real>)
    requires !s.editing
    ensures var t := Update(s, Press(Revert, typed), float);
            && |t.fields| == |s.fields| && t.scope == s.scope && t.files == s.files && !t.failed
            && forall i :: 0 <= i < |s.fields| ==>
                 var f, g := s.fields[i], t.fields[i];
                 && g.key == f.key && g.saved == f.saved && g.savedPresent == f.savedPresent
                 && g.value == f.saved && g.present == f.savedPresent
  {
  }

  /** The clear key takes a set row of the project scope back to inheriting, and does nothing else. */
  lemma ClearUnsets(s: Screen, typed: string, float: string -> Option<real>)
    requires !s.editing
    ensures var t := Update(s, Press(Clear, typed), float);
            && |t.fields| == |s.fields| && t.scope == s.scope && t.files == s.files
            && forall i :: 0 <= i < |s.fields| ==>
                 var f, g := s.fields[i], t.fields[i];
                 if s.scope.Project? && s.cursor == i + 1 then g == f.(present := false) else g == f
  {
  }

  /** The space and enter keys: the first row opens the packages screen; a boolean row changes and no
      other does; on a text row the editor opens with the row's text, and no row changes. */
  lemma EnterActs(s: Screen, p: Press, float: string -> Option<real>)
    requires !s.editing && (p.key.Space? || p.key.Enter?) && s.cursor <= |s.fields|
    ensures var t := Update(s, p, float);
            && |t.fields| == |s.fields| && t.scope == s.scope && t.files == s.files
            && (s.cursor == 0 ==> t.openPackages && t.fields == s.fields && !t.editing)
            && (s.cursor > 0 ==>
                  var f, g := s.fields[s.cursor - 1], t.fields[s.cursor - 1];
                  && t.openPackages == s.openPackages
                  && t.fields == s.fields[s.cursor - 1 := g]
                  && g.key == f.key && g.saved == f.saved && g.savedPresent == f.savedPresent
                  && (if L.IsBool(f.key) then !t.editing && (g.value != f.value || g.present != f.present)
                      else t.editing && g == f)
                  && (!L.IsBool(f.key) && OneLineText(f.value) ==> t.input == f.value))
  {
    hide Activate, L.IsBool, OneLineText;
    ActivateActs(Rearm(s, p));
  }

  lemma ActivateActs(s: Screen)
    requires !s.editing && s.cursor <= |s.fields|
    ensures var t := Activate(s);
            && |t.fields| == |s.fields| && t.scope == s.scope && t.files == s.files
            && (s.cursor == 0 ==> t.openPackages && t.fields == s.fields && !t.editing)
            && (s.cursor > 0 ==>
                  var f, g := s.fields[s.cursor - 1], t.fields[s.cursor - 1];
                  && t.openPackages == s.openPackages
                  && t.fields == s.fields[s.cursor - 1 := g]
                  && g.key == f.key && g.saved == f.saved && g.savedPresent == f.savedPresent
                  && (if L.IsBool(f.key) then !t.editing && (g.value != f.value || g.present != f.present)
                      else t.editing && g == f)
                  && (!L.IsBool(f.key) && OneLineText(f.value) ==> t.input == f.value))
  {
    hide L.IsBool, ToggleBool, InputText, OneLineText;
    if s.cursor > 0 {
      var f := s.fields[s.cursor - 1];
      ToggleActs(f, s.scope);
      InputIsText(f.value);
    }
  }

  lemma ToggleActs(f: Field, scope: Scope)
    ensures var g := ToggleBool(f, scope);
            && g.key == f.key && g.saved == f.saved && g.savedPresent == f.savedPresent
            && (g.value != f.value || g.present != f.present)
  {
  }

  lemma InputIsText(v: string)
    ensures OneLineText(v) ==> InputText(v) == v
  {
  }

  /** A tab or a line break becomes a blank, and of a longer text the first 512 characters stay. */
  lemma InputMadeOneLine(before: string, c: char, after: string)
    requires OneLineText(before) && OneLineText(after) && c in "\t\n\r"
    ensures |before| + |after| < 512 ==> InputText(before + [c] + after) == before + " " + after
    ensures |before| == 512 ==> InputText(before + [c] + after) == before
  {
  }

  /** What the input field takes over as it is. */
  predicate OneLineText(v: string) {
    |v| <= 512 && '\n' !in v && '\r' !in v && '\t' !in v
  }

  /** In the editor: esc and typing leave every row alone; enter stores the text without the whitespace
      around it if that is acceptable, in the selected row only, and otherwise keeps the editor open. */
  lemma EditorActs(s: Screen, p: Press, float: string -> Option<real>)
    requires s.editing && 0 < s.cursor <= |s.fields|
    ensures var t := Update(s, p, float);
            var f, v := s.fields[s.cursor - 1], Trim(s.input);
            && t.scope == s.scope && t.files == s.files && t.cursor == s.cursor
            && (!p.key.Enter? ==> t.fields == s.fields)
            && (p.key.Esc? ==> !t.editing && t.failed == s.failed)
            && (!p.key.Enter? && !p.key.Esc? ==> t.editing && t.input == p.typed && !t.failed)
            && (p.key.Enter? && Acceptable(f.key, v, float) ==>
                  !t.editing && t.fields == s.fields[s.cursor - 1 := Field(f.key, v, f.saved, true, f.savedPresent)])
            && (p.key.Enter? && !Acceptable(f.key, v, float) ==> t.editing && t.failed && t.fields == s.fields)
  {
    hide Commit, Trim, Acceptable;
    CommitActs(s, float);
  }

  lemma CommitActs(s: Screen, float: string -> Option<real>)
    requires s.editing && 0 < s.cursor <= |s.fields|
    ensures var t := Commit(s, float);
            var f, v := s.fields[s.cursor - 1], Trim(s.input);
            && t.scope == s.scope && t.files == s.files && t.cursor == s.cursor
            && (Acceptable(f.key, v, float) ==>
                  !t.editing && t.fields == s.fields[s.cursor - 1 := Field(f.key, v, f.saved, true, f.savedPresent)])
            && (!Acceptable(f.key, v, float) ==> t.editing && t.failed && t.fields == s.fields)
  {
    hide Acceptable, Trim;
  }

  /** A memory limit is a number followed by one of the units b, k, m and g; a CPU limit is a number above
      zero; a base image is not empty; every other text goes. */
  lemma AcceptableExact(v: string, float: string -> Option<real>)
    ensures Acceptable(L.Mem, v, float) <==>
            exists n: string, u: char :: IsLimit(n, u, v, float)
    ensures Acceptable(L.Cpu, v, float) <==> exists x: real :: x > 0.0 && float(v) == Some(x)
    ensures Acceptable(L.Base, v, float) <==> v != ""
    ensures forall k: L.Key :: !k.Mem? && !k.Cpu? && !k.Base? ==> Acceptable(k, v, float)
  {
    if Acceptable(L.Mem, v, float) {
      assert v == v[..|v| - 1] + [v[|v| - 1]];
      assert IsLimit(v[..|v| - 1], v[|v| - 1], v, float);
    }
    if n, u :| IsLimit(n, u, v, float) {
      assert v[|v| - 1] == u && v[..|v| - 1] == n;
    }
  }

  predicate IsLimit(n: string, u: char, v: string, float: string -> Option<real>) {
    v == n + [u] && u in "bkmg" && float(n).Some?
  }

  /** The save key on a screen whose pending values can be quoted: it does not fail, no row is pending
      afterwards, and every row shows what it showed. Otherwise, or without a configuration, no row
      changes, and the pending ones stay pending. */
  lemma SaveKeyActs(s: Screen, typed: string, float: string -> Option<real>)
    requires !s.editing
    ensures var t := Update(s, Press(SaveKey, typed), float);
            var pending := exists i :: 0 <= i < |s.fields| && Pending(s.fields[i]);
            && t.scope == s.scope && t.cursor == s.cursor && |t.fields| == |s.fields|
            && (t.failed <==> s.cfg.None? || (pending && !AllQuotable(EditedValues(s.fields))))
            && (t.failed || !pending ==> t.fields == s.fields)
            && (!t.failed && pending ==>
                  forall i :: 0 <= i < |s.fields| ==>
                    !Pending(t.fields[i]) && t.fields[i].key == s.fields[i].key
                    && t.fields[i].value == s.fields[i].value && t.fields[i].present == s.fields[i].present)
  {
    hide Edited, WithTemplate, EditedValues, ClearedKeys, AllQuotable, L.Name, Dirty;
    DirtyIsPending();
  }

  /** No other file changed, and the target kept its mode, or is private if it is new. */
  ghost predicate OneFileTouched(before: map<string, FileData>, after: map<string, FileData>, target: string) {
    && (forall p :: p != target ==> (p in after <==> p in before) && (p in after ==> after[p] == before[p]))
    && (target in before ==> target in after && after[target].mode == before[target].mode)
    && (target !in before && target in after ==> after[target].mode == 384)
  }

  /** A save touches the file of its scope alone and keeps its mode. In global scope that file exists
      afterwards, private if it is new; if the save fails it is as it was, or the bare template. */
  lemma SaveTouchesOneFile(s: Screen, typed: string, float: string -> Option<real>)
    requires !s.editing && s.cfg.Some?
    ensures var t, c := Update(s, Press(SaveKey, typed), float), s.cfg.value;
            var target := if s.scope.Global? then c.globalPath else c.storePath;
            var pending := exists i :: 0 <= i < |s.fields| && Pending(s.fields[i]);
            && OneFileTouched(s.files, t.files, target)
            && (pending && s.scope.Global? ==> target in t.files)
            && (t.failed || !pending ==>
                  t.files == if pending && s.scope.Global? && target !in s.files
                             then s.files[target := FileData(c.template, 384)] else s.files)
  {
    hide Save, OneFileTouched, Dirty, WithTemplate;
    DirtyIsPending();
    SaveTouches(Rearm(s, Press(SaveKey, typed)));
    TemplateTouches(s.files, s.cfg.value);
    SameFiles(s.files, if s.scope.Global? then s.cfg.value.globalPath else s.cfg.value.storePath);
  }

  lemma SameFiles(files: map<string, FileData>, target: string)
    ensures OneFileTouched(files, files, target)
  {
  }

  lemma SaveTouches(s: Screen)
    requires s.cfg.Some?
    ensures var t, c := Save(s), s.cfg.value;
            var target := if s.scope.Global? then c.globalPath else c.storePath;
            var start := if s.scope.Global? then WithTemplate(s.files, c) else s.files;
            && OneFileTouched(s.files, t.files, target)
            && (AnyDirty(s.fields) && s.scope.Global? ==> target in t.files)
            && (t.failed || !AnyDirty(s.fields) ==> t.files == if AnyDirty(s.fields) then start else s.files)
  {
    hide EditedValues, ClearedKeys, AllQuotable, Edited, WithTemplate, AnyDirty, OneFileTouched, Save;
    var c, values, unset := s.cfg.value, EditedValues(s.fields), ClearedKeys(s.fields);
    var target := ScopeFile(c, s.scope);
    var start := if s.scope.Global? then WithTemplate(s.files, c) else s.files;
    SaveCases(s);
    TemplateTouches(s.files, c);
    SameFiles(s.files, target);
    if AllQuotable(values) {
      var files := Edited(start, target, values, unset);
      EditTouches(start, target, values, unset);
      TouchedTwice(s.files, start, files, target);
    }
  }

  lemma SaveCases(s: Screen)
    requires s.cfg.Some?
    ensures var c, values := s.cfg.value, EditedValues(s.fields);
            var start := if s.scope.Global? then WithTemplate(s.files, c) else s.files;
            && (!AnyDirty(s.fields) ==> Save(s).files == s.files)
            && (AnyDirty(s.fields) ==> Save(s).failed == !AllQuotable(values))
            && (AnyDirty(s.fields) && AllQuotable(values) ==>
                  Save(s).files == Edited(start, ScopeFile(c, s.scope), values, ClearedKeys(s.fields)))
            && (AnyDirty(s.fields) && !AllQuotable(values) ==> Save(s).files == start)
  {
    hide EditedValues, ClearedKeys, AllQuotable, Edited, WithTemplate, AnyDirty, MapFields, ScopeFile;
  }

  lemma TouchedTwice(before: map<string, FileData>, between: map<string, FileData>, after: map<string, FileData>,
                     target: string)
    requires OneFileTouched(before, between, target) && OneFileTouched(between, after, target)
    ensures OneFileTouched(before, after, target)
  {
  }

  lemma TemplateTouches(files: map<string, FileData>, c: Config)
    ensures WithTemplate(files, c) ==
            if c.globalPath in files then files else files[c.globalPath := FileData(c.template, 384)]
    ensures OneFileTouched(files, WithTemplate(files, c), c.globalPath) && c.globalPath in WithTemplate(files, c)
  {
  }

  lemma EditTouches(files: map<string, FileData>, target: string, values: map<string, string>, unset: seq<string>)
    requires AllQuotable(values)
    ensures OneFileTouched(files, Edited(files, target, values, unset), target)
    ensures target in files ==> target in Edited(files, target, values, unset)
  {
    hide SetLines, UnsetLines, LinesOf, AllQuotable;
  }
}
