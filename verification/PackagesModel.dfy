/** The packages screen as the object that the key presses update. The shown list lives in a buffer
    with spare room, like a Go slice: a deletion shifts it in place, an addition reuses the room or
    moves to a larger buffer. The list that revert returns to is a separate buffer. */
module PackagesModel {
  import opened Wrappers
  import opened Text
  import opened EnvLine
  import opened EnvEdit
  import opened EnvStore
  import opened S = SettingsScreen
  import opened P = PackagesScreen
  import SettingsModel

  /** splitPackages. */
  method SplitWords(s: string) returns (out: seq<string>)
    ensures out == SplitPackages(s)
  {
    hide Fields;
    var words := Fields(s);
    var seen := {};
    out := [];
    for i := 0 to |words|
      invariant out == AddAll([], words[..i])
      invariant forall w :: w in seen <==> w in out
    {
      assert words[..i + 1][..i] == words[..i];
      if words[i] !in seen {
        seen := seen + {words[i]};
        out := out + [words[i]];
      }
    }
    assert words[..|words|] == words;
  }

  /** containsString, on the first n elements. */
  method ContainsString(list: array<string>, n: nat, s: string) returns (found: bool)
    requires n <= list.Length
    ensures found <==> s in list[..n]
  {
    for i := 0 to n
      invariant s !in list[..i]
    {
      if list[i] == s {
        return true;
      }
    }
    return false;
  }

  /** append([]string(nil), list...). */
  method Copy(list: seq<string>) returns (r: array<string>)
    ensures fresh(r) && r[..] == list
  {
    r := new string[|list|](i requires 0 <= i < |list| => list[i]);
  }

  class PackageModel {
    const dir: ConfigDir
    var cfg: Option<Config>
    var scope: Scope
    var original: array<string>
    var pkgs: array<string>
    var count: nat
    var present: bool
    var originalPresent: bool
    var cursor: nat
    var adding: bool
    var input: string
    var failed: bool
    var confirmed: bool
    var cancelled: bool
    var quit: bool

    ghost function State(): PackageList
      reads this, original, pkgs, dir
      requires Valid()
    {
      PackageList(cfg, dir.files, scope, original[..], pkgs[..count], present, originalPresent, cursor,
                  adding, input, failed, confirmed, cancelled, quit)
    }

    /** The two lists share no storage. */
    ghost predicate Valid()
      reads this
    {
      count <= pkgs.Length && pkgs != original
    }

    ghost predicate Unused(tmp: string)
      reads this, dir
    {
      tmp !in dir.files && (cfg.Some? ==> tmp != cfg.value.globalPath && tmp != cfg.value.storePath)
    }

    /** newPkgModel. */
    constructor (dir: ConfigDir)
      ensures Valid() && this.dir == dir && fresh(pkgs) && fresh(original)
      ensures State() == ResetList(None, dir.files)
    {
      this.dir := dir;
      cfg, scope, cursor, adding, input := None, Global, 0, false, "";
      present, originalPresent := false, false;
      failed, confirmed, cancelled, quit := false, false, false, false;
      original := new string[0];
      pkgs := new string[0];
      count := 0;
    }

    /** Both lists become copies of the same list. */
    method SetLists(list: seq<string>)
      modifies this`original, this`pkgs, this`count
      ensures Valid() && fresh(pkgs) && fresh(original)
      ensures original[..] == list && pkgs[..count] == list
    {
      original := Copy(list);
      pkgs := Copy(list);
      count := pkgs.Length;
    }

    /** loadScope. */
    method LoadScope()
      requires Valid()
      modifies this`present, this`originalPresent, this`original, this`pkgs, this`count
      ensures Valid() && fresh(pkgs) && fresh(original)
      ensures State() == Load(old(State()))
    {
      hide SplitPackages, Parsed, PackagesName;
      present, originalPresent := false, false;
      SetLists([]);
      if cfg.None? {
        return;
      }
      var raw := Parsed(dir.files, ScopeFile(cfg.value, scope));
      var here := PackagesName() in raw;
      var value := if here then raw[PackagesName()] else cfg.value.settings.initPackages;
      present, originalPresent := here, here;
      var list := SplitWords(value);
      SetLists(list);
    }

    /** reset. */
    method Reset(cfg: Option<Config>)
      requires Valid()
      modifies this
      ensures Valid() && fresh(pkgs) && fresh(original)
      ensures State() == ResetList(cfg, dir.files)
    {
      hide Load, ResetList;
      this.cfg := cfg;
      scope := Global;
      ResetIsLoad(State());
      LoadScope();
      ClearMarks();
    }

    /** The part of reset that does not concern the list. */
    method ClearMarks()
      modifies this`cursor, this`adding, this`input, this`failed, this`confirmed, this`cancelled, this`quit
      ensures cursor == 0 && !adding && input == "" && !failed && !confirmed && !cancelled && !quit
    {
      cursor, adding, input := 0, false, "";
      failed, confirmed, cancelled, quit := false, false, false, false;
    }

    /** dirty. */
    method ScanDirty() returns (dirty: bool)
      requires Valid()
      ensures dirty <==> ListDirty(State())
    {
      if present != originalPresent || count != original.Length {
        return true;
      }
      for i := 0 to count
        invariant forall j :: 0 <= j < i ==> pkgs[j] == original[j]
      {
        if pkgs[i] != original[i] {
          assert pkgs[..count][i] != original[..][i];
          return true;
        }
      }
      return false;
    }

    /** append(m.pkgs, p). */
    method Append(p: string)
      requires Valid()
      modifies this`pkgs, this`count, pkgs
      ensures Valid() && (pkgs == old(pkgs) || fresh(pkgs))
      ensures pkgs[..count] == old(pkgs[..count]) + [p]
      ensures old(count) < pkgs.Length
    {
      if count == pkgs.Length {
        ghost var was := pkgs[..count];
        var bigger := new string[2 * count + 1](i reads this, pkgs => if 0 <= i < pkgs.Length then pkgs[i] else "");
        assert bigger[..count] == was;
        pkgs := bigger;
      }
      pkgs[count] := p;
      count := count + 1;
    }

    /** The loop of updateAdding. */
    method AppendNew(words: seq<string>) returns (added: nat)
      requires Valid()
      modifies this`pkgs, this`count, pkgs
      ensures Valid() && (pkgs == old(pkgs) || fresh(pkgs))
      ensures pkgs[..count] == AddAll(old(pkgs[..count]), words)
      ensures count == old(count) + added
    {
      ghost var list := pkgs[..count];
      added := 0;
      for i := 0 to |words|
        invariant Valid() && (pkgs == old(pkgs) || fresh(pkgs))
        invariant pkgs[..count] == AddAll(list, words[..i])
        invariant count == old(count) + added
      {
        assert words[..i + 1][..i] == words[..i];
        var known := ContainsString(pkgs, count, words[i]);
        if !known {
          Append(words[i]);
          added := added + 1;
        }
      }
      assert words[..|words|] == words;
    }

    /** The enter key while adding. */
    method AddEntered()
      requires Valid() && adding
      modifies this`adding, this`input, this`failed, this`cursor, this`present, this`pkgs, this`count, pkgs
      ensures Valid() && (pkgs == old(pkgs) || fresh(pkgs))
      ensures State() == AddTyped(old(State()))
    {
      hide SplitPackages, AddAll;
      var words := SplitWords(input);
      var added := AppendNew(words);
      CloseInput(added > 0);
    }

    method CloseInput(grew: bool)
      requires Valid()
      modifies this`adding, this`input, this`failed, this`cursor, this`present
      ensures !adding && input == "" && !failed
      ensures cursor == if grew then LastIndex(pkgs[..count]) else old(cursor)
      ensures present == (old(present) || grew)
    {
      adding, input, failed := false, "", false;
      if grew {
        cursor, present := if count > 0 then count - 1 else 0, true;
      }
    }

    /** updateAdding. */
    method UpdateAdding(p: PackagePress)
      requires Valid() && adding
      modifies this`adding, this`input, this`failed, this`cursor, this`present, this`pkgs, this`count, pkgs
      ensures Valid() && (pkgs == old(pkgs) || fresh(pkgs))
      ensures State() == P.UpdateAdding(old(State()), p)
    {
      hide AddTyped;
      if p.key.Esc? {
        adding := false;
      } else if p.key.Enter? {
        AddEntered();
      } else {
        input := p.typed;
      }
    }

    /** append(m.pkgs[:i], m.pkgs[i+1:]...): everything behind i moves one place to the left. */
    method RemoveAt(i: nat)
      requires Valid() && i < count
      modifies this`count, pkgs
      ensures Valid() && pkgs[..count] == old(pkgs[..i] + pkgs[i + 1..count])
    {
      ghost var was := pkgs[..count];
      for j := i to count - 1
        invariant count == old(count)
        invariant forall k :: 0 <= k < i ==> pkgs[k] == was[k]
        invariant forall k :: i <= k < j ==> pkgs[k] == was[k + 1]
        invariant forall k :: j <= k < count ==> pkgs[k] == was[k]
      {
        pkgs[j] := pkgs[j + 1];
      }
      count := count - 1;
      Shifted(was, pkgs[..count], i);
      assert was[..i] == old(pkgs[..i]) && was[i + 1..] == old(pkgs[i + 1..count]);
    }

    /** The d, x and delete keys. */
    method DeleteSelected()
      requires Valid() && !adding
      modifies this`count, this`cursor, this`present, this`failed, pkgs
      ensures Valid()
      ensures State() == DeleteAt(old(State()))
    {
      if cursor < count {
        ghost var rest := pkgs[cursor + 1..count];
        assert pkgs[..count][cursor + 1..] == rest && pkgs[..count][..cursor] == pkgs[..cursor];
        RemoveAt(cursor);
        if cursor >= count {
          cursor := if count > 0 then count - 1 else 0;
        }
        present, failed := true, false;
      }
    }

    /** The u key. */
    method Revert()
      requires Valid() && !adding
      modifies this`pkgs, this`count, this`present, this`cursor, this`failed
      ensures Valid() && fresh(pkgs)
      ensures State() == RevertList(old(State()))
    {
      ShowSaved();
      cursor, failed := 0, false;
    }

    /** What is saved is shown again, from a copy. */
    method ShowSaved()
      requires Valid()
      modifies this`pkgs, this`count, this`present
      ensures Valid() && fresh(pkgs) && pkgs[..count] == original[..] && present == originalPresent
    {
      pkgs := Copy(original[..]);
      count := original.Length;
      present := originalPresent;
    }

    /** toggleScope. */
    method ToggleScope()
      requires Valid() && !adding
      modifies this`scope, this`cursor, this`failed
      modifies this`present, this`originalPresent, this`original, this`pkgs, this`count
      ensures Valid() && (pkgs == old(pkgs) || fresh(pkgs)) && (original == old(original) || fresh(original))
      ensures State() == ToggleListScope(old(State()))
    {
      hide ListDirty, Load, OtherScope;
      var dirty := ScanDirty();
      if dirty {
        failed := true;
        return;
      }
      SwitchScope();
    }

    method SwitchScope()
      requires Valid()
      modifies this`scope, this`cursor, this`failed
      modifies this`present, this`originalPresent, this`original, this`pkgs, this`count
      ensures Valid() && fresh(pkgs) && fresh(original)
      ensures State() == Load(old(State()).(scope := OtherScope(old(scope)))).(cursor := 0, failed := false)
    {
      hide Load;
      scope := OtherScope(scope);
      ghost var before := State();
      LoadScope();
      LoadKeepsMarks(before);
      cursor, failed := 0, false;
    }

    /** clearOverride. */
    method ClearOverride()
      requires Valid() && !adding
      modifies this`present, this`failed
      ensures Valid()
      ensures State() == ClearList(old(State()))
    {
      if scope.Global? || !present {
        return;
      }
      present, failed := false, false;
    }

    /** The one rewrite of a save. */
    method WriteList(target: string, tmp: string) returns (ok: bool)
      requires Valid() && tmp != target && tmp !in dir.files
      modifies dir
      ensures ok <==> !(present && HasBothQuotes(JoinWords(pkgs[..count])))
      ensures !ok ==> dir.files == old(dir.files)
      ensures ok ==> dir.files == ListWritten(old(dir.files), target, pkgs[..count], present)
    {
      hide AfterSet, AfterUnset, JoinWords, HasBothQuotes, PackagesName;
      if present {
        var value := JoinWords(pkgs[..count]);
        OneValueQuotable(PackagesName(), value);
        var r := dir.SetEnvValues(target, map[PackagesName() := value], tmp, Completes);
        return r == Written;
      }
      var _ := dir.UnsetEnvValues(target, [PackagesName()], tmp, Completes);
      assert (set k | k in [PackagesName()]) == {PackagesName()};
      return true;
    }

    /** save. */
    method Save(tmp: string)
      requires Valid() && !adding && Unused(tmp)
      modifies this`original, this`originalPresent, this`failed, dir
      ensures Valid() && (original == old(original) || fresh(original))
      ensures State() == SaveList(old(State()))
    {
      hide ListWritten, JoinWords, HasBothQuotes, ListDirty;
      if cfg.None? {
        failed := true;
        return;
      }
      var dirty := ScanDirty();
      if !dirty {
        failed := false;
        return;
      }
      var target := ScopeFile(cfg.value, scope);
      if scope.Global? {
        SettingsModel.WriteEnvTemplates(dir, cfg.value);
      }
      var ok := WriteList(target, tmp);
      if !ok {
        failed := true;
        return;
      }
      KeepSaved();
      failed := false;
    }

    /** What was shown is now what is saved. */
    method KeepSaved()
      requires Valid()
      modifies this`original, this`originalPresent
      ensures Valid() && fresh(original) && original[..] == pkgs[..count] && originalPresent == present
    {
      original := Copy(pkgs[..count]);
      originalPresent := present;
    }

    /** The esc and q keys. */
    method Leave()
      requires Valid() && !adding
      modifies this`failed, this`confirmed, this`cancelled
      ensures Valid()
      ensures State() == LeaveList(old(State()))
    {
      hide ListDirty;
      var dirty := ScanDirty();
      if dirty && !confirmed {
        failed, confirmed := true, true;
        return;
      }
      cancelled := true;
    }

    /** The keys that leave the list alone. */
    method MoveCursor(key: PackageKey)
      requires Valid() && !adding
      modifies this`cursor, this`adding, this`failed, this`input, this`quit
      ensures Valid()
      ensures State() == Move(old(State()), key)
    {
      if key.Add? {
        adding, failed, input := true, false, "";
      } else if key.CtrlC? {
        quit := true;
      } else if key.Up? && cursor > 0 {
        cursor := cursor - 1;
      } else if key.Down? && cursor + 1 < count {
        cursor := cursor + 1;
      } else if key.Home? {
        cursor := 0;
      } else if key.End? {
        cursor := if count > 0 then count - 1 else 0;
      }
    }

    /** Update. */
    method Update(p: PackagePress, tmp: string)
      requires Valid() && Unused(tmp)
      modifies this, pkgs, dir
      ensures Valid() && (pkgs == old(pkgs) || fresh(pkgs)) && (original == old(original) || fresh(original))
      ensures State() == UpdateList(old(State()), p)
    {
      hide LeaveList, DeleteAt, RevertList, SaveList, ToggleListScope, ClearList, Move, P.UpdateAdding;
      if adding {
        UpdateAdding(p);
        return;
      }
      if !Leaves(p) {
        confirmed := false;
      }
      match p.key {
        case Esc => Leave();
        case Quit => Leave();
        case Delete => DeleteSelected();
        case Revert => Revert();
        case SaveKey => Save(tmp);
        case Tab => ToggleScope();
        case Clear => ClearOverride();
        case _ => MoveCursor(p.key);
      }
    }

    // ---- whole runs ----

    /** The presses of a run, one after the other. */
    method Play(presses: seq<PackagePress>, tmp: string)
      requires Valid() && Unused(tmp)
      modifies this, pkgs, dir
      ensures Valid() && Unused(tmp)
      ensures (pkgs == old(pkgs) || fresh(pkgs)) && (original == old(original) || fresh(original))
      ensures State() == RunList(old(State()), presses)
    {
      hide UpdateList, RunList;
      ghost var start := State();
      RunsNothing(start);
      for i := 0 to |presses|
        invariant Valid() && Unused(tmp)
        invariant (pkgs == old(pkgs) || fresh(pkgs)) && (original == old(original) || fresh(original))
        invariant State() == RunList(start, presses[..i])
      {
        ghost var before := State();
        UpdateListFiles(before, presses[i]);
        Update(presses[i], tmp);
        TmpStaysUnused(before, State(), tmp);
        RunsOneMore(start, presses, i);
      }
      assert presses[..|presses|] == presses;
    }

    /** The screen is opened and used: afterwards the object's own buffers hold no word twice, the
        saved buffer agrees with the file of its scope, and the discard guard is armed only by an
        escape just pressed. */
    method Use(cfg: Config, presses: seq<PackagePress>, tmp: string)
      requires Valid() && ConfigOk(cfg) && OneLineEach(cfg, dir.files)
      requires tmp !in dir.files && tmp != cfg.globalPath && tmp != cfg.storePath
      modifies this, pkgs, dir
      ensures Valid() && Unused(tmp) && fresh(pkgs) && fresh(original) && this.cfg == Some(cfg)
      ensures State() == RunList(ResetList(Some(cfg), old(dir.files)), presses)
      ensures NoDup(pkgs[..count]) && NoDup(original[..])
      ensures FiledList(dir.files, ScopeFile(cfg, scope)) == if originalPresent then Some(original[..]) else None
      ensures confirmed ==> !adding && presses != [] && Leaves(presses[|presses| - 1])
    {
      hide RunList, ResetList, ConfigOk, OneLineEach, FiledList, NoDup;
      ghost var files := dir.files;
      Reset(Some(cfg));
      ResetKeeps(Some(cfg), files);
      Play(presses, tmp);
      RunTells(cfg, files, presses);
      assert State().cfg == Some(cfg);
    }

    /** After such a use, any further presses that neither save nor switch scope, and then the revert
        key: the shown buffer holds again what the saved buffer held, which is still the same list. */
    method EditAndRevert(presses: seq<PackagePress>, revert: PackagePress, tmp: string) returns (reverted: bool)
      requires Valid() && Unused(tmp) && !ListDirty(State()) && EditsOnly(State(), presses) && revert.key.Revert?
      modifies this, pkgs, dir
      ensures Valid()
      ensures reverted ==> pkgs[..count] == old(pkgs[..count]) && original[..] == old(original[..])
      ensures reverted ==> present == old(present) && dir.files == old(dir.files)
    {
      hide RunList, EditsOnly, UpdateList;
      ghost var start := State();
      Play(presses, tmp);
      reverted := !adding;
      Update(revert, tmp);
      if reverted {
        RevertRestoresList(start, presses, revert);
        CleanShows(start);
        CleanShows(State());
      }
    }
  }

  lemma CleanShows(s: PackageList)
    requires !ListDirty(s)
    ensures s.original == s.pkgs && s.present == s.originalPresent
  {
  }

  lemma RunsNothing(s: PackageList)
    ensures RunList(s, []) == s
  {
  }

  lemma RunsOneMore(s: PackageList, presses: seq<PackagePress>, i: nat)
    requires i < |presses|
    ensures RunList(s, presses[..i + 1]) == UpdateList(RunList(s, presses[..i]), presses[i])
  {
    hide UpdateList;
    assert presses[..i + 1][..i] == presses[..i];
  }

  lemma TmpStaysUnused(s: PackageList, t: PackageList, tmp: string)
    requires OwnListFiles(s, t) && tmp !in s.files
    requires s.cfg.Some? ==> tmp != s.cfg.value.globalPath && tmp != s.cfg.value.storePath
    ensures tmp !in t.files
  {
  }

  lemma ResetKeeps(cfg: Option<Config>, files: map<string, FileData>)
    ensures ResetList(cfg, files).files == files && ResetList(cfg, files).cfg == cfg
  {
    hide FileList, Parsed;
  }

  lemma RunTells(cfg: Config, files: map<string, FileData>, presses: seq<PackagePress>)
    requires ConfigOk(cfg) && OneLineEach(cfg, files)
    ensures var s := RunList(ResetList(Some(cfg), files), presses);
            && s.cfg == Some(cfg)
            && NoDup(s.pkgs) && NoDup(s.original)
            && FiledList(s.files, ScopeFile(cfg, s.scope)) == (if s.originalPresent then Some(s.original) else None)
            && (s.confirmed ==> !s.adding && presses != [] && Leaves(presses[|presses| - 1]))
  {
    hide RunList, ResetList, ConfigOk, OneLineEach, FiledList, NoDup;
    ListStaysDistinct(Some(cfg), files, presses);
    ListCacheAgrees(Some(cfg), files, presses);
    GuardOverRun(Some(cfg), files, presses);
    ListKeepsConfig(ResetList(Some(cfg), files), presses);
    ResetKeeps(Some(cfg), files);
  }

  lemma Shifted(was: seq<string>, now: seq<string>, i: nat)
    requires i < |was| && |now| == |was| - 1
    requires forall k :: 0 <= k < i ==> now[k] == was[k]
    requires forall k :: i <= k < |now| ==> now[k] == was[k + 1]
    ensures now == was[..i] + was[i + 1..]
  {
  }

  lemma LoadKeepsMarks(s: PackageList)
    ensures var t := Load(s);
            && t.cfg == s.cfg && t.files == s.files && t.scope == s.scope
            && t.cursor == s.cursor && t.adding == s.adding
            && t.input == s.input && t.failed == s.failed && t.confirmed == s.confirmed && t.cancelled == s.cancelled
            && t.quit == s.quit
  {
    hide FileList, Parsed;
  }

  lemma ResetIsLoad(s: PackageList)
    requires s.scope.Global?
    ensures ResetList(s.cfg, s.files) ==
            Load(s).(cursor := 0, adding := false, input := "", failed := false, confirmed := false,
                cancelled := false, quit := false)
  {
    hide FileList, Parsed;
  }

  lemma OneValueQuotable(k: string, v: string)
    ensures AllQuotable(map[k := v]) <==> !HasBothQuotes(v)
  {
    hide HasBothQuotes;
    assert k in map[k := v];
  }
}
