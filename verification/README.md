# Smith Jail: a verified model

Smith Jail runs coding agents in containers. This project models the parts of it that keep state
and that other parts rely on, and proves what they keep, in Dafny 4.11. `dafny verify dfyconfig.toml`
checks all of it.

## What is modelled

**The env-file store and its screens.** `EnvLine`, `EnvEdit` and `EnvFile` model the lines and the
text of a `KEY=value` file: the parser, the in-place editor, the quoting. `EnvStore` holds the
directory object on which edits act, with every failing call and every point of process death.
`Layers` resolves the eleven `JAIL_*` settings from defaults, global file, project store and
environment. `SettingsScreen` and `PackagesScreen` say what each key press does to the two editing
screens, as values, and prove what holds over every key sequence; `SettingsModel` and
`PackagesModel` are the same screens as objects with arrays that are overwritten in place, each
method proved to do what the value says; `SettingsLaws` and `PackagesLaws` say what every key means
on the rows and lists themselves, and that no pending edit is lost unnoticed. `SettingsEffect` proves what a saved row means for the
configuration that is loaded afterwards, `SettingsFaults` what a save leaves when one of its writes
fails or a file assigns a key twice. `Text` and `Order` hold the string functions and the sort
that all of these use, `Agents` the names that several parts share.

**The network jail.** `Policy` is the proxy's shared allow-list and its DNS handler. `JailSystem` is
the transition system of nft rules, connection tracking, in-flight queries and in-flight relay
connections, interleaved in any order, with `ServeDNS` and `handle` broken into their atomic steps.
`Splice` is the relay's byte pump over two sockets, each with a read and a write half. `NetworkJail`
is the staged set-up with rollback at every failing call, for one session; `JailSessions` interleaves
the calls of any number of sessions on one Docker daemon.

**Builds, logs, command lines.** `EnsureImage` is double-checked locking across processes. `Tail`
assembles log lines from partial reads. `HashFraming` is the byte string that is hashed for an
embedded source tree. `Flags` is the argument reordering together with a model of Go's flag
parser, `FlagLaws` what a typed command line means. `Recents` and `Sessions` are the bounded recent-projects list and the active-session table.

Code that changes things step by step is a class or a method with a loop, proved equal to a
specification function; the main theorems are lemmas about those functions. The protocols are
transition systems on values, because their interleavings are the subject.

## What the proofs show about the code

- `SetEnvValues` rewrites the first active line of a key while `parseEnvFile` believes the last one,
  and an unquoted value loses whitespace other than blanks and tabs at its ends.
  `EnvEdit.SetRefinesUpdate` gives the parsed map after an edit for every file,
  `EnvEdit.SetIsMapUpdateIff` the exact condition under which it is a map update, and
  `EnvEdit.DuplicateKeepsOldValue` an input for each way to fail. For one value and whole files the
  condition is `EnvFile.ValueSurvivesIff`.
- A boolean row whose file holds another spelling of true ("1", "T", "TRUE") does not change its
  setting when it is toggled in global scope, and goes straight to inherited in project scope:
  `SettingsScreen.ToggleChangesIff`, `SettingsScreen.OneIsNotToggled`.
- A value flag at the very end of a command line, without its value, swallows the first leftover
  argument once it has been moved to the front (`Flags.DanglingTakesDirectory`).
  `Flags.PositionIndependentIff` gives the exact condition for position independence. The comment at
  `main.go:222-232` promises it without one.
- `normalizeHost` is not idempotent; `Policy.NormalizeIdempotentIff` says for which names it is. The
  jail does not need it to be, because check and learn normalize the same name once.
- The comment at `network.go:62-63` says that session ids make network names unique. The code names
  the network by agent and project: `JailSessions.NameSharedIff`. Sessions of one project therefore
  touch: `JailSessions.SweepTakesIff` says exactly when one sweeps the other's network,
  `JailSessions.CleanupLeavesIff` exactly when a clean-up leaves its network behind, and
  `JailSessions.OneProjectMayLeak` is a run in which that happens. No session ever loses its proxy or
  the network under it (`JailSessions.OthersKeepProxy`), and as long as no two sessions of one agent
  and project are live at once, every session cleans up after itself
  (`JailSessions.OneAtATimeLeavesNothing`).
- A save of the settings screen makes two writes. If the first goes through and the second fails, the
  rows contradict the file until a save succeeds, and the revert key hides that:
  `SettingsFaults.FailedSaveAgreesIff`, `SettingsFaults.RetryAgrees`,
  `SettingsFaults.SecondFailureLeavesStaleRows`.

## Model

| member | source | states |
|---|---|---|
| EnvLine.KeyOfLine | envedit.go:193-214 | An uncommented line has a key exactly when the parser reads a key-shaped name from it, and then that name; a line taken as a commented-out assignment is one the parser ignores. |
| EnvLine.UncommentedKey | envedit.go:193-214 | A commented-out line has exactly the key that it would have as an active line with its leading hashes removed, and a line without a hash has none. |
| EnvLine.KeyExact | envedit.go:193-214 | A text is a key exactly when it is made of the letters A to Z, the digits and the underscore and starts with no digit. |
| EnvLine.ParseLineExact | config.go:421-452 | How any line with a key is read: the text before the first '=' as key and the text behind it as value, both without the whitespace around them, the value also without one pair of quotes. |
| EnvLine.ParsesNothing | config.go:421-452 | A line without '=', a blank line and a comment assign nothing. |
| EnvLine.StripExact | config.go:447-452 | Quotes come off exactly as one pair of the same kind around the whole value. |
| EnvLine.Quote | envedit.go:223-239 | Quoting fails exactly for values that hold both quote characters; otherwise its result strips back to the value, is the value itself exactly when no quotes are needed, and has no whitespace at its ends when they are. |
| EnvLine.QuoteExact | envedit.go:223-239 | By the characters of the value alone: what is written is the value in single quotes, in double quotes, or as it is; nothing for a value with both kinds of quotes. |
| EnvLine.ReadBackIff | envedit.go:223-239 | Through the written text key=value: the parser gives the value back if and only if it is empty, holds a blank, a tab, a quote or a '#', or has no whitespace at its ends; otherwise it gives the value without that whitespace. |
| EnvLine.AssignParses | envedit.go:223-239 | Round trip of one line: the written assignment is read back under its key, is an active line and not a commented one, and gives the value unchanged if and only if the value is empty, holds a blank, a tab, a quote or a '#', or has no whitespace at its ends. |
| EnvLine.AssignNewlineFree | envedit.go:223-239 | A newline-free value is written as a single line. |
| EnvEdit.ParseLookup | config.go:421-445 | A key is in the parsed map exactly when some line assigns it, and its value is that of the last such line. |
| EnvEdit.ParseEnvLines | config.go:421-445 | The parser's loop computes the last-assignment-wins map of its lines. |
| EnvEdit.AssignedConcat | config.go:421-445 | The assignments of two stretches of lines are those of the first followed by those of the second. |
| EnvEdit.SetAssigned | envedit.go:42-102 | For every file and key: after the edit the list of values assigned to a requested key is the old list with its first entry replaced by the new value (or just the new value); every other key's list is unchanged. |
| EnvEdit.SetRefinesUpdate | envedit.go:42-102 | For every file: parsing after the edit gives the old map overridden by the new values, except exactly the keys with two or more active lines, which keep their old value. |
| EnvEdit.SetIsMapUpdate | envedit.go:42-102 | With at most one active line per edited key and storable values the edit is a map update through the text, and each edited key then has exactly one active line. |
| EnvEdit.SetIsMapUpdateIff | envedit.go:42-102 | The edit is a map update of what the parser reads if and only if every key with at most one active line has a storable value and every key with more already reads as the requested value. |
| EnvEdit.DuplicateKeepsOldValue | envedit.go:53-66 | Two failing inputs: a key on two active lines keeps its old value, and a value ending in a carriage return comes back without it. |
| EnvEdit.SetFrame | envedit.go:42-102 | Each requested key is written once: over its own target line, or else behind the old lines, where there is nothing without new keys and otherwise at most one blank and then one line per new key in key order; no two keys share a line; every other line is identical at its index. |
| EnvEdit.SetPlaces | envedit.go:53-80 | A requested key is written over the first line that the parser reads as its assignment; if there is none, over the first commented-out one; if there is none of those either, behind the old lines. |
| EnvEdit.SetOthers | envedit.go:53-80 | Every other old line is unchanged at its index. |
| EnvEdit.BlankBeforeNew | envedit.go:88-99 | New keys are set off by a blank line exactly when the line before them has something other than whitespace on it. |
| EnvEdit.FirstWritten | envedit.go:42-102 | After the edit the first active line of each requested key is the one that was written. |
| EnvEdit.SetIdempotent | envedit.go:42-102 | Editing twice with the same values gives the lines of editing once, also with duplicate active lines. |
| EnvEdit.UnsetAssigned | envedit.go:109-137 | Unsetting drops every assignment of the named keys, duplicates included, and no other. |
| EnvEdit.UnsetRefinesRemoval | envedit.go:109-137 | For every file, parsing after an unset is the old map minus the key-shaped names given. |
| EnvEdit.UnsetFrame | envedit.go:109-137 | The written lines are old lines, with their text unchanged and in their order, by an increasing map of places; a place is left out if and only if its line assigns one of the named keys, so comments and blank lines stay. |
| EnvEdit.SetThenUnset | envedit.go:109-137 | Setting keys and unsetting them again parses as unsetting them alone. |
| EnvEdit.CompactKept | envedit.go:109-137 | The compaction into the very array that is being read leaves the lines of the specified unset, whose frame is UnsetFrame. |
| EnvFile.ReadThenWrite | envedit.go:141-189 | Reading a file's lines and writing them back gives the same bytes, with a newline added at the end if there was none. |
| EnvFile.WriteThenRead | envedit.go:163-189 | Lines that were written are read back, except that a single empty line reads as no lines. |
| EnvFile.ScanIsSplit | config.go:421-445 | The parser's scanner and the editor's split cut every text at the same places, up to a carriage return. |
| EnvFile.CrDropped | config.go:421-445 | One carriage return comes off the end of a scanned line, and nothing else. |
| EnvFile.ParseTextIsParseLines | config.go:421-445 | The parser sees in a text exactly what it would see in the editor's lines of it. |
| EnvFile.SetTextReads | envedit.go:42-102 | Reading the written bytes gives the edited lines again. |
| EnvFile.SetTextRefinesUpdate | envedit.go:42-102 | On whole file contents: parsing the written bytes is the old map overridden by the values that take effect. |
| EnvFile.SetTextIdempotent | envedit.go:42-102 | Writing the same values twice gives the same bytes as writing them once. |
| EnvFile.UnsetTextRefinesRemoval | envedit.go:109-137 | On whole file contents: unsetting is removal from the parsed map. |
| EnvFile.ParsedNewlineFree | config.go:421-445 | No value that the parser returns holds a newline. |
| EnvFile.CommentsAssignNothing | config.go:421-445 | A text whose lines are all blank or comments parses to nothing. |
| EnvFile.ValueSurvivesIff | envedit.go:42-102 | With at most one active line for its key, a quotable value is read back unchanged if and only if it holds no newline and is empty, holds a blank, a tab, a quote or a '#', or has no whitespace at its ends. |
| EnvStore.RewritePass | envedit.go:53-80 | One pass over the lines overwrites the first matching line of each pending key in place, removes those keys from the pending map, and stops at a value that cannot be quoted. |
| EnvStore.PassesCompose | envedit.go:53-80 | The active pass followed by the commented pass rewrites exactly the target lines and leaves exactly the keys that had neither kind of line. |
| EnvStore.EditLines | envedit.go:42-102 | The in-memory edit fails exactly when some value holds both quote characters, naming such a key, and otherwise produces the specified lines. |
| EnvStore.SortedKeys | envedit.go:82-87 | Whatever order the map is ranged over, the appended keys come out in sorted order. |
| EnvStore.AppendPending | envedit.go:82-99 | Pending keys are appended in key order behind one separating blank line when the text does not end in one. |
| EnvStore.ConfigDir.FillTemp | envedit.go:163-186 | Up to the rename, the directory is as before but for a filled temporary file with its mode; a failed call removes that file, a dead process leaves it. |
| EnvStore.ConfigDir.WriteEnvLines | envedit.go:163-189 | For every failing call and every point of process death, the file holds its whole old or its whole new content; only a dead process leaves its temporary file. |
| EnvStore.ConfigDir.SetEnvValues | envedit.go:42-102 | Apart from I/O it fails exactly when some value holds both quote characters, and then nothing is written; on success only the edited path changes, to the specified bytes, with its mode kept, or 0600 if it is new. |
| EnvStore.ConfigDir.UnsetEnvValues | envedit.go:109-137 | On success only the named file changes, to the lines of the specified unset (UnsetFrame) with its mode kept; a missing file stays missing and is no error. |
| EnvStore.ParsedIsParseLines | config.go:421-445 | What a path parses to is what its lines parse to; a missing file reads as empty. |
| EnvStore.AfterSetParses | envedit.go:42-102 | A completed edit changes what the edited path parses to by the effective values, and no other path. |
| EnvStore.AfterUnsetParses | envedit.go:109-137 | A completed unset removes the keys from what the path parses to and touches no other path. |
| Order.IncreasingUnique | envedit.go:82-87 | Two strictly increasing listings of the same keys are equal, so sorting removes the map's iteration order. |
| Order.LeqExact | envedit.go:82-87 | The order is that of the first differing character, and a text comes before its extensions. |
| Layers.Config.ApplyJailEnv | config.go:466-519 | Assigning the fields key by key gives the layered settings, and marks exactly the keys that the file holds. |
| Layers.Config.LoadProjectOverrides | config.go:525-542 | The project store is applied over the settings, and the overridden keys are exactly the known keys in the store. |
| Layers.Config.ApplyEnvOverrides | config.go:688-724 | Environment variables override by being non-empty. |
| Layers.LoadConfig | config.go:323-416 | Loading resolves defaults, global file, project store and environment in that order. |
| Layers.LayerByKey | config.go:466-519 | One layer changes exactly the settings whose keys it holds, each to its decoded value. |
| Layers.HighestLayerWins | config.go:323-416 | Each of the eleven settings is the decoded value of the highest layer that supplies it: files by presence even if empty, the environment only if non-empty, a bad boolean as false. |
| Layers.TextsByName | config.go:323-416 | The five text settings and the host list, each under the name that users write, with its literal default. |
| Layers.FlagsByName | config.go:323-416 | The five switches likewise: six spellings of true turn one on, any other text turns it off, and all start off but the network jail, which starts as the platform has it. |
| Layers.CleanEditParses | envedit.go:42-102 | For edits of known keys with storable values and no duplicate lines, a completed write is a map update of what the file parses to. |
| Layers.StoreEditMovesOnlyItsKeys | config.go:525-542 | Setting keys in the project store moves exactly those settings, unless the environment supplies them. |
| Layers.StoreUnsetRestoresGlobal | envedit.go:109-137 | Unsetting keys in the store restores their result without the store, unless the environment supplies them, and moves nothing else. |
| Layers.NamesAreKeys | config.go:466-519 | All eleven setting names have the shape that the editor recognises as a key. |
| SettingsScreen.BuildFields | tui_settings.go:113-154 | One row per listed key, in order, each with the file's value or the merged one and the file's presence. |
| SettingsScreen.CacheAgreesWithFile | tui_settings.go:199-450 | In every state reachable by any keys, scope switches, reverts, saves and saves of the packages screen, a field is cached as present exactly when the active file parses with its key, and then with its parsed value. |
| SettingsScreen.RunInv | tui_settings.go:199-450 | The screen's invariant (rows, cursor, faithful cache, storable pending edits, no duplicate lines) holds after every run of events. |
| SettingsScreen.UpdateKeepsInv | tui_settings.go:199-259 | Every key press keeps the invariant. |
| SettingsScreen.EditedExact | tui_settings.go:418-429 | A save writes exactly the dirty present fields, each with its shown value. |
| SettingsScreen.ClearedExact | tui_settings.go:418-429 | A save unsets exactly the dirty absent fields. |
| SettingsScreen.SaveExact | tui_settings.go:397-450 | A successful save changes what the active file parses to by exactly the dirty fields, leaves the other file's meaning alone, and leaves no key assigned twice. |
| SettingsScreen.SaveFieldsOk | tui_settings.go:444-448 | After a successful save every field's saved part agrees with the file again. |
| SettingsScreen.TemplateParses | config.go:750-781 | Writing a template that assigns nothing for a missing global file changes nothing that any file parses to. |
| SettingsScreen.CommentedTemplateOk | config.go:27-83 | A template whose lines are all blank or comments, as the shipped one's are, is one that assigns nothing. |
| SettingsScreen.PackagesKeepInv | tui_packages.go:291-327 | A save of the packages screen, which edits the same files, keeps the settings cache right. |
| SettingsScreen.ConfirmedStep | tui_settings.go:199-259 | The discard guard is armed only by an escape outside the editor and is disarmed by every other key. |
| SettingsScreen.LeftDirtyOnlyOnPurpose | tui_settings.go:199-259 | Over every key sequence, the screen is left with unsaved changes only by two consecutive presses of esc or q, or by ctrl+c. |
| SettingsLaws.NoEditLost | tui_settings.go:199-259 | No pending edit disappears unnoticed: if an event changes a pending row's value, presence or saved part, it was the revert key, a save that did not fail, or an edit of that very row; scope and number of rows stay. |
| SettingsLaws.EditStaysPending | tui_settings.go:199-259 | Over every run, saves of the packages screen included: a pending row is as it was, in the same scope, unless some event of the run was of that kind. |
| SettingsLaws.TabKeepsEdits | tui_settings.go:264-269 | The tab key on a screen with a pending row changes neither scope nor rows nor files, and says so. |
| SettingsLaws.TabShowsOtherScope | tui_settings.go:264-281 | On a screen without pending rows it goes to the other scope, whose rows show the file's texts and presence. |
| SettingsLaws.RowNames | tui_settings.go:113-154 | The nine rows, in order, by the names of their keys. |
| SettingsLaws.EscapeLeaves | tui_settings.go:199-219 | The esc and q keys leave a screen without pending rows at once and one with pending rows only when pressed again; rows never change. |
| SettingsLaws.KeysMoveCursor | tui_settings.go:218-234 | Up and down move by one row and stop at the ends, ctrl+c quits, other keys do nothing. |
| SettingsLaws.RevertRestores | tui_settings.go:240-246 | The revert key gives every row its saved value and presence back. |
| SettingsLaws.ClearUnsets | tui_settings.go:286-293 | The clear key takes a set row of the project scope back to inheriting and does nothing else. |
| SettingsLaws.EnterActs | tui_settings.go:298-338 | Space and enter open the packages screen on the first row, change the selected boolean row and no other, or open the editor on the selected row's text. |
| SettingsLaws.InputMadeOneLine | tui_settings.go:298-318 | A tab or line break of the row's text becomes a blank in the editor, and of a longer text the first 512 characters are taken. |
| SettingsLaws.EditorActs | tui_settings.go:340-364 | In the editor esc and typing leave every row alone; enter stores the text without the whitespace around it in the selected row only, or keeps the editor open if it is not acceptable. |
| SettingsLaws.AcceptableExact | tui_settings.go:368-392 | A memory limit is a number with one of four units, a CPU limit a number above zero, a base image not empty; every other text goes. |
| SettingsLaws.SaveKeyActs | tui_settings.go:397-450 | A save fails exactly without a configuration or for a pending value that cannot be quoted; it changes no shown value or presence, and one that goes through leaves no row pending. |
| SettingsLaws.SaveTouchesOneFile | tui_settings.go:397-450 | A save touches the file of its scope alone and keeps its mode; a new file is private, and a global save that fails leaves that file as it was, or as the bare template. |
| SettingsScreen.ToggleChangesIff | tui_settings.go:324-338 | For every text in a file: a toggle in global scope changes the setting if and only if the row shows "true" or reads as false; in project scope a set row goes to false exactly from "true" and is otherwise unset. |
| SettingsScreen.ToggleCycles | tui_settings.go:324-338 | Two toggles in global scope give the same text back exactly for "true" and "false"; three in project scope always give the same presence back, and the same meaning for a set row unless it shows another spelling of true. |
| SettingsScreen.OneIsNotToggled | tui_settings.go:324-338 | A failing input: a row that shows "1" stays true when toggled in global scope and is unset at once in project scope. |
| SettingsModel.ScanDirty | tui_settings.go:190-197 | The scan reports dirty exactly when some field is. |
| SettingsModel.RevertFields | tui_settings.go:240-246 | The in-place loop restores value and presence of every field from its saved part. |
| SettingsModel.MarkAllSaved | tui_settings.go:444-447 | The in-place loop makes every field's saved part its shown part. |
| SettingsModel.CollectEdits | tui_settings.go:418-429 | The loop collects exactly the values to write and the keys to unset. |
| SettingsModel.WriteEnvTemplates | config.go:750-781 | The global file is created from the template only when it is absent. |
| SettingsModel.Model.LoadScope | tui_settings.go:113-154 | The field array becomes the rows of the active scope's file. |
| SettingsModel.Model.Reset | tui_settings.go:90-104 | The object is the freshly reset screen, on the global scope. |
| SettingsModel.Model.ToggleScope | tui_settings.go:264-281 | While some row is pending, neither the scope nor the field array nor any element of it changes and the refusal is reported; otherwise the other scope with its rows reloaded. |
| SettingsModel.Model.ClearOverride | tui_settings.go:286-293 | Clears the selected override in project scope only, leaving all other fields as they were. |
| SettingsModel.Model.Activate | tui_settings.go:298-318 | Opens the packages screen, toggles the selected boolean or opens the editor on the selected text. |
| SettingsModel.Model.UpdateEditing | tui_settings.go:340-364 | Commits a trimmed valid value to the selected field only; an invalid one changes no field. |
| SettingsModel.Model.CommitEdit | tui_settings.go:347-358 | The enter key stores the trimmed value and presence in the selected element only, or refuses it and stores nothing. |
| SettingsModel.Model.WriteEdits | tui_settings.go:431-442 | For every fate of the two writes: nothing is written if the first fails, only the values if the second fails, and both otherwise; success is reported exactly in the last case. |
| SettingsModel.Model.Save | tui_settings.go:397-450 | For every fate of the two writes the object and the shared directory after a save are those of the specified save. |
| SettingsModel.Model.SaveNow | tui_settings.go:397-450 | With both writes going through it is the save of the specified screen. |
| SettingsModel.Model.Update | tui_settings.go:199-259 | Every key press moves the object, with its array and directory, as the specified screen moves. |
| SettingsModel.Model.Play | tui_model.go:660-674 | A whole sequence of key presses moves the object as the specified run; an element of the field array with a pending edit is unchanged, in its scope, as long as no press touches it. |
| SettingsModel.Model.Use | tui_model.go:660-674 | After opening the screen and any key presses, every element of the object's own array is saved as present exactly when the active file parses with its key, and then with the parsed value; the discard guard is armed only by an escape just pressed. |
| SettingsModel.Model.UseAndPress | tui_settings.go:199-259 | On the object: after any such use, one more press leaves the screen with unsaved changes only if it is the second of two escapes, or ctrl+c. |
| SettingsEffect.SavedSettingsTakeEffect | tui_settings.go:397-450 | From every reachable state: after a save has gone through, loading the configuration gives each row's setting the value shown when it was saved, or the lower layer's where the row is unset, unless a higher layer supplies it. |
| SettingsEffect.CleanFieldEffective | config.go:323-416 | A row without pending changes whose cache agrees with its file shows the setting that loading gives, up to higher layers. |
| SettingsEffect.FallbackDecodes | tui_settings.go:113-154 | The text shown for an inherited setting decodes to that setting, for booleans, texts and host lists. |
| SettingsEffect.PinningChangesNothing | tui_settings.go:113-154 | Writing an inherited row into the project store as it is shown changes none of the settings. |
| SettingsEffect.PendingValuesAccepted | tui_settings.go:340-392 | Over every run, a value that was changed or that waits to be written, rows set at their inherited text included, passed the screen's validation for its key, and a boolean among them is true or false. |
| SettingsFaults.SaveAgreesIff | tui_settings.go:397-450 | Whatever the files hold, duplicate lines included, and however stale the rows are: after a save that goes through, every row agrees with the file if and only if each row that was not written agreed before, and each value that was written is its key's only assignment or what its last line said already. |
| SettingsFaults.FailedSaveAgreesIff | tui_settings.go:431-442 | With a fate for each of the two writes: after a failed save the rows agree with the file if and only if the first write failed or had nothing to write. |
| SettingsFaults.RetryAgrees | tui_settings.go:431-448 | After a save that a write failed, a further save that goes through leaves every row as the file says and nothing pending. |
| SettingsFaults.RevertHidesStaleRows | tui_settings.go:240-246 | After a failed save the revert key gives a screen without pending changes, which agrees with its file exactly when the failed save left agreement. |
| SettingsFaults.SecondFailureLeavesStaleRows | tui_settings.go:431-442 | Every save with values to write and keys to unset can end so: its second write fails, and after a revert a clean screen contradicts its file. |
| PackagesScreen.AddAllExact | envedit.go:243-253 | Adding words keeps the old list in front, holds no word twice, and appends the new words in order of first appearance. |
| PackagesScreen.AddDeduplicated | tui_packages.go:254-287 | Deduplicating the typed words before adding them makes no difference to the list. |
| PackagesScreen.SplitJoined | envedit.go:243-253 | Joining a list of distinct words with blanks and splitting it gives the same list. |
| PackagesScreen.ListStaysDistinct | tui_packages.go:140-327 | Over every key sequence the shown and the saved list hold no word twice and the cursor stays in the list. |
| PackagesScreen.OriginalStays | tui_packages.go:192-208 | No key but a save or a scope switch moves the saved list, its presence, the scope or the files. |
| PackagesScreen.RevertRestoresList | tui_packages.go:192-208 | However a clean list was edited since, deletions included, revert brings back exactly that list and presence. |
| PackagesScreen.CleanAfter | tui_packages.go:80-97 | A screen that was just loaded, or saved without failure, is clean. |
| PackagesScreen.SaveListFails | tui_packages.go:291-327 | A save fails exactly when no configuration is loaded or a dirty present list joins to a value with both quote characters, and then the edit stays pending. |
| PackagesScreen.FailedSaveKeepsFiles | tui_packages.go:291-327 | A save that cannot quote its list leaves what every file parses to unchanged. |
| PackagesScreen.SaveThenLoad | tui_packages.go:80-97 | After a successful save of a present list, loading gives the same list if and only if the file held at most one active packages line or its last one already read as this list. |
| PackagesScreen.SaveClearsList | tui_packages.go:318-325 | Saving a cleared list removes the packages key from the scope's file and nothing else from any file. |
| PackagesScreen.SaveIsPackagesEdit | tui_packages.go:291-327 | Every dirty save of this screen is, on the files, one of the edits that the settings screen's invariant covers. |
| PackagesScreen.ListCacheAgrees | tui_packages.go:80-327 | In every reachable state the saved presence and list are those that the active scope's file assigns. |
| PackagesScreen.ListLeftDirtyOnlyOnPurpose | tui_packages.go:145-164 | Over every key sequence, the screen is left with an unsaved list only by two consecutive presses of esc or q, or by ctrl+c. |
| PackagesLaws.UnsavedStays | tui_packages.go:140-327 | No unsaved list is lost unnoticed: only the keys that edit, revert or save it move it. |
| PackagesLaws.UnsavedOverRun | tui_packages.go:140-327 | The same over every key sequence. |
| PackagesLaws.TabKeepsList | tui_packages.go:226-241 | The tab key on an unsaved list changes nothing but says so. |
| PackagesLaws.TabShowsOtherList | tui_packages.go:226-241 | On a saved list it goes to the other scope and shows its file's words, or the inherited ones. |
| PackagesLaws.DeleteTakesSelected | tui_packages.go:192-201 | The delete key takes the selected word out and no other, and the list counts as set. |
| PackagesLaws.RevertShowsSaved | tui_packages.go:203-208 | The revert key shows the saved list and presence again. |
| PackagesLaws.ClearUnsetsList | tui_packages.go:243-252 | The clear key marks the list of the project scope as not set and changes nothing else. |
| PackagesLaws.EscapeLeavesList | tui_packages.go:145-164 | Esc and q leave a saved list at once and an unsaved one only when pressed again. |
| PackagesLaws.EnterAppends | tui_packages.go:254-287 | Enter appends each typed word that the list does not hold, once, behind the old list, which counts as set if it grew. |
| PackagesLaws.KeysMoveListCursor | tui_packages.go:165-191 | Up, down, home and end move the cursor inside the list; ctrl+c quits. |
| PackagesLaws.SaveKeepsList | tui_packages.go:291-327 | The save key never changes the list; it fails exactly without a configuration or for an unsaved set list whose joined text holds both quotes, and otherwise counts the list as saved. |
| PackagesModel.SplitWords | envedit.go:243-253 | The loop with its set of seen words returns the words of the text, each at its first place. |
| PackagesModel.ContainsString | tui_packages.go:343-350 | True exactly when the list holds the string. |
| PackagesModel.PackageModel.LoadScope | tui_packages.go:80-97 | Both lists become separate copies of the file's list, or of the inherited one. |
| PackagesModel.PackageModel.ScanDirty | tui_packages.go:118-131 | Reports dirty exactly when presence or list differs from the saved one. |
| PackagesModel.PackageModel.Append | tui_packages.go:254-287 | The list grows by one word at its end, reusing spare room or moving to a larger buffer. |
| PackagesModel.PackageModel.UpdateAdding | tui_packages.go:254-287 | While adding: enter appends exactly the words not yet present; esc and typing leave the list alone. |
| PackagesModel.PackageModel.RemoveAt | tui_packages.go:192-201 | The in-place shift removes one element and keeps the others in order. |
| PackagesModel.PackageModel.DeleteSelected | tui_packages.go:192-201 | Deleting shifts the shown buffer in place; the buffer that revert copies from is not the same and is unchanged. |
| PackagesModel.PackageModel.Revert | tui_packages.go:203-208 | The shown list becomes a fresh copy of the saved one. |
| PackagesModel.PackageModel.ToggleScope | tui_packages.go:226-241 | Refused while dirty; otherwise the other scope's list is loaded. |
| PackagesModel.PackageModel.Save | tui_packages.go:291-327 | The object and the shared directory after a save are those of the specified save; the saved list is a copy of the shown one. |
| PackagesModel.PackageModel.Update | tui_packages.go:140-221 | Every key press moves the object, with its buffers and directory, as the specified screen moves. |
| PackagesModel.PackageModel.Play | tui_model.go:649-658 | A whole sequence of key presses moves the object as the specified run. |
| PackagesModel.PackageModel.Use | tui_model.go:649-658 | After opening the screen and any key presses, the object's two buffers hold no word twice, the saved buffer and presence agree with the active file, and the discard guard is armed only by an escape just pressed. |
| PackagesModel.PackageModel.EditAndRevert | tui_packages.go:192-208 | On the object's buffers: after any edits of a clean list that neither save nor switch scope, the revert key shows again what was shown before them, and the saved buffer and the files are unchanged. |
| Policy.NormalizeMatches | cmd/smithjail-proxy/policy.go:80-82 | A configured name, its wire form with a final dot, and any change of letter case normalize alike. |
| Policy.NormalizeOf | cmd/smithjail-proxy/policy.go:80-82 | Normalizing drops whitespace around a name, then one final dot, then letter case, and nothing else. |
| Policy.LowerLetters | cmd/smithjail-proxy/policy.go:80-82 | Lower case goes letter by letter through the alphabet and leaves every other character alone. |
| Policy.NormalizeIdempotentIff | cmd/smithjail-proxy/policy.go:80-82 | Normalizing a name twice equals normalizing it once if and only if the trimmed name is shorter than two characters, does not end in a dot, or has neither a dot nor whitespace before that dot; "a.." is a counterexample. |
| Policy.Policy.New | cmd/smithjail-proxy/policy.go:54-76 | Fails exactly when the prefix list does; otherwise holds the non-empty normal forms of the hosts and the prefixes, with nothing learned. |
| Policy.CidrListExact | cmd/smithjail-proxy/policy.go:64-74 | The prefix list fails exactly when some non-blank entry does not parse, and otherwise holds exactly the prefixes of the non-blank entries. |
| Policy.CoversBlock | cmd/smithjail-proxy/policy.go:110-123 | A prefix covers exactly the addresses of its own family in the block around its base. |
| Policy.Policy.Learn | cmd/smithjail-proxy/policy.go:94-101 | Attributes one address to the normalized name; no address, no change. |
| Policy.Policy.HostAllowed | cmd/smithjail-proxy/policy.go:85-89 | True exactly for names whose normal form is listed. |
| Policy.Policy.IpAllowed | cmd/smithjail-proxy/policy.go:110-123 | True exactly for learned or covered addresses, with the host of the latest learner, or none for a covered address. |
| Policy.LearnFirstExact | cmd/smithjail-proxy/dns.go:76-87 | The answer loop attributes every supplied address to the queried name, forgets nothing and changes nothing else. |
| Policy.AnswerAfterLearning | cmd/smithjail-proxy/dns.go:50-91 | A reply is forwarded exactly for a single listed name with an upstream answer; every address in it is allowed by then and attributed to that name; any other reply leaves the policy unchanged. |
| Policy.RecordsTaught | cmd/smithjail-proxy/dns.go:50-91 | On the records: what a query adds to the learned addresses is exactly those of the A and AAAA records of a forwarded answer, each attributed to the queried name; records of other kinds teach nothing, and the answer is passed on as it came. |
| Policy.Policy.ServeDNS | cmd/smithjail-proxy/dns.go:50-101 | The handler replies as specified and leaves the policy as specified, for every query and upstream outcome; after a forwarded reply the address of every A and every AAAA record in it is learned under the queried name. |
| JailSystem.RulesConfine | network.go:302-318 | For all packets: a new flow that is not the proxy's gets out only to the loopback address, the proxy is never redirected, and a redirect takes name queries, plain web and TLS traffic each to its own proxy port. |
| JailSystem.RulesInNumbers | network.go:302-318 | The same in numbers: the proxy's user, the three proxy ports and the ports that are redirected to them. |
| JailSystem.StepInv | cmd/smithjail-proxy/relay.go:96-120 | Every interleaved step of packets, conntrack expiry, queries and relay connections keeps the system invariant. |
| JailSystem.EveryFlowJustified | network.go:302-318 | In every run, each flow let out to another address than loopback is the proxy's, is not redirected, and is an upstream query for a listed name or a dial to an address that a static prefix covers or an earlier answer for a listed name supplied. |
| JailSystem.NoAnswerRacesItsConnection | cmd/smithjail-proxy/dns.go:50-91 | In every interleaving, the address of each A or AAAA record in a forwarded reply is learned when the reply is written and allowed ever after, and the reply answers a listed name. |
| JailSystem.LearnedFromRecord | cmd/smithjail-proxy/dns.go:76-87 | In every run an address is learned only if an upstream answer for a listed name held an A or AAAA record with it. |
| JailSystem.DialHasRecord | cmd/smithjail-proxy/relay.go:96-120 | In every run a dial to an address that no static prefix covers was preceded by such an answer. |
| JailSystem.RefusedQueriesTeachNothing | cmd/smithjail-proxy/dns.go:50-101 | A query answered NXDOMAIN was a single unlisted name and conversely; no refused or failed query ever taught the policy anything. |
| JailSystem.LatestLearnerReported | cmd/smithjail-proxy/policy.go:110-123 | In every run the policy attributes an address to the listed host that learned it last. |
| JailSystem.RunGrows | cmd/smithjail-proxy/policy.go:94-101 | No further steps take back an allowed address, a learned fact or the host list. |
| JailSystem.StepsAreServeDNS | cmd/smithjail-proxy/dns.go:50-91 | The small steps of one query, run without interruption, give the policy and the reply of the sequential handler. |
| JailSystem.ConnectionAlone | cmd/smithjail-proxy/relay.go:96-120 | The steps of one connection without interruption: it is spliced to the destination that conntrack remembers exactly if that address was learned or is covered and the dial works, and is closed otherwise; the dial goes straight there. |
| JailSystem.WebTrafficAccepted | network.go:302-318 | A new TCP flow of another user than the proxy's to port 80 or 443 is led to the relay's port, which accepts it and remembers its first destination; to any other port it is dropped. |
| JailSystem.QueryFlow | cmd/smithjail-proxy/dns.go:50-91 | A listed query opens one flow, the proxy's own, straight to the upstream resolver. |
| JailSystem.ForgottenIsClosed | cmd/smithjail-proxy/relay.go:96-120 | A connection whose flow conntrack forgets before it is looked up is closed, and so is a spliced one when it ends. |
| Splice.MoveKeepsOk | cmd/smithjail-proxy/relay.go:124-138 | At every move of a copy the bytes handed on and the bytes held are together exactly the bytes taken from the sender. |
| Splice.StepIsMonotone | cmd/smithjail-proxy/relay.go:124-138 | At every step what a peer sent and what it received only grow, and nothing is handed on once the copy into its socket has ended. |
| Splice.IncomingIsSent | cmd/smithjail-proxy/relay.go:124-138 | In every run the stream of a peer is exactly what it sent before it closed its write half. |
| Splice.SpliceConserves | cmd/smithjail-proxy/relay.go:124-138 | In every interleaving, and whatever the closing call does, each side's received bytes are a prefix of what the other sent, short by exactly the bytes held and not taken; a copy that ended without an error handed on the whole stream. |
| Splice.HalfCloseCutsNothing | cmd/smithjail-proxy/relay.go:124-146 | Half-closing a socket behind one copy never disturbs the copy that reads it: a copy fails only when the network fails it, a write half is shut only after its copy ended, no read half is shut before splice returns, and a returned direction that the network did not fail was delivered whole. |
| Splice.OtherDirectionDrains | cmd/smithjail-proxy/relay.go:142-146 | From every reachable state, also when the socket that it reads is half-closed already, a copy whose sender has finished can hand on everything and end cleanly. |
| Splice.DeferredCloseLosesNothing | cmd/smithjail-proxy/relay.go:96-120 | After splice has returned, whatever happens next, deferred closes included: a direction that the network did not fail has handed on every byte its peer ever sent, so none is unread or held at the close. |
| Splice.NetworkDownEndsAll | cmd/smithjail-proxy/relay.go:96-120 | From every state, a network that fails both copies lets splice return, and the deferred closes then leave no half of either socket open; nothing is handed on meanwhile. |
| Splice.FullCloseLosesBytes | cmd/smithjail-proxy/relay.go:140-146 | A run without network failure in which the server's byte arrives with a half-close and is lost if the socket is closed instead. |
| NetworkJail.Jail.Cleanup | network.go:202-229 | Attempts every removal of an acquired resource even after one has failed, and reports exactly those container and network removals that failed. |
| NetworkJail.NewNetworkJail | network.go:83-157 | For every choice of failing calls: succeeds exactly when none fails, reports the first failing one, and leaves the specified resources after the specified calls. |
| NetworkJail.FirstFailureExact | network.go:83-157 | The stage reported is the one that fails while none before it in the program's order does; set-up succeeds exactly when no stage fails. |
| NetworkJail.ReachedExact | network.go:83-157 | How far set-up gets, by the stages that work: the event log and the container may exist although their own call fails. |
| NetworkJail.CallsExact | network.go:83-157 | The calls of a set-up that succeeds, in order; a later failure attempts every removal, and one before the network makes no call. |
| NetworkJail.StartProxy | network.go:137-157 | The last stage: proxy, readiness, and only then the rules, with rollback at each. |
| NetworkJail.RollbackRestores | network.go:202-229 | Cleaning up whatever had been acquired, however far setup got, restores the world without this session when the removals work. |
| NetworkJail.FailedSetupLeavesNothing | network.go:83-157 | For every failing call, an error leaves none of the network, policy file or proxy container behind when the removals work; only the project's event log and the sweep of a stale network remain. |
| NetworkJail.LeftoverExact | network.go:202-229 | When removals fail, exactly what they were for stays; the network also stays while its proxy container does, and the event log stays exactly when it was there or set-up got to it. |
| NetworkJail.RulesOnlyAfterReady | network.go:430-464 | The rules are installed only on success, as the last call, right after that same proxy was found ready. |
| NetworkJail.WaitProxyReady | network.go:430-442 | Polling succeeds exactly when some poll of the logs before the deadline shows the ready marker. |
| NetworkJail.ContainsExact | network.go:430-442 | A text contains a part exactly when it is that part with something before and something behind it. |
| NetworkJail.WholeSession | main.go:380-409 | Set-up followed by clean-up leaves the world without this session, event log and sweep apart, when the removals work. |
| NetworkJail.ReadAllowFile | network.go:488-505 | The hosts are the trimmed lines of the file that are neither blank nor comments: each such line gives one, in file order, and nothing else does. |
| NetworkJail.HostLineExact | network.go:488-505 | A line names a host exactly when its first character that is not whitespace exists and is no '#'. |
| NetworkJail.PickedOnce | network.go:488-505 | That description determines the list: two lists that fit the same file are equal. |
| NetworkJail.EffectiveAllowedHosts | network.go:165-183 | Fails exactly when the named allow file cannot be read; otherwise a host is listed exactly when a source of the session names it, and the policy built from the list allows a name if and only if some source names a host with the same non-empty normal form. |
| NetworkJail.ListIsPolicy | cmd/smithjail-proxy/policy.go:54-76 | A policy built from a list allows a name exactly when the list holds a name with the same non-empty normal form. |
| JailSessions.NameSharedIff | network.go:101-107 | Two sessions share a network name if and only if they share agent and project hash, whatever their random tokens; they share a proxy name if and only if they share agent and token. |
| NetworkJail.NamesSpelled | network.go:101-107 | The names of a network and a proxy, spelled out. |
| JailSessions.RunInv | network.go:83-157 | Over every interleaving of any number of sessions: attached networks exist, sessions' networks and proxies bear their names and are their own, and only session proxies are attached to session networks. |
| JailSessions.OthersKeepProxy | network.go:391-395 | In every run no step of another session, sweep and clean-up included, takes a session's proxy or the network that this proxy is attached to. |
| JailSessions.SweepTakesIff | network.go:391-395 | A sweep takes the network that another session created if and only if the call works, the two share agent and project, nothing is attached to it yet, and no other network has the name. |
| JailSessions.CleanupLeavesIff | network.go:202-229 | A clean-up whose removal works leaves its network behind if and only if some session's proxy is still attached to it, and then that session has the same agent and project. |
| JailSessions.OneAtATimeLeavesNothing | network.go:202-229 | Any interleaving of any number of sessions in which an agent and project never have two sessions that are not over at a time, though as many one after the other as they like: if the removals work, a session that is over has left neither its proxy nor its network. |
| JailSessions.DistinctProjectsLeaveNothing | network.go:202-229 | In particular sessions of pairwise different agents or projects leave nothing, and one that has dropped its proxy has none. |
| JailSessions.SessionAlone | network.go:83-157 | A session in which nothing fails, on its own: its proxy runs on a new network of its name once it is up, and Docker is as it was before when it is over. |
| JailSessions.FailureAlone | network.go:83-157 | A session whose set-up fails at any call behind the network's creation leaves Docker as it was before, on its own and when the removals work. |
| JailSessions.OneProjectMayLeak | network.go:358-380 | A failing run of two sessions of one project: the second sweeps the first's network before its proxy is attached, the proxy joins the second's network, and a network stays behind although every removal worked. |
| EnsureImage.OneBuilderPerAgent | docker.go:840-854 | In every run of any number of processes, no two hold one agent's lock, so no two build for it at once. |
| EnsureImage.BuiltOncePerRemoval | docker.go:859-904 | In every run, builds and removals of each tag balance with its presence: at most one build while it is not removed, and none if it was there. |
| EnsureImage.BuildsOnConsent | docker.go:898-904 | In every run a process that builds was asked and agreed before, and every successful build is such a process's own tag. |
| EnsureImage.OutcomeIff | docker.go:859-904 | In every run a call has the result nil if and only if it found the image or its own build succeeded, aborted if and only if the user was asked and refused, and an error if and only if one of its own checks, its lock or its build failed. |
| EnsureImage.CallAlone | docker.go:859-904 | A call on its own with nothing failing returns nil with its image present if it was there or the user agrees, having built exactly if it was not there, and aborted otherwise; its lock is free again. |
| EnsureImage.NilMeansPresent | docker.go:859-904 | A call decides to return nil only in a state where its image is present. |
| EnsureImage.NilPresentIff | docker.go:859-904 | From the moment a call decides on nil its image is present exactly as long as that very tag was built again as often as it was removed since, so it is present unless the tag was removed after the decision. |
| EnsureImage.NilLeavesImage | docker.go:859-904 | While its own tag is not removed, the image of every nil return is present from then on. |
| EnsureImage.EveryExitUnlocks | docker.go:840-904 | A lock is held only by a live call; when all calls are over no lock is held, whichever way they ended. |
| Tail.LinesLoseNothing | netlog.go:87-143 | Complete lines and remainder together are the text, cut at every newline and nowhere else. |
| Tail.AppendPart | netlog.go:105-121 | Bytes without a newline change no complete line and only lengthen the remainder. |
| Tail.AppendNewline | netlog.go:104-124 | A newline turns the remainder into one more line. |
| Tail.LineDone | netlog.go:123-138 | Completing a line adds exactly that line's event, if it has one, and empties the remainder. |
| Tail.LineWorth | netlog.go:123-138 | A line is worth the event it decodes to, whatever whitespace is around it; a blank one and one that does not decode are passed over. |
| Tail.Tailer.ReadString | netlog.go:105-107 | Consumes through the next newline, or to the end of what is there with an error. |
| Tail.Tailer.TakeTurn | netlog.go:104-139 | After every turn the events emitted and the bytes kept are those of a batch read of the bytes consumed; a cancelled send drops at most one event. |
| Tail.Tailer.Follow | netlog.go:87-143 | The same over every schedule of appends, read failures and cancellation, for the whole goroutine. |
| Tail.LogRoundTrip | cmd/smithjail-proxy/log.go:43-48 | A log written one encoded event a line reads back as the logged events, in order, once each, with nothing left over. |
| Tail.CutGivesPrefix | netlog.go:87-143 | A text cut anywhere yields a prefix of the events of the whole. |
| Tail.ReaderFollowsWriter | netlog.go:87-143 | A reader that consumed any initial part of the log has emitted an initial part of the logged events, and all of them once it has consumed it all. |
| Tail.FollowLog | netlog.go:87-143 | The goroutine against the logger, over every schedule: as long as the file holds an initial part of the log, the events sent are an initial part of the logged events, and all of them when it stops at the end of the whole log. |
| HashFraming.DecimalInjective | proxyimages.go:95-102 | Different lengths print differently. |
| HashFraming.FrameSpelled | proxyimages.go:95-102 | Two frames spelled out. |
| HashFraming.FrameUnique | proxyimages.go:95-102 | One frame can be cut off the front in only one way, whatever follows it. |
| HashFraming.HashInputInjective | proxyimages.go:79-104 | Two trees with NUL-free paths give the same hashed bytes exactly when they hold the same paths with the same contents. |
| HashFraming.NulPathsCollide | proxyimages.go:95-102 | Without NUL-free paths the claim fails: two different trees with the same hashed bytes. |
| HashFraming.FeedHash | proxyimages.go:79-104 | Whatever order the walk lists the files in, the bytes fed to the hash are those of the tree. |
| Flags.ReorderKnownFlags | main.go:233-275 | The index loop returns the known blocks followed by everything else. |
| Flags.ReorderIsStablePermutation | main.go:233-275 | For all inputs the result is a permutation of the arguments that keeps the known blocks in order and the rest in order. |
| Flags.TailUntouched | main.go:233-275 | From a terminating "--" on, the arguments are unchanged at the end and contribute no flag. |
| Flags.ReorderIdempotent | main.go:233-275 | Reordering twice is reordering once, for all inputs. |
| Flags.ScanConcat | main.go:233-275 | Scanning two stretches of a line separately and together gives the same blocks and the same rest. |
| Flags.FlagMayMove | main.go:233-275 | A complete flag may stand before or after neighbouring plain arguments: the reordered line is the same. |
| Flags.ParseKnown | main.go:279-313 | With no dangling value flag, parsing the reordered flags sets each to the left-to-right fold of its occurrences and goes on with what follows, or exits when a boolean is invalid. |
| Flags.PositionIndependentIff | main.go:279-313 | Parsing the reordered line sets the fold of all occurrences and returns exactly the leftovers if and only if no value flag dangles, every boolean is valid and the leftovers do not start like a flag. |
| Flags.DanglingSwallows | main.go:233-275 | A value flag dangling at the end always takes a leftover argument as its value. |
| Flags.DanglingTakesArgument | main.go:233-275 | For every flag set: a dangling value flag behind one argument takes that argument for its value and leaves nothing. |
| Flags.DanglingTakesDirectory | main.go:279-313 | On the command's own six flags: a final --allow takes any project directory in front of it, and no directory is left. |
| Flags.ParseCommonFlags | main.go:279-313 | The options are those of the parsed reordered line; without a dangling flag they are the fold of all occurrences, wherever these stood. |
| FlagLaws.TypedIsKnown | main.go:233-275 | Both spellings of the dashes name the same flag, and its value starts behind the first '='. |
| FlagLaws.FlagIsMoved | main.go:233-275 | A complete flag, in any spelling, is moved as it is typed. |
| FlagLaws.FlagComesFirst | main.go:233-275 | A complete flag behind arguments that are no flags comes to the front; those stay in order. |
| FlagLaws.SwitchParsed | main.go:279-313 | A switch alone is on; with one of six spellings of true or of false it is on or off; any other value exits with status 2. |
| FlagLaws.ValueParsed | main.go:279-313 | A value flag takes the text behind its '=' or else the whole next argument; with neither the program exits with status 2. |
| FlagLaws.ParseStops | main.go:279-313 | Parsing stops at the first argument that is no flag, which stays, and behind a "--", which goes; an unknown flag exits. |
| FlagLaws.UnknownName | main.go:279-313 | A name that is no flag exits, with status 0 if it asks for help and 2 otherwise. |
| FlagLaws.NamelessExits | main.go:279-313 | An argument without a name between its dashes and its '=' exits with status 2. |
| FlagLaws.AllowedHosts | main.go:279-313 | The hosts of --allow are the words typed, whether commas or blanks separate them. |
| FlagLaws.OptionsExact | main.go:279-313 | Which option each flag's variable stands for. |
| FlagLaws.CommonFlagsMean | main.go:279-313 | Each of the command's flags typed behind a project directory sets its own variable, -y that of --yes, and the directory is what is left. |
| Recents.RecentStore.RememberProject | tui.go:176-209 | A successful non-empty use moves the directory to the front and truncates; an empty one or a failed write changes nothing. |
| Recents.DropDir | tui.go:187-192 | The loop keeps every other directory, in order. |
| Recents.FirstsExact | tui.go:176-209 | The untruncated list has distinct directories and holds exactly the latest use of each. |
| Recents.FirstsInOrder | tui.go:176-209 | The untruncated list is the reversed history with entries left out, the rest in order. |
| Recents.TakeWithout | tui.go:187-195 | Truncating before dropping one directory loses nothing against truncating after. |
| Recents.StoredIsMostRecent | tui.go:176-209 | After any history the stored list is the first 20 distinct directories of the reversed history, so truncating at every step equals truncating once. |
| Recents.RememberAll | tui.go:176-209 | The store run over any history of calls from an empty cache, empty directories and failed writes included, ends with the first 20 distinct directories of the reversed successful uses. |
| Sessions.ActiveSessions | docker.go:442-476 | Exactly one row per eligible agent and directory, each with the earliest start of its containers, and nothing else. |
| Sessions.CountsExact | docker.go:442-476 | The containers that count: no proxy, not the Ollama sidecar, one of the five agents, a project label. |
| Sessions.RowsExact | docker.go:442-476 | A row stands for a container that counts, with its agent, directory and start, and no other such container of them is older. |
| Sessions.SummarizeStep | docker.go:442-476 | Reading one more container keeps the map the exact summary of what was read. |
| Sessions.OneRowPerKey | docker.go:442-476 | A key determines its row. |
| Sessions.OrderIrrelevant | docker.go:442-476 | The set of rows is the same for every permutation of the container list. |
| Splice.PortRecovered | cmd/smithjail-proxy/relay.go:57-61 | The port read little-endian from two network-order bytes is swapped back to the port they spell. |
| Splice.SwapTwice | cmd/smithjail-proxy/relay.go:57-61 | Swapping the bytes of a port is its own inverse. |

## Left out

- I/O errors in the theorems over whole runs of the two screens, and edits of the files from outside while a screen is open. A failing write of a single edit is in `EnvStore`, a save of the settings screen with failing writes in `SettingsFaults`; a failing `WriteEnvTemplates` is in neither.
- Layers.LoadConfig: resolves the eleven JAIL_* settings only; the agents' own env files, paths and I/O errors are not modelled.
- SettingsModel.WriteEnvTemplates: creates the global settings file only; the other six files that it creates hold no JAIL_* settings.
- SettingsScreen.TemplateParses: takes the template as any text that assigns nothing; its wording is not modelled.
- View code, status texts, scroll offsets, the order of sessions on screen, and screen routing other than that the settings screen leads to the packages screen.
- The text input widget: the typed text is any single line; a tab or line break becomes a blank and at most 512 characters are kept when a field is opened.
- `strconv.ParseFloat` and `net.ParseCIDR`: parameters of the members that use them. Addresses are abstract numbers with a prefix test.
- Whitespace and letter case outside ASCII, and `bufio.Scanner`'s limit of 64 KiB for a line.
- File permissions other than the mode that an edit carries over, and the directory's own mode.
- IPv6 packets (the session network disables IPv6), and related flows such as ICMP errors, which the filter chain accepts like established ones.
- The flow theorems assume that no container process runs under the proxy's uid and that flows opened before the rules exist are the proxy's.
- A failing write of a DNS reply, which the handler ignores, and DNS record types other than A and AAAA, which the loop skips.
- `net.DialTimeout`'s retries and timing: a dial succeeds or fails at one step.
- Session tokens that repeat: a session whose random token was drawn before is outside `JailSessions`, and so are containers that others attach to a session's network.
- What Docker does about a second network of a name that is in use: `JailSessions` lets the creation succeed or fail, and lets a name find any network that bears it.
- NetworkJail.WholeSession: does not cover `hermes-local`, which attaches the Ollama container to the session network, nor exits through `die`, which skip the clean-up.
- Processes that are killed while they hold the build lock, and `BuildImage` calls from `rebuild` and `update`, which take no lock.
- SHA-256 and JSON: the digest is left out, and the log encoding is any injective newline-free code (section 7 of RFC 8259 keeps encoded strings newline-free).
- `BuildHash`, whose input is concatenated without separators; nothing is claimed about it.
- Docker itself, signals, sockets and timers, other than as steps that may fail.
- Claude, Gemini, Codex, Hermes and Ollama credentials files, the doctor checks, the run plan, orphan verdicts, Dockerfile text and Ollama management: mostly case analysis over a few flags.
