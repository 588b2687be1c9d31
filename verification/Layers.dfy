/** How the JAIL_* settings resolve: defaults, global file, project store, process environment. */
module Layers {
  import opened Wrappers
  import opened Text
  import opened EnvLine
  import opened EnvEdit
  import opened EnvFile
  import opened EnvStore

  /** The keys, by name. */
  datatype Key = Mem | Cpu | Base | Packages | Skip | Root | Sudo | NetJail | Allow | AllowFile | Approve

  const KEYS: set<Key> := {Mem, Cpu, Base, Packages, Skip, Root, Sudo, NetJail, Allow, AllowFile, Approve}

  function Name(k: Key): string {
    match k
    case Mem => "JAIL_MEM_LIMIT"
    case Cpu => "JAIL_CPU_LIMIT"
    case Base => "JAIL_BASE_IMAGE"
    case Packages => "JAIL_INIT_PACKAGES"
    case Skip => "JAIL_SKIP_PERMISSIONS"
    case Root => "JAIL_RUN_AS_ROOT"
    case Sudo => "JAIL_SUDO"
    case NetJail => "JAIL_NETWORK_JAIL"
    case Allow => "JAIL_NETWORK_ALLOW"
    case AllowFile => "JAIL_NETWORK_ALLOW_FILE"
    case Approve => "JAIL_AUTO_APPROVE"
  }

  predicate Has(env: map<string, string>, k: Key) {
    Name(k) in env
  }

  /** The value of a key, empty when it is absent. */
  function Raw(env: map<string, string>, k: Key): string {
    if Has(env, k) then env[Name(k)] else ""
  }

  /** Whether a layer applies a key: files do by presence, the environment unless empty. */
  predicate Counts(env: map<string, string>, k: Key, evenEmpty: bool) {
    Has(env, k) && (evenEmpty || Raw(env, k) != "")
  }

  /** The keys among those of a parsed file. */
  function KeysIn(env: map<string, string>): set<Key> {
    set k | k in KEYS && Has(env, k)
  }

  predicate IsBool(k: Key) {
    k.Skip? || k.Root? || k.Sudo? || k.NetJail? || k.Approve?
  }

  /** The settings that the keys control. */
  datatype Settings = Settings(
    memLimit: string, cpuLimit: string, baseImage: string, initPackages: string,
    skipPermissions: bool, runAsRoot: bool, sudo: bool, networkJail: bool,
    allowHosts: seq<string>, allowFile: string, autoApprove: bool)

  datatype Value = Text(s: string) | Flag(b: bool) | Words(ws: seq<string>)

  /** The setting that a key controls. */
  function Get(s: Settings, k: Key): Value {
    match k
    case Mem => Text(s.memLimit)
    case Cpu => Text(s.cpuLimit)
    case Base => Text(s.baseImage)
    case Packages => Text(s.initPackages)
    case Skip => Flag(s.skipPermissions)
    case Root => Flag(s.runAsRoot)
    case Sudo => Flag(s.sudo)
    case NetJail => Flag(s.networkJail)
    case Allow => Words(s.allowHosts)
    case AllowFile => Text(s.allowFile)
    case Approve => Flag(s.autoApprove)
  }

  /** A boolean that does not parse reads as false. */
  function ReadBool(raw: string): bool {
    ParseBool(raw) == Some(true)
  }

  function Decode(k: Key, raw: string): Value {
    if IsBool(k) then Flag(ReadBool(raw))
    else if k.Allow? then Words(Fields(raw))
    else Text(raw)
  }

  // ---- the config object ----

  /** strings.Fields, appended word by word to an emptied list, as both layers do it. */
  method AppendWords(raw: string) returns (hosts: seq<string>)
    ensures hosts == Fields(raw)
  {
    var words := Fields(raw);
    hosts := [];
    for i := 0 to |words|
      invariant hosts == words[..i]
    {
      hosts := hosts + [words[i]];
    }
  }

  class Config {
    var memLimit: string
    var cpuLimit: string
    var baseImage: string
    var initPackages: string
    var skipPermissions: bool
    var runAsRoot: bool
    var sudo: bool
    var networkJail: bool
    var allowHosts: seq<string>
    var allowFile: string
    var autoApprove: bool
    var projectOverridden: set<Key>

    ghost function State(): Settings
      reads this
    {
      Settings(memLimit, cpuLimit, baseImage, initPackages, skipPermissions, runAsRoot, sudo, networkJail,
               allowHosts, allowFile, autoApprove)
    }

    /** The built-in defaults; only Linux starts with the network jail switched on. */
    constructor (linux: bool)
      ensures State() == Defaults(linux) && projectOverridden == {}
    {
      memLimit, cpuLimit, baseImage, initPackages := "8g", "2.0", "debian:trixie-slim", "curl gcc build-essential make";
      skipPermissions, runAsRoot, sudo, networkJail := false, false, false, linux;
      allowHosts, allowFile, autoApprove := [], "", false;
      projectOverridden := {};
    }

    method SetAllowHosts(raw: string)
      modifies this`allowHosts
      ensures allowHosts == Fields(raw)
    {
      var hosts := AppendWords(raw);
      allowHosts := hosts;
    }

    /** The image and the resource limits of a layer. */
    method ApplyResources(env: map<string, string>, evenEmpty: bool)
      modifies this`memLimit, this`cpuLimit, this`baseImage, this`initPackages
      ensures memLimit == if Counts(env, Mem, evenEmpty) then Raw(env, Mem) else old(memLimit)
      ensures cpuLimit == if Counts(env, Cpu, evenEmpty) then Raw(env, Cpu) else old(cpuLimit)
      ensures baseImage == if Counts(env, Base, evenEmpty) then Raw(env, Base) else old(baseImage)
      ensures initPackages == if Counts(env, Packages, evenEmpty) then Raw(env, Packages) else old(initPackages)
    {
      hide Fields, ReadBool, Name, Counts, Raw;
      if Counts(env, Mem, evenEmpty) {
        memLimit := Raw(env, Mem);
      }
      if Counts(env, Cpu, evenEmpty) {
        cpuLimit := Raw(env, Cpu);
      }
      if Counts(env, Base, evenEmpty) {
        baseImage := Raw(env, Base);
      }
      if Counts(env, Packages, evenEmpty) {
        initPackages := Raw(env, Packages);
      }
    }

    /** The permissions of a layer. */
    method ApplyPrivileges(env: map<string, string>, evenEmpty: bool)
      modifies this`skipPermissions, this`runAsRoot, this`sudo, this`networkJail
      ensures skipPermissions == if Counts(env, Skip, evenEmpty) then ReadBool(Raw(env, Skip)) else old(skipPermissions)
      ensures runAsRoot == if Counts(env, Root, evenEmpty) then ReadBool(Raw(env, Root)) else old(runAsRoot)
      ensures sudo == if Counts(env, Sudo, evenEmpty) then ReadBool(Raw(env, Sudo)) else old(sudo)
      ensures networkJail == if Counts(env, NetJail, evenEmpty) then ReadBool(Raw(env, NetJail)) else old(networkJail)
    {
      hide Fields, ReadBool, Name, Counts, Raw;
      if Counts(env, Skip, evenEmpty) {
        skipPermissions := ReadBool(Raw(env, Skip));
      }
      if Counts(env, Root, evenEmpty) {
        runAsRoot := ReadBool(Raw(env, Root));
      }
      if Counts(env, Sudo, evenEmpty) {
        sudo := ReadBool(Raw(env, Sudo));
      }
      if Counts(env, NetJail, evenEmpty) {
        networkJail := ReadBool(Raw(env, NetJail));
      }
    }

    /** The allow-lists and the approval setting of a layer. */
    method ApplyAccess(env: map<string, string>, evenEmpty: bool)
      modifies this`allowHosts, this`allowFile, this`autoApprove
      ensures allowHosts == if Counts(env, Allow, evenEmpty) then Fields(Raw(env, Allow)) else old(allowHosts)
      ensures allowFile == if Counts(env, AllowFile, evenEmpty) then Raw(env, AllowFile) else old(allowFile)
      ensures autoApprove == if Counts(env, Approve, evenEmpty) then ReadBool(Raw(env, Approve)) else old(autoApprove)
    {
      hide Fields, ReadBool, Name, Counts, Raw;
      if Counts(env, Allow, evenEmpty) {
        SetAllowHosts(Raw(env, Allow));
      }
      if Counts(env, AllowFile, evenEmpty) {
        allowFile := Raw(env, AllowFile);
      }
      if Counts(env, Approve, evenEmpty) {
        autoApprove := ReadBool(Raw(env, Approve));
      }
    }

    /** A layer read from a file: each key that is present is applied, even when its value is empty. */
    method ApplyFile(env: map<string, string>)
      modifies this
      ensures State() == ApplyLayer(old(State()), env)
      ensures projectOverridden == old(projectOverridden)
    {
      hide Fields, ReadBool, Name, Raw, Has, Counts;
      FileCounts(env);
      ApplyResources(env, true);
      ApplyPrivileges(env, true);
      ApplyAccess(env, true);
    }

    /** applyJailEnv; with track, the keys applied are recorded. */
    method ApplyJailEnv(env: map<string, string>, track: bool)
      modifies this
      ensures State() == ApplyLayer(old(State()), env)
      ensures projectOverridden == old(projectOverridden) + if track then KeysIn(env) else {}
    {
      hide ApplyLayer, KeysIn;
      ApplyFile(env);
      if track {
        projectOverridden := projectOverridden + KeysIn(env);
      }
    }

    /** The JAIL_* part of applyEnvOverrides: a variable counts only when it is not empty. */
    method ApplyEnvOverrides(os: map<string, string>)
      modifies this
      ensures State() == ApplyLayer(old(State()), Supplied(os))
      ensures projectOverridden == old(projectOverridden)
    {
      hide Fields, ReadBool, Name, Raw, Counts, Supplied;
      SuppliedCounts(os);
      ApplyResources(os, false);
      ApplyPrivileges(os, false);
      ApplyAccess(os, false);
    }

    /** loadProjectOverrides. */
    method LoadProjectOverrides(store: map<string, string>)
      modifies this
      ensures State() == ApplyLayer(old(State()), store)
      ensures projectOverridden == KeysIn(store)
    {
      projectOverridden := {};
      ApplyJailEnv(store, true);
    }
  }

  /** LoadConfig, for the JAIL_* settings. */
  method LoadConfig(linux: bool, files: map<string, FileData>, globalPath: string, storePath: string, os: map<string,
                    string>)
    returns (c: Config)
    ensures fresh(c)
    ensures c.State() == Resolve(Defaults(linux), Parsed(files, globalPath), Parsed(files, storePath), os)
    ensures c.projectOverridden == KeysIn(Parsed(files, storePath))
  {
    hide Parsed, ApplyLayer;
    c := new Config(linux);
    c.ApplyJailEnv(Parsed(files, globalPath), false);
    c.LoadProjectOverrides(Parsed(files, storePath));
    c.ApplyEnvOverrides(os);
  }

  // ---- layers as values ----

  function Defaults(linux: bool): Settings {
    Settings("8g", "2.0", "debian:trixie-slim", "curl gcc build-essential make", false, false, false, linux, [], "",
        false)
  }

  function ApplyLayer(s: Settings, env: map<string, string>): Settings {
    Settings(
      if Has(env, Mem) then Raw(env, Mem) else s.memLimit,
      if Has(env, Cpu) then Raw(env, Cpu) else s.cpuLimit,
      if Has(env, Base) then Raw(env, Base) else s.baseImage,
      if Has(env, Packages) then Raw(env, Packages) else s.initPackages,
      if Has(env, Skip) then ReadBool(Raw(env, Skip)) else s.skipPermissions,
      if Has(env, Root) then ReadBool(Raw(env, Root)) else s.runAsRoot,
      if Has(env, Sudo) then ReadBool(Raw(env, Sudo)) else s.sudo,
      if Has(env, NetJail) then ReadBool(Raw(env, NetJail)) else s.networkJail,
      if Has(env, Allow) then Fields(Raw(env, Allow)) else s.allowHosts,
      if Has(env, AllowFile) then Raw(env, AllowFile) else s.allowFile,
      if Has(env, Approve) then ReadBool(Raw(env, Approve)) else s.autoApprove)
  }

  /** The variables that an environment really supplies. */
  function Supplied(os: map<string, string>): map<string, string> {
    map k | k in os && os[k] != "" :: os[k]
  }

  lemma SuppliedCounts(os: map<string, string>)
    ensures forall k :: Has(Supplied(os), k) <==> Counts(os, k, false)
    ensures forall k :: Counts(os, k, false) ==>
            Has(os, k) && Has(Supplied(os), k) && Raw(Supplied(os), k) == Raw(os, k)
  {
    hide Name;
  }

  /** A file counts by presence. */
  lemma FileCounts(env: map<string, string>)
    ensures forall k :: Counts(env, k, true) == Has(env, k)
  {
    hide Name, Raw;
  }

  function Resolve(d: Settings, g: map<string, string>, p: map<string, string>, os: map<string, string>): Settings {
    ApplyLayer(ApplyLayer(ApplyLayer(d, g), p), Supplied(os))
  }

  lemma LayerByKey(s: Settings, env: map<string, string>, k: Key)
    ensures Get(ApplyLayer(s, env), k) == if Has(env, k) then Decode(k, Raw(env, k)) else Get(s, k)
  {
    hide Fields, ParseBool, Name;
  }

  /** Each of the eleven settings is the one of the highest layer that supplies its key. */
  lemma HighestLayerWins(d: Settings, g: map<string, string>, p: map<string, string>, os: map<string, string>, k: Key)
    ensures Get(Resolve(d, g, p, os), k) ==
            if Counts(os, k, false) then Decode(k, Raw(os, k))
            else if Has(p, k) then Decode(k, Raw(p, k))
            else if Has(g, k) then Decode(k, Raw(g, k))
            else Get(d, k)
  {
    hide ApplyLayer, Get, Decode, Name;
    LayerByKey(d, g, k);
    LayerByKey(ApplyLayer(d, g), p, k);
    LayerByKey(ApplyLayer(ApplyLayer(d, g), p), Supplied(os), k);
  }

  // ---- the same by the names that users write ----

  /** The text that the highest layer supplies for a name: the environment unless it is empty there, then
      the project store, then the global file. */
  function Winning(g: map<string, string>, p: map<string, string>, os: map<string, string>,
                   name: string): Option<string> {
    if name in os && os[name] != "" then Some(os[name])
    else if name in p then Some(p[name])
    else if name in g then Some(g[name])
    else None
  }

  function OrElse(o: Option<string>, default_: string): string {
    if o.Some? then o.value else default_
  }

  /** A boolean text is one of six spellings of true, or counts as false. */
  predicate Switched(o: Option<string>, default_: bool) {
    match o
    case Some(v) => v == "1" || v == "t" || v == "T" || v == "true" || v == "TRUE" || v == "True"
    case None => default_
  }

  lemma ByKey(d: Settings, g: map<string, string>, p: map<string, string>, os: map<string, string>, k: Key)
    ensures Get(Resolve(d, g, p, os), k) ==
            match Winning(g, p, os, Name(k))
            case Some(v) => Decode(k, v)
            case None => Get(d, k)
  {
    hide Get, Decode, Resolve, Name;
    HighestLayerWins(d, g, p, os, k);
  }

  lemma SwitchedIsReadBool(v: string)
    ensures ReadBool(v) == Switched(Some(v), false)
  {
  }

  lemma FlagByKey(d: Settings, g: map<string, string>, p: map<string, string>, os: map<string, string>, k: Key)
    requires IsBool(k) && Get(d, k).Flag?
    ensures Get(Resolve(d, g, p, os), k) == Flag(Switched(Winning(g, p, os, Name(k)), Get(d, k).b))
  {
    hide Get, Resolve, Name, ReadBool, Switched, Winning;
    ByKey(d, g, p, os, k);
    var o := Winning(g, p, os, Name(k));
    if o.Some? {
      SwitchedIsReadBool(o.value);
      SwitchedSome(o.value, Get(d, k).b);
    } else {
      SwitchedNone(Get(d, k).b);
    }
  }

  lemma SwitchedSome(v: string, b: bool)
    ensures Switched(Some(v), b) == Switched(Some(v), false)
  {
  }

  lemma SwitchedNone(b: bool)
    ensures Switched(None, b) == b
  {
  }

  /** The texts and lists, by name, with the built-in values. */
  lemma TextsByName(linux: bool, g: map<string, string>, p: map<string, string>, os: map<string, string>)
    ensures var s := Resolve(Defaults(linux), g, p, os);
            && s.memLimit == OrElse(Winning(g, p, os, "JAIL_MEM_LIMIT"), "8g")
            && s.cpuLimit == OrElse(Winning(g, p, os, "JAIL_CPU_LIMIT"), "2.0")
            && s.baseImage == OrElse(Winning(g, p, os, "JAIL_BASE_IMAGE"), "debian:trixie-slim")
            && s.initPackages == OrElse(Winning(g, p, os, "JAIL_INIT_PACKAGES"), "curl gcc build-essential make")
            && s.allowFile == OrElse(Winning(g, p, os, "JAIL_NETWORK_ALLOW_FILE"), "")
            && s.allowHosts == Fields(OrElse(Winning(g, p, os, "JAIL_NETWORK_ALLOW"), ""))
  {
    hide Resolve, Winning, Fields;
    var d := Defaults(linux);
    ByKey(d, g, p, os, Mem);
    ByKey(d, g, p, os, Cpu);
    ByKey(d, g, p, os, Base);
    ByKey(d, g, p, os, Packages);
    ByKey(d, g, p, os, AllowFile);
    ByKey(d, g, p, os, Allow);
    FieldsNothing();
  }

  /** The switches, by name: all are off unless a layer turns them on, except that the network jail
      starts as the platform has it. */
  lemma FlagsByName(linux: bool, g: map<string, string>, p: map<string, string>, os: map<string, string>)
    ensures var s := Resolve(Defaults(linux), g, p, os);
            && s.skipPermissions == Switched(Winning(g, p, os, "JAIL_SKIP_PERMISSIONS"), false)
            && s.runAsRoot == Switched(Winning(g, p, os, "JAIL_RUN_AS_ROOT"), false)
            && s.sudo == Switched(Winning(g, p, os, "JAIL_SUDO"), false)
            && s.networkJail == Switched(Winning(g, p, os, "JAIL_NETWORK_JAIL"), linux)
            && s.autoApprove == Switched(Winning(g, p, os, "JAIL_AUTO_APPROVE"), false)
  {
    hide Resolve, Winning, Switched;
    var d := Defaults(linux);
    FlagByKey(d, g, p, os, Skip);
    FlagByKey(d, g, p, os, Root);
    FlagByKey(d, g, p, os, Sudo);
    FlagByKey(d, g, p, os, NetJail);
    FlagByKey(d, g, p, os, Approve);
  }

  // ---- editing a layer moves what it should and nothing else ----

  function Loaded(linux: bool, files: map<string, FileData>, globalPath: string, storePath: string, os: map<string,
                  string>): Settings {
    Resolve(Defaults(linux), Parsed(files, globalPath), Parsed(files, storePath), os)
  }

  predicate CleanEdit(lines: seq<string>, values: map<string, string>) {
    && AllQuotable(values) && PatternKeys(values) && NewlineFreeValues(values)
    && forall k :: k in values ==> Count(lines, k) <= 1 && Storable(values[k])
  }

  lemma CleanEditParses(files: map<string, FileData>, path: string, values: map<string, string>, p: string)
    requires CleanEdit(LinesOf(files, path), values)
    ensures Parsed(AfterSet(files, path, values), p) ==
            if p == path then Parsed(files, path) + values else Parsed(files, p)
  {
    hide Storable, Reread, SetLines, Parsed, AfterSet, LinesOf, Assigned, HasBothQuotes, IsKey;
    AfterSetParses(files, path, values, p);
    forall k | k in values
      ensures Reread(values[k]) == values[k]
    {
      AssignParses(k, values[k]);
    }
    assert Effective(LinesOf(files, path), values) == values;
  }

  /** Setting keys in the project store moves exactly those settings, unless the environment
      supplies them. */
  lemma StoreEditMovesOnlyItsKeys(linux: bool, files: map<string, FileData>, g: string, p: string,
                                  os: map<string, string>, values: map<string, string>, k: Key)
    requires g != p && CleanEdit(LinesOf(files, p), values)
    ensures Get(Loaded(linux, AfterSet(files, p, values), g, p, os), k) ==
            if Has(values, k) && !Counts(os, k, false) then Decode(k, Raw(values, k))
            else Get(Loaded(linux, files, g, p, os), k)
  {
    hide Get, Decode, Resolve, Parsed, AfterSet, Assigned, Storable, Name;
    var after := AfterSet(files, p, values);
    CleanEditParses(files, p, values, p);
    CleanEditParses(files, p, values, g);
    HighestLayerWins(Defaults(linux), Parsed(files, g), Parsed(files, p), os, k);
    HighestLayerWins(Defaults(linux), Parsed(after, g), Parsed(after, p), os, k);
  }

  /** Unsetting keys in the project store gives them back the global result, unless the
      environment supplies them, and leaves every other setting alone. */
  lemma StoreUnsetRestoresGlobal(linux: bool, files: map<string, FileData>, g: string, p: string,
                                 os: map<string, string>, keys: set<string>, k: Key)
    requires g != p
    ensures Get(Loaded(linux, AfterUnset(files, p, keys), g, p, os), k) ==
            if Name(k) in keys
            then Get(Resolve(Defaults(linux), Parsed(files, g), map[], os), k)
            else Get(Loaded(linux, files, g, p, os), k)
  {
    hide Get, Decode, Resolve, Parsed, AfterUnset, Name, IsKey;
    var after := AfterUnset(files, p, keys);
    AfterUnsetParses(files, p, keys, p);
    AfterUnsetParses(files, p, keys, g);
    NamesAreKeys(k);
    HighestLayerWins(Defaults(linux), Parsed(files, g), Parsed(files, p), os, k);
    HighestLayerWins(Defaults(linux), Parsed(files, g), map[], os, k);
    HighestLayerWins(Defaults(linux), Parsed(after, g), Parsed(after, p), os, k);
  }

  lemma TextNamesAreKeys(k: Key)
    requires k.Mem? || k.Cpu? || k.Base? || k.Packages?
    ensures IsKey(Name(k))
  {
  }

  lemma BoolNamesAreKeys(k: Key)
    requires k.Skip? || k.Root? || k.Sudo? || k.NetJail?
    ensures IsKey(Name(k))
  {
  }

  lemma OtherNamesAreKeys(k: Key)
    requires k.Allow? || k.AllowFile? || k.Approve?
    ensures IsKey(Name(k))
  {
  }

  /** All eleven keys have the shape that the editor recognises. */
  lemma NamesAreKeys(k: Key)
    ensures IsKey(Name(k))
  {
    hide IsKey, Name;
    if k.Mem? || k.Cpu? || k.Base? || k.Packages? {
      TextNamesAreKeys(k);
    } else if k.Allow? || k.AllowFile? || k.Approve? {
      OtherNamesAreKeys(k);
    } else {
      BoolNamesAreKeys(k);
    }
  }
}
