/** Setting up and tearing down the network jail: staged acquisition with rollback. */
module NetworkJail {
  import opened Wrappers
  import opened Text
  import opened EnvFile
  import opened Agents
  import Policy

  // ---- the outside world ----

  /** Docker's networks (id to name) and containers (name to the network they are attached to),
      and the temp files on the host. */
  datatype Resources = Resources(networks: map<string, string>, containers: map<string, string>, files: set<string>)

  /** External calls that leave a trace, in the order in which they happen. */
  datatype Call =
    | NetworkCreated(id: string)
    | PolicyWritten(path: string)
    | ProxyStarted(name: string)
    | ProxyReady(name: string)
    | RulesInstalled(name: string)
    | RemoveContainer(name: string)
    | RemoveFile(path: string)
    | RemoveNetwork(id: string)

  /** A call may fail before or after it has created what it is for: docker run the container,
      ensureFileExists the event log. */
  datatype Start = Starts | FailsBefore | FailsAfterCreate

  /** Which external calls work in this run. */
  datatype Faults = Faults(
    linux: bool, module_: bool, sessionId: bool, allowFile: bool, images: bool,
    sweep: bool, network: bool, policyFile: bool, logPath: bool, logFile: Start,
    proxy: Start, polls: seq<string>, netsetup: bool,
    removeProxy: bool, removeFile: bool, removeNetwork: bool)

  const READY_MARKER: string := "smithjail-proxy: ready"

  /** strings.Contains. */
  predicate ContainsText(s: string, part: string) {
    exists i :: 0 <= i <= |s| && part <= s[i..]
  }

  /** Some poll of the proxy's logs, before time ran out, showed the marker. */
  predicate Reported(polls: seq<string>) {
    exists i :: 0 <= i < |polls| && ContainsText(polls[i], READY_MARKER)
  }

  /** The call at which NewNetworkJail gives up. */
  datatype Stage =
    | Platform | Module | Session | Hosts | Images | Network | PolicyFile | LogPath | LogFile | Proxy | Ready | Netsetup

  /** What a session's names are made of: its agent, its project's hash and its random token; the
      network id that Docker will give, the temp file of the policy, and the project's event log. */
  datatype Ids = Ids(agent: string, hash: string, session: string, networkId: string, policy: string, log: string)

  /** The network is named by agent and project, not by session. */
  function NetworkName(agent: string, hash: string): string {
    "smithjail-" + agent + "-net-" + hash
  }

  function ProxyName(agent: string, session: string): (name: string)
    ensures name != ""
  {
    "smithjail-" + agent + "-proxy-" + session
  }

  function NetworkOf(ids: Ids): string {
    NetworkName(ids.agent, ids.hash)
  }

  function ProxyOf(ids: Ids): (name: string)
    ensures name != ""
  {
    ProxyName(ids.agent, ids.session)
  }

  /** Nothing has the id, the proxy's name or the temp file's path yet. */
  predicate FreshIds(r: Resources, ids: Ids) {
    && ids.networkId != "" && ids.networkId !in r.networks
    && ProxyOf(ids) !in r.containers
    && ids.policy != "" && ids.policy !in r.files && ids.policy != ids.log
    && forall c :: c in r.containers ==> r.containers[c] != ids.networkId
  }

  predicate Attached(r: Resources, id: string) {
    exists c :: c in r.containers && r.containers[c] == id
  }

  // ---- what each removal does ----

  function WithoutContainer(r: Resources, name: string, works: bool): Resources {
    if works then r.(containers := r.containers - {name}) else r
  }

  /** Docker refuses to remove a network that still has a container attached. */
  function WithoutNetwork(r: Resources, id: string, works: bool): Resources {
    if works && !Attached(r, id) then r.(networks := r.networks - {id}) else r
  }

  function WithoutFile(r: Resources, path: string, works: bool): Resources {
    if works then r.(files := r.files - {path}) else r
  }

  /** createDockerNetwork first tries to remove one network of the same name, left from before. */
  function Swept(r: Resources, name: string, works: bool): Resources {
    var same := set id | id in r.networks && r.networks[id] == name;
    if works && |same| == 1 && (forall id :: id in same ==> !Attached(r, id))
    then r.(networks := map id | id in r.networks && id !in same :: r.networks[id])
    else r
  }

  /** What Cleanup leaves of the world. Ids that were never assigned are empty. */
  function Cleaned(r: Resources, proxy: string, policy: string, networkId: string, f: Faults): Resources {
    var r1 := WithoutContainer(r, proxy, f.removeProxy && proxy != "");
    var r2 := WithoutFile(r1, policy, f.removeFile && policy != "");
    WithoutNetwork(r2, networkId, f.removeNetwork && networkId != "")
  }

  function CleanupCalls(proxy: string, policy: string, networkId: string): seq<Call> {
    (if proxy != "" then [RemoveContainer(proxy)] else [])
    + (if policy != "" then [RemoveFile(policy)] else [])
    + (if networkId != "" then [RemoveNetwork(networkId)] else [])
  }

  // ---- what setting up comes to ----

  /** The first call that fails, in program order. */
  function FirstFailure(f: Faults): Option<Stage> {
    if !f.linux then Some(Platform)
    else if !f.module_ then Some(Module)
    else if !f.sessionId then Some(Session)
    else if !f.allowFile then Some(Hosts)
    else if !f.images then Some(Images)
    else if !f.network then Some(Network)
    else if !f.policyFile then Some(PolicyFile)
    else if !f.logPath then Some(LogPath)
    else if !f.logFile.Starts? then Some(LogFile)
    else if !f.proxy.Starts? then Some(Proxy)
    else if !Reported(f.polls) then Some(Ready)
    else if !f.netsetup then Some(Netsetup)
    else None
  }

  // How far setting up gets.

  predicate Prepared(f: Faults) {
    f.linux && f.module_ && f.sessionId && f.allowFile && f.images
  }

  predicate HasNetwork(f: Faults) {
    Prepared(f) && f.network
  }

  predicate HasPolicy(f: Faults) {
    HasNetwork(f) && f.policyFile
  }

  predicate HasContainer(f: Faults) {
    HasPolicy(f) && f.logPath && f.logFile.Starts? && !f.proxy.FailsBefore?
  }

  predicate HasProxy(f: Faults) {
    HasContainer(f) && f.proxy.Starts?
  }

  predicate Succeeds(f: Faults) {
    HasProxy(f) && Reported(f.polls) && f.netsetup
  }

  /** The policy path that the jail has noted when setting up stops. */
  function NotedPolicy(ids: Ids, f: Faults): string {
    if HasPolicy(f) then ids.policy else ""
  }

  predicate HasLog(f: Faults) {
    HasPolicy(f) && f.logPath && !f.logFile.FailsBefore?
  }

  /** The world without this session: as before, except that a stale network of the same name may
      have been swept away, and that the project's event log exists once set-up got that far. */
  function Without(r: Resources, ids: Ids, f: Faults): Resources {
    var swept := SweptFirst(r, ids, f);
    if HasLog(f) then swept.(files := swept.files + {ids.log}) else swept
  }

  function SweptFirst(r: Resources, ids: Ids, f: Faults): Resources {
    if Prepared(f) then Swept(r, NetworkOf(ids), f.sweep) else r
  }

  /** The resources that exist when setting up stops, before any rollback. */
  function Acquired(r: Resources, ids: Ids, f: Faults): Resources {
    var r0 := Without(r, ids, f);
    Resources(
      if HasNetwork(f) then r0.networks[ids.networkId := NetworkOf(ids)] else r0.networks,
      if HasContainer(f) then r0.containers[ProxyOf(ids) := ids.networkId] else r0.containers,
      if HasPolicy(f) then r0.files + {ids.policy} else r0.files)
  }

  /** The resources after NewNetworkJail has returned. */
  function AfterSetup(r: Resources, ids: Ids, f: Faults): Resources {
    if HasNetwork(f) && !Succeeds(f)
    then Cleaned(Acquired(r, ids, f), ProxyOf(ids), NotedPolicy(ids, f), ids.networkId, f)
    else Acquired(r, ids, f)
  }

  /** The five calls of a setup that runs to its end, in order. */
  function AllCalls(ids: Ids): seq<Call> {
    [NetworkCreated(ids.networkId), PolicyWritten(ids.policy)]
    + [ProxyStarted(ProxyOf(ids)), ProxyReady(ProxyOf(ids)), RulesInstalled(ProxyOf(ids))]
  }

  /** How many of them are made before setting up stops. */
  function Progress(f: Faults): (n: nat)
    ensures n <= 5
  {
    if Succeeds(f) then 5
    else if HasProxy(f) && Reported(f.polls) then 4
    else if HasProxy(f) then 3
    else if HasPolicy(f) then 2
    else if HasNetwork(f) then 1
    else 0
  }

  /** The calls that NewNetworkJail makes, in order. */
  function SetupCalls(ids: Ids, f: Faults): seq<Call> {
    AllCalls(ids)[..Progress(f)]
    + (if HasNetwork(f) && !Succeeds(f) then CleanupCalls(ProxyOf(ids), NotedPolicy(ids, f), ids.networkId) else [])
  }

  predicate RemovalsWork(f: Faults) {
    f.removeProxy && f.removeFile && f.removeNetwork
  }

  lemma SweptFresh(r: Resources, ids: Ids, ok: bool)
    requires FreshIds(r, ids)
    ensures FreshIds(Swept(r, NetworkOf(ids), ok), ids)
    ensures var s := Swept(r, NetworkOf(ids), ok); s.containers == r.containers && s.files == r.files
    ensures forall id :: id in Swept(r, NetworkOf(ids), ok).networks ==> id in r.networks
  {
  }

  /** When the removals work, cleaning up what was acquired, however far it got, gives back the
      world without this session. */
  lemma RollbackRestores(r: Resources, ids: Ids, f: Faults)
    requires FreshIds(r, ids) && RemovalsWork(f) && HasNetwork(f)
    ensures Cleaned(Acquired(r, ids, f), ProxyOf(ids), NotedPolicy(ids, f), ids.networkId, f) == Without(r, ids, f)
  {
    hide Swept;
    SweptFresh(r, ids, f.sweep);
    var r0, a := Without(r, ids, f), Acquired(r, ids, f);
    var r1 := WithoutContainer(a, ProxyOf(ids), true);
    assert r1.containers == r0.containers;
    var r2 := WithoutFile(r1, NotedPolicy(ids, f), NotedPolicy(ids, f) != "");
    assert ids.policy !in r0.files;
    assert r2.files == r0.files;
    assert !Attached(r2, ids.networkId);
    assert r2.networks - {ids.networkId} == r0.networks;
  }

  /** For every choice of failing calls: an error leaves none of what the session created, if the
      removals work. */
  lemma FailedSetupLeavesNothing(r: Resources, ids: Ids, f: Faults)
    requires FreshIds(r, ids) && RemovalsWork(f) && !Succeeds(f)
    ensures AfterSetup(r, ids, f) == Without(r, ids, f)
  {
    hide Swept, Cleaned;
    if HasNetwork(f) {
      RollbackRestores(r, ids, f);
    }
  }

  /** When a removal fails, exactly what it was for stays, and a network also stays while its
      proxy container does. */
  lemma LeftoverExact(r: Resources, ids: Ids, f: Faults)
    requires FreshIds(r, ids) && !Succeeds(f)
    ensures var left := AfterSetup(r, ids, f);
            && (ProxyOf(ids) in left.containers <==> HasContainer(f) && !f.removeProxy)
            && (ids.policy in left.files <==> HasPolicy(f) && !f.removeFile)
            && (ids.log in left.files <==> ids.log in r.files || HasLog(f))
            && (ids.networkId in left.networks <==>
                HasNetwork(f) && (!f.removeNetwork || (HasContainer(f) && !f.removeProxy)))
  {
    hide Swept;
    SweptFresh(r, ids, f.sweep);
    var a := Acquired(r, ids, f);
    if HasNetwork(f) {
      var r1 := WithoutContainer(a, ProxyOf(ids), f.removeProxy);
      var r2 := WithoutFile(r1, NotedPolicy(ids, f), f.removeFile && NotedPolicy(ids, f) != "");
      if HasContainer(f) && !f.removeProxy {
        assert ProxyOf(ids) in r2.containers && r2.containers[ProxyOf(ids)] == ids.networkId;
        assert Attached(r2, ids.networkId);
      } else {
        assert !Attached(r2, ids.networkId);
      }
    }
  }

  /** The rules go in only on success, right after the very proxy they redirect to has reported
      ready; a failed setup never installs them. */
  lemma RulesOnlyAfterReady(ids: Ids, f: Faults, i: nat)
    requires i < |SetupCalls(ids, f)| && SetupCalls(ids, f)[i].RulesInstalled?
    ensures Succeeds(f) && i > 0
    ensures SetupCalls(ids, f)[i] == RulesInstalled(ProxyOf(ids)) &&
            SetupCalls(ids, f)[i - 1] == ProxyReady(ProxyOf(ids))
    ensures i == |SetupCalls(ids, f)| - 1
  {
    if Succeeds(f) {
      assert SetupCalls(ids, f) == AllCalls(ids);
    }
  }

  /** The call at a stage does not work. */
  predicate Fails(f: Faults, s: Stage) {
    match s
    case Platform => !f.linux
    case Module => !f.module_
    case Session => !f.sessionId
    case Hosts => !f.allowFile
    case Images => !f.images
    case Network => !f.network
    case PolicyFile => !f.policyFile
    case LogPath => !f.logPath
    case LogFile => f.logFile != Starts
    case Proxy => f.proxy != Starts
    case Ready => forall i :: 0 <= i < |f.polls| ==> !ContainsText(f.polls[i], "smithjail-proxy: ready")
    case Netsetup => !f.netsetup
  }

  /** The stages in the order of the program. */
  const STAGES: seq<Stage> :=
    [Platform, Module, Session, Hosts, Images, Network, PolicyFile, LogPath, LogFile, Proxy, Ready, Netsetup]

  /** The first stage from the n-th on that fails. */
  function FirstFrom(f: Faults, n: nat): Option<Stage>
    requires n <= |STAGES|
    decreases |STAGES| - n
  {
    if n == |STAGES| then None else if Fails(f, STAGES[n]) then Some(STAGES[n]) else FirstFrom(f, n + 1)
  }

  lemma StagesDiffer()
    ensures forall i, j :: 0 <= i < j < |STAGES| ==> STAGES[i] != STAGES[j]
  {
  }

  lemma StageListed(s: Stage) returns (n: nat)
    ensures n < |STAGES| && STAGES[n] == s
  {
    n := match s
         case Platform => 0
         case Module => 1
         case Session => 2
         case Hosts => 3
         case Images => 4
         case Network => 5
         case PolicyFile => 6
         case LogPath => 7
         case LogFile => 8
         case Proxy => 9
         case Ready => 10
         case Netsetup => 11;
  }

  lemma {:induction false} FirstFromExact(f: Faults, n: nat, k: nat)
    requires n <= |STAGES| && k < |STAGES|
    ensures FirstFrom(f, n) == Some(STAGES[k]) <==>
            n <= k && Fails(f, STAGES[k]) && forall m :: n <= m < k ==> !Fails(f, STAGES[m])
    ensures FirstFrom(f, n) == None <==> forall m :: n <= m < |STAGES| ==> !Fails(f, STAGES[m])
    decreases |STAGES| - n
  {
    hide Fails;
    StagesDiffer();
    if n < |STAGES| {
      FirstFromExact(f, n + 1, k);
    }
  }

  lemma FailsReady(f: Faults)
    ensures Fails(f, Ready) <==> !Reported(f.polls)
  {
    hide ContainsText;
  }

  lemma FirstIsFirst(f: Faults)
    ensures FirstFailure(f) == FirstFrom(f, 0)
    ensures FirstFailure(f) == None <==> Succeeds(f)
  {
    hide ContainsText, Reported, FirstFrom;
    LastStages(f);
    MiddleStages(f);
    EarlyStages(f);
  }

  lemma EarlyStages(f: Faults)
    ensures FirstFrom(f, 3) == if !f.allowFile then Some(Hosts) else FirstFrom(f, 4)
    ensures FirstFrom(f, 2) == if !f.sessionId then Some(Stage.Session) else FirstFrom(f, 3)
    ensures FirstFrom(f, 1) == if !f.module_ then Some(Module) else FirstFrom(f, 2)
    ensures FirstFrom(f, 0) == if !f.linux then Some(Platform) else FirstFrom(f, 1)
  {
    hide ContainsText;
  }

  lemma MiddleStages(f: Faults)
    ensures FirstFrom(f, 7) == if !f.logPath then Some(LogPath) else FirstFrom(f, 8)
    ensures FirstFrom(f, 6) == if !f.policyFile then Some(PolicyFile) else FirstFrom(f, 7)
    ensures FirstFrom(f, 5) == if !f.network then Some(Network) else FirstFrom(f, 6)
    ensures FirstFrom(f, 4) == if !f.images then Some(Images) else FirstFrom(f, 5)
  {
    hide ContainsText;
  }

  lemma LastStages(f: Faults)
    ensures FirstFrom(f, 11) == if !f.netsetup then Some(Netsetup) else None
    ensures FirstFrom(f, 10) == if !Reported(f.polls) then Some(Ready) else FirstFrom(f, 11)
    ensures FirstFrom(f, 9) == if !f.proxy.Starts? then Some(Proxy) else FirstFrom(f, 10)
    ensures FirstFrom(f, 8) == if !f.logFile.Starts? then Some(LogFile) else FirstFrom(f, 9)
  {
    FailsReady(f);
    hide ContainsText, Reported;
    assert FirstFrom(f, 12) == None;
  }

  /** How far setting up gets, by stages: the network exists once the first six have worked, the policy file
      once the first seven have; the event log and the container may exist although their own call fails. */
  lemma ReachedExact(f: Faults)
    ensures HasNetwork(f) <==> WorksUpTo(f, 6)
    ensures HasPolicy(f) <==> WorksUpTo(f, 7)
    ensures HasLog(f) <==> WorksUpTo(f, 8) && f.logFile != FailsBefore
    ensures HasContainer(f) <==> WorksUpTo(f, 9) && f.proxy != FailsBefore
  {
    assert STAGES[0] == Platform && STAGES[1] == Module && STAGES[2] == Stage.Session && STAGES[3] == Hosts;
    assert STAGES[4] == Images && STAGES[5] == Network && STAGES[6] == PolicyFile && STAGES[7] == LogPath;
    assert STAGES[8] == LogFile;
    hide ContainsText;
  }

  /** The first n stages work. */
  predicate WorksUpTo(f: Faults, n: nat)
    requires n <= |STAGES|
  {
    forall m :: 0 <= m < n ==> !Fails(f, STAGES[m])
  }

  /** Setting up succeeds exactly when no stage fails, and otherwise reports the first one that does. */
  lemma FirstFailureExact(f: Faults, n: nat)
    requires n < |STAGES|
    ensures FirstFailure(f) == Some(STAGES[n]) <==>
            Fails(f, STAGES[n]) && forall m :: 0 <= m < n ==> !Fails(f, STAGES[m])
    ensures Succeeds(f) <==> forall s :: !Fails(f, s)
  {
    hide Fails, FirstFrom, FirstFailure, Succeeds;
    FirstIsFirst(f);
    FirstFromExact(f, 0, n);
    forall s | forall m :: 0 <= m < |STAGES| ==> !Fails(f, STAGES[m])
      ensures !Fails(f, s)
    {
      var k := StageListed(s);
    }
  }

  /** A text contains a part exactly when it is that part with something before and something behind. */
  lemma ContainsExact(s: string, part: string)
    ensures ContainsText(s, part) <==> exists a: string, b: string :: Surrounded(s, a, part, b)
  {
    if i :| 0 <= i <= |s| && part <= s[i..] {
      assert s == s[..i] + part + s[i + |part|..];
      assert Surrounded(s, s[..i], part, s[i + |part|..]);
    }
    if a, b :| Surrounded(s, a, part, b) {
      assert s[|a|..] == part + b;
    }
  }

  predicate Surrounded(s: string, a: string, part: string, b: string) {
    s == a + part + b
  }

  /** The calls of a set-up that succeeds, and the removals that every later failure attempts. */
  lemma CallsExact(ids: Ids, f: Faults)
    ensures Succeeds(f) ==>
              SetupCalls(ids, f) ==
              [NetworkCreated(ids.networkId), PolicyWritten(ids.policy), ProxyStarted(ProxyOf(ids)),
               ProxyReady(ProxyOf(ids)), RulesInstalled(ProxyOf(ids))]
    ensures HasNetwork(f) && !Succeeds(f) && ids.networkId != "" ==>
              RemoveContainer(ProxyOf(ids)) in SetupCalls(ids, f) && RemoveNetwork(ids.networkId) in SetupCalls(ids, f)
    ensures HasNetwork(f) && !Succeeds(f) && f.policyFile && ids.policy != "" ==>
              RemoveFile(ids.policy) in SetupCalls(ids, f)
    ensures !HasNetwork(f) ==> SetupCalls(ids, f) == []
  {
    var removals := CleanupCalls(ProxyOf(ids), NotedPolicy(ids, f), ids.networkId);
    assert RemoveContainer(ProxyOf(ids)) in removals;
    if ids.networkId != "" {
      assert removals[|removals| - 1] == RemoveNetwork(ids.networkId);
    }
    if HasPolicy(f) && ids.policy != "" {
      assert removals[1] == RemoveFile(ids.policy);
    }
    hide CleanupCalls, ContainsText;
  }

  /** The names of a session's network and proxy, spelled out. */
  lemma NamesSpelled()
    ensures NetworkName("hermes-local", "0123456789ab") == "smithjail-hermes-local-net-0123456789ab"
    ensures ProxyName("claude", "89abcdef") == "smithjail-claude-proxy-89abcdef"
  {
    assert "smithjail-" + "hermes-local" + "-net-" + "0123456789ab" == "smithjail-hermes-local-net-0123456789ab";
    assert "smithjail-" + "claude" + "-proxy-" + "89abcdef" == "smithjail-claude-proxy-89abcdef";
  }

  // ---- the code ----

  class Docker {
    var res: Resources
    var log: seq<Call>

    constructor (res: Resources)
      ensures this.res == res && log == []
    {
      this.res, log := res, [];
    }

    method Note(c: Call)
      modifies this`log
      ensures log == old(log) + [c]
    {
      log := log + [c];
    }

    /** removeContainerByName, forced. */
    method DropContainer(name: string, works: bool) returns (ok: bool)
      modifies this
      ensures res == WithoutContainer(old(res), name, works)
      ensures log == old(log) + [RemoveContainer(name)]
      ensures ok <==> works && name in old(res).containers
    {
      Note(RemoveContainer(name));
      ok := works && name in res.containers;
      res := WithoutContainer(res, name, works);
    }

    /** removeDockerNetwork. */
    method DropNetwork(id: string, works: bool) returns (ok: bool)
      modifies this
      ensures res == WithoutNetwork(old(res), id, works)
      ensures log == old(log) + [RemoveNetwork(id)]
      ensures ok <==> works && !Attached(old(res), id)
    {
      Note(RemoveNetwork(id));
      ok := works && !Attached(res, id);
      res := WithoutNetwork(res, id, works);
    }
  }

  class Jail {
    var networkId: string
    var networkName: string
    var proxyName: string
    var policyPath: string
    var allowedHosts: seq<string>

    constructor (networkName: string, proxyName: string, hosts: seq<string>)
      ensures this.networkName == networkName && this.proxyName == proxyName && allowedHosts == hosts
      ensures networkId == "" && policyPath == ""
    {
      this.networkName, this.proxyName, allowedHosts := networkName, proxyName, hosts;
      networkId, policyPath := "", "";
    }

    /** The three removals of Cleanup; each is for what the jail has noted, and does nothing if it
        has noted nothing. */
    method RemoveProxy(d: Docker, works: bool) returns (ok: bool)
      modifies d
      ensures d.res == WithoutContainer(old(d.res), proxyName, works && proxyName != "")
      ensures d.log == old(d.log) + if proxyName != "" then [RemoveContainer(proxyName)] else []
      ensures ok <==> proxyName == "" || (works && proxyName in old(d.res).containers)
    {
      ok := true;
      if proxyName != "" {
        ok := d.DropContainer(proxyName, works);
      }
    }

    method RemovePolicy(d: Docker, works: bool)
      modifies d
      ensures d.res == WithoutFile(old(d.res), policyPath, works && policyPath != "")
      ensures d.log == old(d.log) + if policyPath != "" then [RemoveFile(policyPath)] else []
    {
      if policyPath != "" {
        d.Note(RemoveFile(policyPath));
        d.res := WithoutFile(d.res, policyPath, works);
      }
    }

    method RemoveNetworkOf(d: Docker, works: bool) returns (ok: bool)
      modifies d
      ensures d.res == WithoutNetwork(old(d.res), networkId, works && networkId != "")
      ensures d.log == old(d.log) + if networkId != "" then [RemoveNetwork(networkId)] else []
      ensures ok <==> networkId == "" || (works && !Attached(old(d.res), networkId))
    {
      hide Attached;
      ok := true;
      if networkId != "" {
        ok := d.DropNetwork(networkId, works);
      }
    }

    /** Cleanup: every removal is attempted, whatever became of the ones before it. */
    method Cleanup(d: Docker, f: Faults) returns (errs: seq<Stage>)
      modifies d
      ensures d.res == Cleaned(old(d.res), proxyName, policyPath, networkId, f)
      ensures d.log == old(d.log) + CleanupCalls(proxyName, policyPath, networkId)
      ensures Proxy in errs <==> proxyName != "" && !(f.removeProxy && proxyName in old(d.res).containers)
      ensures Network in errs <==>
                networkId != "" &&
                !(f.removeNetwork &&
                  !Attached(WithoutContainer(old(d.res), proxyName, f.removeProxy && proxyName != ""), networkId))
    {
      hide Attached, WithoutNetwork, WithoutFile, WithoutContainer;
      errs := [];
      var ok := RemoveProxy(d, f.removeProxy);
      if !ok {
        errs := errs + [Proxy];
      }
      ghost var r1 := d.res;
      RemovePolicy(d, f.removeFile);
      FileFrame(r1, policyPath, f.removeFile && policyPath != "", networkId);
      ok := RemoveNetworkOf(d, f.removeNetwork);
      if !ok {
        errs := errs + [Network];
      }
    }
  }

  lemma FileFrame(r: Resources, path: string, works: bool, id: string)
    ensures Attached(WithoutFile(r, path, works), id) == Attached(r, id)
  {
    AttachedFrame(r, WithoutFile(r, path, works), id);
  }

  lemma AttachedFrame(a: Resources, b: Resources, id: string)
    requires a.containers == b.containers
    ensures Attached(a, id) == Attached(b, id)
  {
  }

  lemma NextCall(log: seq<Call>, ids: Ids, k: nat)
    requires k < 5
    ensures log + AllCalls(ids)[..k] + [AllCalls(ids)[k]] == log + AllCalls(ids)[..k + 1]
    ensures AllCalls(ids)[..0] == [] && |AllCalls(ids)| == 5
    ensures k == 0 ==> AllCalls(ids)[k] == NetworkCreated(ids.networkId)
    ensures k == 1 ==> AllCalls(ids)[k] == PolicyWritten(ids.policy)
    ensures k == 2 ==> AllCalls(ids)[k] == ProxyStarted(ProxyOf(ids))
    ensures k == 3 ==> AllCalls(ids)[k] == ProxyReady(ProxyOf(ids))
    ensures k == 4 ==> AllCalls(ids)[k] == RulesInstalled(ProxyOf(ids))
  {
  }

  /** The log is what tells the swept world from the one without this session. */
  lemma LogLeft(r: Resources, ids: Ids, f: Faults)
    ensures Without(r, ids, f) ==
            var swept := SweptFirst(r, ids, f);
            if HasLog(f) then swept.(files := swept.files + {ids.log}) else swept
  {
  }

  lemma PreparedSweeps(r: Resources, ids: Ids, f: Faults)
    ensures SweptFirst(r, ids, f) == if Prepared(f) then Swept(r, NetworkOf(ids), f.sweep) else r
  {
  }

  /** Setting up that fails before its network exists, or not at all, needs no rollback. */
  lemma StopsClean(r: Resources, log: seq<Call>, ids: Ids, f: Faults)
    ensures !Prepared(f) ==> AfterSetup(r, ids, f) == r
    ensures !HasNetwork(f) ==> AfterSetup(r, ids, f) == Without(r, ids, f) && log + SetupCalls(ids, f) == log
    ensures Succeeds(f) ==> AfterSetup(r, ids, f) == Acquired(r, ids, f)
    ensures Succeeds(f) ==> log + SetupCalls(ids, f) == log + AllCalls(ids)[..5]
  {
    hide Swept, Cleaned;
    if Succeeds(f) {
      assert AllCalls(ids)[..5] == AllCalls(ids);
    }
  }

  /** Setting up that fails later is rolled back from what it has by then. */
  lemma RollsBack(r: Resources, log: seq<Call>, ids: Ids, f: Faults, res: Resources, made: seq<Call>)
    requires HasNetwork(f) && !Succeeds(f)
    requires res == Acquired(r, ids, f) && made == log + AllCalls(ids)[..Progress(f)]
    ensures Cleaned(res, ProxyOf(ids), NotedPolicy(ids, f), ids.networkId, f) == AfterSetup(r, ids, f)
    ensures made + CleanupCalls(ProxyOf(ids), NotedPolicy(ids, f), ids.networkId) == log + SetupCalls(ids, f)
  {
    hide Swept, Cleaned, AllCalls, CleanupCalls;
  }

  /** NewNetworkJail: what it returns, what it leaves behind and which calls it makes. */
  method NewNetworkJail(d: Docker, ids: Ids, hosts: seq<string>, f: Faults) returns (r: Result<Jail, Stage>)
    requires FreshIds(d.res, ids)
    modifies d
    ensures r.Ok? <==> Succeeds(f)
    ensures r.Err? ==> Some(r.error) == FirstFailure(f)
    ensures d.res == AfterSetup(old(d.res), ids, f)
    ensures d.log == old(d.log) + SetupCalls(ids, f)
    ensures r.Ok? ==> fresh(r.value) && r.value.networkId == ids.networkId && r.value.proxyName == ProxyOf(ids) &&
                      r.value.policyPath == ids.policy && r.value.allowedHosts == hosts
  {
    hide Swept, Acquired, AllCalls, FreshIds, SetupCalls, AfterSetup, Without;
    ghost var before, log0 := d.res, d.log;
    StopsClean(before, log0, ids, f);
    if !f.linux {
      return Err(Platform);
    }
    if !f.module_ {
      return Err(Module);
    }
    if !f.sessionId {
      return Err(Session);
    }
    if !f.allowFile {
      return Err(Hosts);
    }
    var j := new Jail(NetworkOf(ids), ProxyOf(ids), hosts);
    if !f.images {
      return Err(Images);
    }
    PreparedSweeps(before, ids, f);
    LogLeft(before, ids, f);
    d.res := Swept(d.res, j.networkName, f.sweep);
    if !f.network {
      return Err(Network);
    }
    d.res := d.res.(networks := d.res.networks[ids.networkId := j.networkName]);
    d.Note(NetworkCreated(ids.networkId));
    NextCall(log0, ids, 0);
    j.networkId := ids.networkId;
    r := WriteFiles(d, j, ids, f, before, log0);
  }

  /** The middle part of NewNetworkJail, from the policy file to the event log. */
  method WriteFiles(d: Docker, j: Jail, ids: Ids, f: Faults, ghost before: Resources, ghost log0: seq<Call>)
    returns (r: Result<Jail, Stage>)
    requires HasNetwork(f)
    requires j.networkName == NetworkOf(ids) && j.proxyName == ProxyOf(ids) && j.networkId == ids.networkId &&
             j.policyPath == ""
    requires var r0 := SweptFirst(before, ids, f);
             d.res == r0.(networks := r0.networks[ids.networkId := NetworkOf(ids)])
    requires d.log == log0 + AllCalls(ids)[..1]
    modifies d, j
    ensures r.Ok? <==> Succeeds(f)
    ensures r.Err? ==> Some(r.error) == FirstFailure(f)
    ensures d.res == AfterSetup(before, ids, f)
    ensures d.log == log0 + SetupCalls(ids, f)
    ensures r.Ok? ==> r.value == j && j.networkId == ids.networkId && j.proxyName == ProxyOf(ids) &&
                      j.policyPath == ids.policy && j.allowedHosts == old(j.allowedHosts)
  {
    hide Cleaned, CleanupCalls, AllCalls, SetupCalls, AfterSetup, Without, SweptFirst;
    LogLeft(before, ids, f);
    if !f.policyFile {
      RollsBack(before, log0, ids, f, d.res, d.log);
      var _ := j.Cleanup(d, f);
      return Err(PolicyFile);
    }
    d.res := d.res.(files := d.res.files + {ids.policy});
    d.Note(PolicyWritten(ids.policy));
    NextCall(log0, ids, 1);
    j.policyPath := ids.policy;

    if !f.logPath {
      RollsBack(before, log0, ids, f, d.res, d.log);
      var _ := j.Cleanup(d, f);
      return Err(LogPath);
    }
    if !f.logFile.FailsBefore? {
      d.res := d.res.(files := d.res.files + {ids.log});
      assert SweptFirst(before, ids, f).files + {ids.policy} + {ids.log} ==
          Without(before, ids, f).files + {ids.policy};
    }
    if !f.logFile.Starts? {
      RollsBack(before, log0, ids, f, d.res, d.log);
      var _ := j.Cleanup(d, f);
      return Err(LogFile);
    }
    r := StartProxy(d, j, ids, f, before, log0);
  }

  /** The last part of NewNetworkJail: the proxy, its readiness, and only then the rules. */
  method StartProxy(d: Docker, j: Jail, ids: Ids, f: Faults, ghost before: Resources, ghost log0: seq<Call>)
    returns (r: Result<Jail, Stage>)
    requires HasPolicy(f) && f.logPath && f.logFile.Starts?
    requires j.networkName == NetworkOf(ids) && j.proxyName == ProxyOf(ids) && j.networkId == ids.networkId &&
             j.policyPath == ids.policy
    requires var r0 := Without(before, ids, f);
             d.res == Resources(r0.networks[ids.networkId := NetworkOf(ids)], r0.containers, r0.files + {ids.policy})
    requires d.log == log0 + AllCalls(ids)[..2]
    modifies d
    ensures r.Ok? <==> Succeeds(f)
    ensures r.Err? ==> Some(r.error) == FirstFailure(f)
    ensures d.res == AfterSetup(before, ids, f)
    ensures d.log == log0 + SetupCalls(ids, f)
    ensures r.Ok? ==> r.value == j
  {
    hide Cleaned, CleanupCalls, AllCalls, SetupCalls, AfterSetup, Without;
    StopsClean(before, log0, ids, f);
    if !f.proxy.FailsBefore? {
      d.res := d.res.(containers := d.res.containers[j.proxyName := j.networkId]);
    }
    if !f.proxy.Starts? {
      RollsBack(before, log0, ids, f, d.res, d.log);
      var _ := j.Cleanup(d, f);
      return Err(Proxy);
    }
    d.Note(ProxyStarted(j.proxyName));
    NextCall(log0, ids, 2);

    var ready := WaitProxyReady(f.polls);
    if !ready {
      RollsBack(before, log0, ids, f, d.res, d.log);
      var _ := j.Cleanup(d, f);
      return Err(Ready);
    }
    d.Note(ProxyReady(j.proxyName));
    NextCall(log0, ids, 3);

    if !f.netsetup {
      RollsBack(before, log0, ids, f, d.res, d.log);
      var _ := j.Cleanup(d, f);
      return Err(Netsetup);
    }
    d.Note(RulesInstalled(j.proxyName));
    NextCall(log0, ids, 4);
    return Ok(j);
  }

  /** waitProxyReady: look at the logs until they show the marker or time runs out. */
  method WaitProxyReady(polls: seq<string>) returns (ready: bool)
    ensures ready == Reported(polls)
  {
    for i := 0 to |polls|
      invariant forall j :: 0 <= j < i ==> !ContainsText(polls[j], READY_MARKER)
    {
      if ContainsText(polls[i], READY_MARKER) {
        return true;
      }
    }
    return false;
  }

  /** A whole session: set up, use, clean up. If the removals work nothing of it remains but the
      project's event log. */
  method WholeSession(d: Docker, ids: Ids, hosts: seq<string>, f: Faults) returns (ran: bool)
    requires FreshIds(d.res, ids)
    modifies d
    ensures ran <==> Succeeds(f)
    ensures RemovalsWork(f) ==> d.res == Without(old(d.res), ids, f)
  {
    hide Swept, Cleaned;
    ghost var before := d.res;
    var r := NewNetworkJail(d, ids, hosts, f);
    ran := r.Ok?;
    if r.Ok? {
      var _ := r.value.Cleanup(d, f);
    }
    if RemovalsWork(f) {
      if ran {
        RollbackRestores(before, ids, f);
      } else {
        FailedSetupLeavesNothing(before, ids, f);
      }
    }
  }

  // ---- the allow-list ----

  /** A line of the allow file that names a host. */
  predicate NamesHost(line: string) {
    Trim(line) != "" && !HasPrefix(Trim(line), '#')
  }

  /** By characters: a line names a host exactly when its first character that is not whitespace exists and
      is no '#'. */
  lemma HostLineExact(before: string, c: char, rest: string)
    requires (forall i :: 0 <= i < |before| ==> IsSpace(before[i])) && !IsSpace(c)
    ensures NamesHost(before + [c] + rest) <==> c != '#'
    ensures !NamesHost(before)
  {
    hide TrimRight;
    TrimLeftPad(before, [c] + rest);
    assert before + [c] + rest == before + ([c] + rest);
    assert TrimLeft([c] + rest) == [c] + rest;
    SomethingStays(c, rest);
    TrimPadded(before, "", "");
    assert before + "" + "" == before;
  }

  /** The hosts are the trimmed host lines: those at the given places, in order and no others. */
  predicate PickedAt(lines: seq<string>, hosts: seq<string>, at: seq<nat>) {
    && |at| == |hosts|
    && (forall i, j :: 0 <= i < j < |at| ==> at[i] < at[j])
    && (forall i :: 0 <= i < |at| ==> at[i] < |lines| && NamesHost(lines[at[i]]) && hosts[i] == Trim(lines[at[i]]))
    && (forall n :: 0 <= n < |lines| && NamesHost(lines[n]) ==> n in at)
  }

  ghost predicate PickedFrom(lines: seq<string>, hosts: seq<string>) {
    exists at :: PickedAt(lines, hosts, at)
  }

  /** readAllowFile on the text of a file that can be read. */
  method ReadAllowFile(text: string) returns (hosts: seq<string>)
    ensures PickedFrom(ScanLines(text), hosts)
  {
    hide Trim, ScanLines;
    var lines := ScanLines(text);
    ghost var at: seq<nat> := [];
    hosts := [];
    for i := 0 to |lines|
      invariant PickedAt(lines[..i], hosts, at)
    {
      PickNext(lines[..i], lines[i], hosts, at);
      assert lines[..i] + [lines[i]] == lines[..i + 1];
      var line := Trim(lines[i]);
      if line == "" || HasPrefix(line, '#') {
        continue;
      }
      hosts, at := hosts + [line], at + [i];
    }
    assert lines[..|lines|] == lines;
    assert PickedAt(lines, hosts, at);
  }

  lemma PickNext(lines: seq<string>, line: string, hosts: seq<string>, at: seq<nat>)
    requires PickedAt(lines, hosts, at)
    ensures if NamesHost(line) then PickedAt(lines + [line], hosts + [Trim(line)], at + [|lines|])
            else PickedAt(lines + [line], hosts, at)
  {
    hide NamesHost, Trim;
    assert |lines| in at + [|lines|];
  }

  /** What the caller of effectiveAllowedHosts supplies: the agent's name and defaults, the hosts of
      the configuration and of the command line, and the text of the allow file, if one is named and
      if it can be read. */
  datatype Sources = Sources(
    agent: string, defaults: seq<string>, config: seq<string>, flags: seq<string>, allowFile: Option<Option<string>>)

  ghost predicate InAllowFile(s: Sources, h: string) {
    && s.allowFile.Some? && s.allowFile.value.Some?
    && exists l :: l in ScanLines(s.allowFile.value.value) && NamesHost(l) && Trim(l) == h
  }

  /** Some source of the session names h. */
  ghost predicate Named(s: Sources, h: string) {
    || h in s.defaults || h in s.config || h in s.flags
    || InAllowFile(s, h)
    || (s.agent == "hermes-local" && h == OLLAMA)
  }

  /** The policy that the proxy builds from the written list lets this name through. */
  ghost predicate PolicyAllows(hosts: seq<string>, name: string) {
    Policy.AllowsHost(Policy.PolicyState(Policy.HostSet(hosts), [], map[]), name)
  }

  /** effectiveAllowedHosts. It fails exactly when the named allow file cannot be read; otherwise
      the policy made from the list allows a name if and only if some source names a host with the
      same non-empty normal form. */
  method EffectiveAllowedHosts(s: Sources) returns (r: Option<seq<string>>)
    ensures r.None? <==> s.allowFile == Some(None)
    ensures r.Some? ==> forall h :: h in r.value <==> Named(s, h)
    ensures r.Some? ==> forall name :: PolicyAllows(r.value, name) <==>
              Policy.NormalizeHost(name) != "" &&
              exists h :: Named(s, h) && Policy.NormalizeHost(h) == Policy.NormalizeHost(name)
  {
    hide ScanLines, NamesHost, Trim, Policy.NormalizeHost;
    var hosts := s.defaults;
    hosts := hosts + s.config;
    hosts := hosts + s.flags;
    if s.allowFile.Some? {
      if s.allowFile.value.None? {
        return None;
      }
      var extra := ReadAllowFile(s.allowFile.value.value);
      PickedMembers(ScanLines(s.allowFile.value.value), extra);
      hosts := hosts + extra;
    }
    if s.agent == "hermes-local" {
      hosts := hosts + [OLLAMA];
    }
    hide PickedFrom, Named, PolicyAllows;
    forall name
      ensures PolicyAllows(hosts, name) <==>
              Policy.NormalizeHost(name) != "" &&
              exists h :: Named(s, h) && Policy.NormalizeHost(h) == Policy.NormalizeHost(name)
    {
      ListIsPolicy(hosts, name);
    }
    return Some(hosts);
  }

  lemma PickedMembers(lines: seq<string>, hosts: seq<string>)
    requires PickedFrom(lines, hosts)
    ensures forall h :: h in hosts <==> exists l :: l in lines && NamesHost(l) && Trim(l) == h
  {
    hide NamesHost, Trim, PickedAt;
    var at :| PickedAt(lines, hosts, at);
    forall h | h in hosts
      ensures exists l :: l in lines && NamesHost(l) && Trim(l) == h
    {
      var i :| 0 <= i < |hosts| && hosts[i] == h;
      HostHasLine(lines, hosts, at, i);
    }
    forall l | l in lines && NamesHost(l)
      ensures Trim(l) in hosts
    {
      var n :| 0 <= n < |lines| && lines[n] == l;
      LineHasHost(lines, hosts, at, n);
    }
  }

  lemma HostHasLine(lines: seq<string>, hosts: seq<string>, at: seq<nat>, i: nat)
    requires PickedAt(lines, hosts, at) && i < |hosts|
    ensures at[i] < |lines| && lines[at[i]] in lines && NamesHost(lines[at[i]]) && Trim(lines[at[i]]) == hosts[i]
  {
    hide NamesHost, Trim;
  }

  lemma LineHasHost(lines: seq<string>, hosts: seq<string>, at: seq<nat>, n: nat)
    requires PickedAt(lines, hosts, at) && n < |lines| && NamesHost(lines[n])
    ensures Trim(lines[n]) in hosts
  {
    hide NamesHost, Trim;
    var i :| 0 <= i < |at| && at[i] == n;
    assert hosts[i] == Trim(lines[n]);
  }

  lemma ListIsPolicy(hosts: seq<string>, name: string)
    ensures PolicyAllows(hosts, name) <==>
            Policy.NormalizeHost(name) != "" &&
            exists h :: h in hosts && Policy.NormalizeHost(h) == Policy.NormalizeHost(name)
  {
    hide Policy.NormalizeHost;
  }

  /** The places are determined by the lines, so the result of reading an allow file is too. */
  lemma {:induction false} PickedOnce(lines: seq<string>, a: seq<string>, b: seq<string>)
    requires PickedFrom(lines, a) && PickedFrom(lines, b)
    ensures a == b
  {
    hide NamesHost, Trim, PickedAt;
    var i :| PickedAt(lines, a, i);
    var j :| PickedAt(lines, b, j);
    PlacesAre(lines, a, i);
    PlacesAre(lines, b, j);
    SamePlaces(i, j);
    SameHosts(lines, a, b, i);
  }

  lemma PlacesAre(lines: seq<string>, hosts: seq<string>, at: seq<nat>)
    requires PickedAt(lines, hosts, at)
    ensures forall n: nat :: n in at <==> n < |lines| && NamesHost(lines[n])
    ensures forall i, j :: 0 <= i < j < |at| ==> at[i] < at[j]
  {
    hide NamesHost, Trim;
  }

  lemma SameHosts(lines: seq<string>, a: seq<string>, b: seq<string>, at: seq<nat>)
    requires PickedAt(lines, a, at) && PickedAt(lines, b, at)
    ensures a == b
  {
    hide NamesHost, Trim;
  }

  /** Two increasing listings of the same places are the same listing. */
  lemma {:induction false} SamePlaces(a: seq<nat>, b: seq<nat>)
    requires forall i, j :: 0 <= i < j < |a| ==> a[i] < a[j]
    requires forall i, j :: 0 <= i < j < |b| ==> b[i] < b[j]
    requires forall n: nat :: n in a <==> n in b
    ensures a == b
    decreases |a|
  {
    assert a == [] || a[0] in a;
    assert b == [] || b[0] in b;
    if a != [] {
      assert a[0] == b[0];
      forall n: nat
        ensures n in a[1..] <==> n in b[1..]
      {
        assert n in a <==> n == a[0] || n in a[1..];
        assert n in b <==> n == b[0] || n in b[1..];
      }
      SamePlaces(a[1..], b[1..]);
      assert a == [a[0]] + a[1..] && b == [b[0]] + b[1..];
    }
  }
}
