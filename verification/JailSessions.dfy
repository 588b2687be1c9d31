/** Any number of network jails on one Docker daemon, their set-up and clean-up calls interleaved in
    any order. A session's network is named by agent and project, its proxy by a random token. */
module JailSessions {
  import opened Wrappers
  import opened NetworkJail

  /** Where a session is between two of its calls. */
  datatype Phase =
    | Sweeping | Creating | Starting | Waiting | Installing  // NewNetworkJail
    | Running
    | DropProxy | DropNetwork                                // Cleanup
    | Done

  datatype JailSession = JailSession(agent: string, hash: string, token: string, net: Option<string>, phase: Phase)

  /** Docker's networks and containers, the sessions, and every network id that was ever given out. */
  datatype World = World(res: Resources, sessions: map<nat, JailSession>, ids: set<string>)

  datatype Event =
    | Begin(s: nat, agent: string, hash: string, token: string)
    | Sweep(s: nat, works: bool)                     // removeDockerNetworkByName
    | Create(s: nat, id: string, ok: bool)           // NetworkCreate
    | Fail(s: nat)                                   // some later call of NewNetworkJail fails
    | Launch(s: nat, at: string, outcome: Start)     // docker run, on the network that the name finds
    | Report(s: nat)                                 // the proxy is ready
    | Install(s: nat)                                // the rules are in
    | End(s: nat)                                    // the session is over
    | RemoveProxy(s: nat, works: bool)
    | RemoveNetwork(s: nat, works: bool)

  const HASH_LENGTH: nat := 12
  const TOKEN_LENGTH: nat := 8

  function NetName(s: JailSession): string {
    NetworkName(s.agent, s.hash)
  }

  function Proxy(s: JailSession): string {
    ProxyName(s.agent, s.token)
  }

  function Goto(w: World, s: nat, phase: Phase): World
    requires s in w.sessions
  {
    w.(sessions := w.sessions[s := w.sessions[s].(phase := phase)])
  }

  /** Tokens are random; a session whose token was drawn before is outside the model. */
  function StepBegin(w: World, s: nat, agent: string, hash: string, token: string): World {
    if s in w.sessions || |hash| != HASH_LENGTH || |token| != TOKEN_LENGTH
       || ProxyName(agent, token) in w.res.containers
       || exists t :: t in w.sessions && w.sessions[t].token == token
    then w
    else w.(sessions := w.sessions[s := JailSession(agent, hash, token, None, Sweeping)])
  }

  function StepSweep(w: World, s: nat, works: bool): World
    requires s in w.sessions
  {
    if !w.sessions[s].phase.Sweeping? then w
    else Goto(w, s, Creating).(res := Swept(w.res, NetName(w.sessions[s]), works))
  }

  function StepCreate(w: World, s: nat, id: string, ok: bool): World
    requires s in w.sessions
  {
    if !w.sessions[s].phase.Creating? || (ok && id in w.ids) then w
    else if !ok then Goto(w, s, Done)
    else
      World(w.res.(networks := w.res.networks[id := NetName(w.sessions[s])]),
            w.sessions[s := w.sessions[s].(net := Some(id), phase := Starting)],
            w.ids + {id})
  }

  function StepLaunch(w: World, s: nat, at: string, outcome: Start): World
    requires s in w.sessions
  {
    var x := w.sessions[s];
    if !x.phase.Starting? then w
    else if outcome.FailsBefore? || Proxy(x) in w.res.containers
            || at !in w.res.networks || w.res.networks[at] != NetName(x)
    then Goto(w, s, DropProxy)
    else
      Goto(w, s, if outcome.Starts? then Waiting else DropProxy).(
        res := w.res.(containers := w.res.containers[Proxy(x) := at]))
  }

  function StepRemoveProxy(w: World, s: nat, works: bool): World
    requires s in w.sessions
  {
    if !w.sessions[s].phase.DropProxy? then w
    else Goto(w, s, DropNetwork).(res := WithoutContainer(w.res, Proxy(w.sessions[s]), works))
  }

  function StepRemoveNetwork(w: World, s: nat, works: bool): World
    requires s in w.sessions
  {
    var x := w.sessions[s];
    if !x.phase.DropNetwork? then w
    else Goto(w, s, Done).(res := if x.net.Some? then WithoutNetwork(w.res, x.net.value, works) else w.res)
  }

  function StepPhase(w: World, s: nat, from: set<Phase>, to: Phase): World
    requires s in w.sessions
  {
    if w.sessions[s].phase in from then Goto(w, s, to) else w
  }

  function Step(w: World, e: Event): World {
    if e.Begin? then StepBegin(w, e.s, e.agent, e.hash, e.token)
    else if e.s !in w.sessions then w
    else
      match e
      case Sweep(s, works) => StepSweep(w, s, works)
      case Create(s, id, ok) => StepCreate(w, s, id, ok)
      case Fail(s) => StepPhase(w, s, {Starting, Waiting, Installing}, DropProxy)
      case Launch(s, at, outcome) => StepLaunch(w, s, at, outcome)
      case Report(s) => StepPhase(w, s, {Waiting}, Installing)
      case Install(s) => StepPhase(w, s, {Installing}, Running)
      case End(s) => StepPhase(w, s, {Running}, DropProxy)
      case RemoveProxy(s, works) => StepRemoveProxy(w, s, works)
      case RemoveNetwork(s, works) => StepRemoveNetwork(w, s, works)
  }

  function Run(w: World, events: seq<Event>): World {
    if events == [] then w else Step(Run(w, events[..|events| - 1]), events[|events| - 1])
  }

  /** Before the first session: any networks and containers, also stale ones. */
  predicate Initial(w: World) {
    && w.sessions == map[]
    && w.res.networks.Keys <= w.ids
    && forall c :: c in w.res.containers ==> w.res.containers[c] in w.res.networks
  }

  // ---- names ----

  lemma SuffixUnique(a: string, k: string, b: string, m: string)
    requires |k| == |m| && a + k == b + m
    ensures a == b && k == m
  {
    assert k == (a + k)[|a|..] && m == (b + m)[|b|..];
    assert a == (a + k)[..|a|] && b == (b + m)[..|b|];
  }

  /** Two sessions share a network name exactly when they share agent and project hash; the random
      token has no part in it. It is the proxy's name that the token makes unique. */
  lemma NameSharedIff(s: JailSession, t: JailSession)
    requires |s.hash| == |t.hash| && |s.token| == |t.token|
    ensures NetName(s) == NetName(t) <==> s.agent == t.agent && s.hash == t.hash
    ensures Proxy(s) == Proxy(t) <==> s.agent == t.agent && s.token == t.token
  {
    if NetName(s) == NetName(t) {
      SuffixUnique("smithjail-" + s.agent + "-net-", s.hash, "smithjail-" + t.agent + "-net-", t.hash);
      MiddleUnique("smithjail-", s.agent, t.agent, "-net-");
    }
    if Proxy(s) == Proxy(t) {
      SuffixUnique("smithjail-" + s.agent + "-proxy-", s.token, "smithjail-" + t.agent + "-proxy-", t.token);
      MiddleUnique("smithjail-", s.agent, t.agent, "-proxy-");
    }
  }

  lemma MiddleUnique(pre: string, a: string, b: string, post: string)
    requires pre + a + post == pre + b + post
    ensures a == b
  {
    SuffixUnique(pre + a, post, pre + b, post);
    assert a == (pre + a)[|pre|..] && b == (pre + b)[|pre|..];
  }

  // ---- the invariant ----

  predicate SameProject(s: JailSession, t: JailSession) {
    s.agent == t.agent && s.hash == t.hash
  }

  /** Whoever is attached is attached to a network that is still there. */
  predicate AttachedOk(r: Resources) {
    forall c :: c in r.containers ==> r.containers[c] in r.networks
  }

  predicate ShapeOk(s: JailSession) {
    && |s.hash| == HASH_LENGTH && |s.token| == TOKEN_LENGTH
    && (s.phase.Sweeping? || s.phase.Creating? ==> s.net.None?)
    && (s.net.None? ==> s.phase.Sweeping? || s.phase.Creating? || s.phase.Done?)
  }

  /** A session's network and proxy, as far as they exist, bear its names; its proxy exists only
      between launch and clean-up. */
  predicate OwnOk(r: Resources, s: JailSession) {
    && (s.net.Some? && s.net.value in r.networks ==> r.networks[s.net.value] == NetName(s))
    && (Proxy(s) in r.containers ==>
          && !s.phase.Sweeping? && !s.phase.Creating? && !s.phase.Starting?
          && r.containers[Proxy(s)] in r.networks
          && r.networks[r.containers[Proxy(s)]] == NetName(s))
    && (s.phase.Waiting? || s.phase.Installing? || s.phase.Running? ==> Proxy(s) in r.containers)
  }

  ghost predicate SessionsOk(w: World) {
    forall s :: s in w.sessions ==>
      && ShapeOk(w.sessions[s])
      && OwnOk(w.res, w.sessions[s])
      && (w.sessions[s].net.Some? ==> w.sessions[s].net.value in w.ids)
  }

  predicate Different(s: JailSession, t: JailSession) {
    s.token != t.token && (s.net.Some? ==> t.net != s.net)
  }

  ghost predicate ApartOk(w: World) {
    forall s, t :: s in w.sessions && t in w.sessions && s != t ==> Different(w.sessions[s], w.sessions[t])
  }

  ghost predicate IsProxy(w: World, c: string) {
    exists t :: t in w.sessions && Proxy(w.sessions[t]) == c
  }

  /** Only proxies of sessions are attached to the networks that sessions created. */
  ghost predicate GuestsOk(w: World) {
    forall c, s :: c in w.res.containers && s in w.sessions && w.sessions[s].net == Some(w.res.containers[c]) ==>
      IsProxy(w, c)
  }

  ghost predicate Inv(w: World) {
    && AttachedOk(w.res)
    && w.res.networks.Keys <= w.ids
    && SessionsOk(w)
    && ApartOk(w)
    && GuestsOk(w)
  }

  // ---- every step keeps it ----

  lemma SweepKeepsAttached(r: Resources, name: string, works: bool)
    requires AttachedOk(r)
    ensures var q := Swept(r, name, works);
            && AttachedOk(q) && q.containers == r.containers && q.networks.Keys <= r.networks.Keys
            && forall id :: id in q.networks ==> q.networks[id] == r.networks[id]
  {
    var q := Swept(r, name, works);
    forall c | c in q.containers
      ensures q.containers[c] in q.networks
    {
      assert Attached(r, r.containers[c]);
    }
  }

  lemma DropKeepsAttached(r: Resources, id: string, works: bool)
    requires AttachedOk(r)
    ensures var q := WithoutNetwork(r, id, works);
            && AttachedOk(q) && q.containers == r.containers && q.networks.Keys <= r.networks.Keys
            && forall n :: n in q.networks ==> q.networks[n] == r.networks[n]
  {
    var q := WithoutNetwork(r, id, works);
    forall c | c in q.containers
      ensures q.containers[c] in q.networks
    {
      assert Attached(r, r.containers[c]);
    }
  }

  /** What a step does to the resources that other sessions rely on: networks go only when nothing
      is attached, and keep their names; containers go and come only under the mover's name. */
  ghost predicate Gentle(w: World, w': World, mine: string) {
    && AttachedOk(w'.res)
    && w.ids <= w'.ids && w'.res.networks.Keys <= w'.ids
    && (forall n :: n in w'.res.networks && n in w.ids ==>
        n in w.res.networks && w'.res.networks[n] == w.res.networks[n])
    && (forall c :: c != mine ==> (c in w'.res.containers <==> c in w.res.containers))
    && (forall c :: c != mine && c in w.res.containers ==> w'.res.containers[c] == w.res.containers[c])
  }

  /** The name under which an event may touch containers. */
  function Mine(w: World, e: Event): string {
    if e.s in w.sessions then Proxy(w.sessions[e.s]) else ""
  }

  lemma StepGentle(w: World, e: Event)
    requires AttachedOk(w.res) && w.res.networks.Keys <= w.ids
    ensures Gentle(w, Step(w, e), Mine(w, e))
  {
    hide Swept, WithoutNetwork, AttachedOk, NetName, Proxy;
    if e.s in w.sessions {
      var x := w.sessions[e.s];
      match e {
        case Sweep(_, works) => SweepKeepsAttached(w.res, NetName(x), works);
        case RemoveNetwork(_, works) =>
          if x.net.Some? {
            DropKeepsAttached(w.res, x.net.value, works);
          }
        case Create(_, id, _) => AddNetwork(w.res, id, NetName(x));
        case Launch(_, at, _) => AddContainer(w.res, Proxy(x), at);
        case RemoveProxy(_, works) => DropContainer(w.res, Proxy(x), works);
        case _ =>
      }
    }
  }

  lemma AddNetwork(r: Resources, id: string, name: string)
    requires AttachedOk(r)
    ensures AttachedOk(r.(networks := r.networks[id := name]))
  {
  }

  lemma AddContainer(r: Resources, c: string, at: string)
    requires AttachedOk(r)
    ensures at in r.networks ==> AttachedOk(r.(containers := r.containers[c := at]))
  {
  }

  lemma DropContainer(r: Resources, c: string, works: bool)
    requires AttachedOk(r)
    ensures AttachedOk(WithoutContainer(r, c, works))
  {
  }

  /** The step of one session leaves the others' claims standing. */
  lemma OthersStayOk(w: World, w': World, mine: string, t: JailSession)
    requires Gentle(w, w', mine) && AttachedOk(w.res) && w.res.networks.Keys <= w.ids
    requires OwnOk(w.res, t) && Proxy(t) != mine && (t.net.Some? ==> t.net.value in w.ids)
    ensures OwnOk(w'.res, t)
  {
    hide NetName, Proxy;
    if Proxy(t) in w'.res.containers {
      assert w'.res.containers[Proxy(t)] in w'.res.networks;
    }
  }

  /** The session that moves. */
  lemma MoverStaysOk(w: World, e: Event)
    requires Inv(w) && e.s in w.sessions
    ensures var x := Step(w, e).sessions[e.s];
            && ShapeOk(x) && OwnOk(Step(w, e).res, x) && (x.net.Some? ==> x.net.value in Step(w, e).ids)
            && Proxy(x) == Mine(w, e) && NetName(x) == NetName(w.sessions[e.s])
  {
    hide NetworkName, ProxyName, ApartOk, GuestsOk, Swept, WithoutNetwork;
    StepGentle(w, e);
    var x := w.sessions[e.s];
    assert ShapeOk(x) && OwnOk(w.res, x);
    if e.Sweep? {
      SweepKeepsAttached(w.res, NetName(x), e.works);
    } else if e.RemoveNetwork? && x.net.Some? {
      DropKeepsAttached(w.res, x.net.value, e.works);
    }
  }

  lemma BeginnerOk(w: World, e: Event)
    requires Inv(w) && e.Begin? && Step(w, e) != w
    ensures var x := Step(w, e).sessions[e.s];
            && ShapeOk(x) && OwnOk(w.res, x) && x.net.None? && x.phase.Sweeping?
            && Step(w, e).sessions == w.sessions[e.s := x]
            && forall t :: t in w.sessions ==> w.sessions[t].token != x.token
    ensures Step(w, e).res == w.res && Step(w, e).ids == w.ids && e.s !in w.sessions
  {
    hide NetworkName, ProxyName;
  }

  /** Only the session that an event is about changes, and a new one comes in only by Begin. */
  lemma StepFrame(w: World, e: Event)
    ensures forall t :: t != e.s ==>
              (t in Step(w, e).sessions <==> t in w.sessions) &&
              (t in w.sessions ==> Step(w, e).sessions[t] == w.sessions[t])
    ensures e.s in w.sessions ==> e.s in Step(w, e).sessions
    ensures !e.Begin? && e.s !in w.sessions ==> Step(w, e) == w
    ensures e.Begin? && e.s in w.sessions ==> Step(w, e) == w
  {
    hide NetworkName, ProxyName, Swept, WithoutNetwork, WithoutContainer;
  }

  lemma ProxiesDiffer(w: World, s: nat, t: nat)
    requires SessionsOk(w) && ApartOk(w) && s in w.sessions && t in w.sessions && s != t
    ensures Proxy(w.sessions[s]) != Proxy(w.sessions[t])
  {
    hide NetworkName, ProxyName, OwnOk, NetName, Proxy;
    assert Different(w.sessions[s], w.sessions[t]);
    NameSharedIff(w.sessions[s], w.sessions[t]);
  }

  lemma StepSessions(w: World, e: Event)
    requires Inv(w)
    ensures SessionsOk(Step(w, e))
  {
    hide Step, ShapeOk, OwnOk, NetName, Proxy, GuestsOk, ApartOk, AttachedOk, Gentle;
    var w' := Step(w, e);
    StepFrame(w, e);
    StepGentle(w, e);
    if e.s in w.sessions {
      MoverStaysOk(w, e);
      forall t | t in w'.sessions && t != e.s
        ensures OwnOk(w'.res, w'.sessions[t])
      {
        ProxiesDiffer(w, e.s, t);
        OthersStayOk(w, w', Mine(w, e), w.sessions[t]);
      }
      assert w.ids <= w'.ids by { GentleIds(w, w', Mine(w, e)); }
    } else if w' != w {
      assert e.Begin?;
      BeginnerOk(w, e);
    }
  }

  lemma GentleIds(w: World, w': World, mine: string)
    requires Gentle(w, w', mine)
    ensures w.ids <= w'.ids && w'.res.networks.Keys <= w'.ids && AttachedOk(w'.res)
  {
  }

  /** A network id is fresh when it is given out, and a session has one at most. */
  lemma MoverNet(w: World, e: Event)
    requires e.s in w.sessions
    ensures var x, y := w.sessions[e.s], Step(w, e).sessions[e.s];
            && y.agent == x.agent && y.hash == x.hash && y.token == x.token
            && (y.net == x.net || (y.net.Some? && y.net.value !in w.ids && x.phase.Creating?))
  {
    hide NetworkName, ProxyName, Swept, WithoutNetwork, WithoutContainer;
  }

  lemma StepApart(w: World, e: Event)
    requires Inv(w)
    ensures ApartOk(Step(w, e))
  {
    hide Step, ShapeOk, OwnOk, NetName, Proxy, GuestsOk, AttachedOk, Mine, Gentle;
    var w' := Step(w, e);
    StepFrame(w, e);
    if e.s in w.sessions {
      MoverNet(w, e);
      forall s, t | s in w'.sessions && t in w'.sessions && s != t
        ensures Different(w'.sessions[s], w'.sessions[t])
      {
        assert Different(w.sessions[s], w.sessions[t]) && Different(w.sessions[t], w.sessions[s]);
      }
    } else if w' != w {
      BeginnerOk(w, e);
      forall s, t | s in w'.sessions && t in w'.sessions && s != t
        ensures Different(w'.sessions[s], w'.sessions[t])
      {
        if s != e.s && t != e.s {
          assert Different(w.sessions[s], w.sessions[t]);
        }
      }
    }
  }

  lemma StepGuests(w: World, e: Event)
    requires Inv(w)
    ensures GuestsOk(Step(w, e))
  {
    hide Step, ShapeOk, OwnOk, NetName, Proxy, AttachedOk;
    var w' := Step(w, e);
    StepFrame(w, e);
    StepGentle(w, e);
    if e.s in w.sessions {
      MoverNet(w, e);
      MoverStaysOk(w, e);
      forall c, s | c in w'.res.containers && s in w'.sessions && w'.sessions[s].net == Some(w'.res.containers[c])
        ensures IsProxy(w', c)
      {
        GuestAfter(w, e, c, s);
      }
    } else if w' != w {
      BeginnerOk(w, e);
      forall c, s | c in w'.res.containers && s in w'.sessions && w'.sessions[s].net == Some(w'.res.containers[c])
        ensures IsProxy(w', c)
      {
        assert IsProxy(w, c);
        var t :| t in w.sessions && Proxy(w.sessions[t]) == c;
        assert w'.sessions[t] == w.sessions[t];
      }
    }
  }

  lemma GuestAfter(w: World, e: Event, c: string, s: nat)
    requires Inv(w) && e.s in w.sessions
    requires var w' := Step(w, e);
             c in w'.res.containers && s in w'.sessions && w'.sessions[s].net == Some(w'.res.containers[c])
    ensures IsProxy(Step(w, e), c)
  {
    hide Step, ShapeOk, OwnOk, NetName, Proxy, ApartOk;
    var w' := Step(w, e);
    StepFrame(w, e);
    StepGentle(w, e);
    MoverNet(w, e);
    MoverStaysOk(w, e);
    if c == Mine(w, e) {
      assert Proxy(w'.sessions[e.s]) == c;
    } else {
      assert w.res.containers[c] in w.ids;
      assert w.sessions[s].net == Some(w.res.containers[c]);
      assert IsProxy(w, c);
      var t :| t in w.sessions && Proxy(w.sessions[t]) == c;
      assert t != e.s;
      assert w'.sessions[t] == w.sessions[t];
    }
  }

  lemma StepInv(w: World, e: Event)
    requires Inv(w)
    ensures Inv(Step(w, e))
  {
    hide Step, SessionsOk, ApartOk, GuestsOk, AttachedOk, Gentle;
    StepGentle(w, e);
    GentleIds(w, Step(w, e), Mine(w, e));
    StepSessions(w, e);
    StepApart(w, e);
    StepGuests(w, e);
  }

  lemma {:induction false} RunInv(w: World, events: seq<Event>)
    requires Initial(w)
    ensures Inv(Run(w, events))
    decreases |events|
  {
    hide Step, Inv;
    if events == [] {
      InitialInv(w);
    } else {
      RunInv(w, events[..|events| - 1]);
      StepInv(Run(w, events[..|events| - 1]), events[|events| - 1]);
    }
  }

  lemma InitialInv(w: World)
    requires Initial(w)
    ensures Inv(w)
  {
  }

  // ---- what one session may do to another ----

  /** In every run: no step of another session, no sweep and no Cleanup, takes a session's proxy or
      the network that this proxy is attached to. */
  lemma OthersKeepProxy(w: World, events: seq<Event>, e: Event, s: nat)
    requires Initial(w)
    requires var now := Run(w, events);
             s in now.sessions && Proxy(now.sessions[s]) in now.res.containers && e.s != s
    ensures var now := Run(w, events);
            var next, p := Step(now, e), Proxy(now.sessions[s]);
            && p in next.res.containers && next.res.containers[p] == now.res.containers[p]
            && next.res.containers[p] in next.res.networks
            && next.res.networks[next.res.containers[p]] == NetName(now.sessions[s])
  {
    hide Run, Step, ShapeOk, NetName, Proxy, GuestsOk, ApartOk;
    RunInv(w, events);
    var now := Run(w, events);
    StepGentle(now, e);
    assert OwnOk(now.res, now.sessions[s]);
    if e.s in now.sessions {
      ProxiesDiffer(now, e.s, s);
    } else {
      StepFrame(now, e);
      if Step(now, e) != now {
        BeginnerOk(now, e);
      }
    }
  }

  /** Exactly when a sweep takes the network that another session has created: it works, the two
      share agent and project, nothing is attached yet, and the name is not ambiguous. */
  lemma SweepTakesIff(w: World, events: seq<Event>, a: nat, b: nat, works: bool)
    requires Initial(w)
    requires var now := Run(w, events);
             && a in now.sessions && b in now.sessions && now.sessions[b].phase.Sweeping?
             && now.sessions[a].net.Some? && now.sessions[a].net.value in now.res.networks
    ensures var now := Run(w, events);
            var id := now.sessions[a].net.value;
            id !in Step(now, Sweep(b, works)).res.networks <==>
              && works
              && SameProject(now.sessions[a], now.sessions[b])
              && !Attached(now.res, id)
              && forall n :: n in now.res.networks && now.res.networks[n] == NetName(now.sessions[b]) ==> n == id
  {
    hide Run, NetName, Proxy, GuestsOk, ApartOk;
    RunInv(w, events);
    var now := Run(w, events);
    var x, y := now.sessions[a], now.sessions[b];
    assert ShapeOk(x) && ShapeOk(y) && OwnOk(now.res, x);
    NameSharedIff(x, y);
    SweptIff(now.res, NetName(y), works, x.net.value);
  }

  lemma SweptIff(r: Resources, name: string, works: bool, id: string)
    requires id in r.networks
    ensures id !in Swept(r, name, works).networks <==>
              && works && r.networks[id] == name && !Attached(r, id)
              && forall n :: n in r.networks && r.networks[n] == name ==> n == id
  {
    hide Attached;
    var same := set n | n in r.networks && r.networks[n] == name;
    if id in same {
      if |same| == 1 {
        OneElement(same, id);
        assert forall n :: n in r.networks && r.networks[n] == name ==> n in same;
      } else {
        assert same != {id};
        assert exists n :: n in same && n != id;
      }
    }
    assert id !in Swept(r, name, works).networks <==>
           works && |same| == 1 && (forall n :: n in same ==> !Attached(r, n)) && id in same;
  }

  lemma OneElement(s: set<string>, x: string)
    requires |s| == 1 && x in s
    ensures forall y :: y in s ==> y == x
  {
    assert |s - {x}| == 0;
    forall y | y in s
      ensures y == x
    {
      assert y !in s - {x};
    }
  }

  /** Exactly when a clean-up whose removals work leaves its network behind: the proxy of some session
      is attached to it. If it is another session, the two share agent and project. */
  lemma CleanupLeavesIff(w: World, events: seq<Event>, s: nat)
    requires Initial(w)
    requires var now := Run(w, events); s in now.sessions && now.sessions[s].phase.DropNetwork?
    ensures var now := Run(w, events);
            var x := now.sessions[s];
            && x.net.Some?
            && (x.net.value in Step(now, Event.RemoveNetwork(s, true)).res.networks <==>
                  x.net.value in now.res.networks &&
                  exists t :: t in now.sessions && AttachedTo(now, t, x.net.value))
            && forall t :: t in now.sessions && AttachedTo(now, t, x.net.value) ==> SameProject(x, now.sessions[t])
  {
    hide Run, NetName, Proxy, ApartOk;
    RunInv(w, events);
    var now := Run(w, events);
    var x := now.sessions[s];
    assert ShapeOk(x) && OwnOk(now.res, x);
    var id := x.net.value;
    if Attached(now.res, id) {
      var c :| c in now.res.containers && now.res.containers[c] == id;
      assert IsProxy(now, c);
    }
    forall t | t in now.sessions && AttachedTo(now, t, id)
      ensures SameProject(x, now.sessions[t]) && Attached(now.res, id)
    {
      assert ShapeOk(now.sessions[t]) && OwnOk(now.res, now.sessions[t]);
      assert now.res.containers[Proxy(now.sessions[t])] in now.res.networks;
      NameSharedIff(x, now.sessions[t]);
    }
  }

  predicate AttachedTo(w: World, t: nat, id: string)
    requires t in w.sessions
  {
    Proxy(w.sessions[t]) in w.res.containers && w.res.containers[Proxy(w.sessions[t])] == id
  }

  // ---- one session of a project at a time ----

  /** No two sessions that are not over share agent and project. */
  ghost predicate LiveApart(w: World) {
    forall s, t :: s in w.sessions && t in w.sessions && s != t && SameProject(w.sessions[s], w.sessions[t]) ==>
      w.sessions[s].phase.Done? || w.sessions[t].phase.Done?
  }

  predicate RemovalsAllWork(events: seq<Event>) {
    forall i :: 0 <= i < |events| ==> (events[i].RemoveProxy? || events[i].RemoveNetwork? ==> events[i].works)
  }

  /** A session that has dropped its proxy has none, and one that is over has no network either. */
  ghost predicate Left(w: World, s: nat)
    requires s in w.sessions
  {
    var x := w.sessions[s];
    && (x.phase.DropNetwork? || x.phase.Done? ==> Proxy(x) !in w.res.containers)
    && (x.phase.Done? && x.net.Some? ==> x.net.value !in w.res.networks)
  }

  ghost predicate AllLeft(w: World) {
    forall s :: s in w.sessions ==> Left(w, s)
  }

  /** With one live session of a project at a time, nobody but its own proxy is ever attached to the
      network of a live session: the proxies of those that are over are gone. */
  lemma OnlyItsOwn(w: World, s: nat, c: string)
    requires Inv(w) && LiveApart(w) && AllLeft(w) && s in w.sessions && !w.sessions[s].phase.Done?
    requires c in w.res.containers && w.sessions[s].net == Some(w.res.containers[c])
    ensures c == Proxy(w.sessions[s])
  {
    hide ApartOk, NetName, Proxy;
    var x := w.sessions[s];
    assert IsProxy(w, c);
    var t :| t in w.sessions && Proxy(w.sessions[t]) == c;
    var y := w.sessions[t];
    assert ShapeOk(x) && ShapeOk(y) && OwnOk(w.res, x) && OwnOk(w.res, y);
    assert w.res.containers[c] in w.res.networks;
    NameSharedIff(x, y);
    assert Left(w, t);
  }

  lemma NobodyElse(w: World, s: nat)
    requires Inv(w) && LiveApart(w) && AllLeft(w) && s in w.sessions && w.sessions[s].phase.DropNetwork?
    requires w.sessions[s].net.Some?
    ensures !Attached(w.res, w.sessions[s].net.value)
  {
    hide Inv, LiveApart, Proxy;
    assert Left(w, s);
    hide AllLeft;
    if Attached(w.res, w.sessions[s].net.value) {
      var c :| c in w.res.containers && w.res.containers[c] == w.sessions[s].net.value;
      OnlyItsOwn(w, s, c);
      assert false;
    }
  }

  lemma LeftByOwn(w: World, e: Event, s: nat)
    requires Inv(w) && LiveApart(w) && AllLeft(w) && s in w.sessions && e.s == s
    requires e.RemoveProxy? || e.RemoveNetwork? ==> e.works
    ensures Left(Step(w, e), s)
  {
    hide ApartOk, NetName, NetworkName, ProxyName, Swept, LiveApart, AllLeft;
    var x := w.sessions[s];
    assert ShapeOk(x) && OwnOk(w.res, x);
    assert Left(w, s) by { LeftOne(w, s); }
    if e.RemoveNetwork? && x.phase.DropNetwork? {
      NobodyElse(w, s);
    } else if e.Sweep? {
      SweepKeepsAttached(w.res, NetName(x), e.works);
    }
  }

  lemma LeftOne(w: World, s: nat)
    requires AllLeft(w) && s in w.sessions
    ensures Left(w, s)
  {
  }

  lemma StepLeft(w: World, e: Event, s: nat)
    requires Inv(w) && LiveApart(w) && AllLeft(w) && s in w.sessions
    requires e.RemoveProxy? || e.RemoveNetwork? ==> e.works
    ensures s in Step(w, e).sessions && Left(Step(w, e), s)
  {
    hide Step, GuestsOk, ApartOk, NetName, Proxy, LiveApart, AllLeft;
    StepFrame(w, e);
    StepGentle(w, e);
    LeftOne(w, s);
    if e.s == s {
      LeftByOwn(w, e, s);
    } else {
      assert w.sessions[s].net.Some? ==> w.sessions[s].net.value in w.ids;
      if e.s in w.sessions {
        ProxiesDiffer(w, e.s, s);
      } else if Step(w, e) != w {
        BeginnerOk(w, e);
      }
    }
  }

  lemma StepAllLeft(w: World, e: Event)
    requires Inv(w) && LiveApart(w) && AllLeft(w)
    requires e.RemoveProxy? || e.RemoveNetwork? ==> e.works
    ensures AllLeft(Step(w, e))
  {
    hide Step, Inv, LiveApart, Left;
    StepFrame(w, e);
    forall s | s in Step(w, e).sessions
      ensures Left(Step(w, e), s)
    {
      if s in w.sessions {
        StepLeft(w, e, s);
      } else {
        BeginnerOk(w, e);
        NewcomerLeft(Step(w, e), s);
      }
    }
  }

  lemma NewcomerLeft(w: World, s: nat)
    requires s in w.sessions && ShapeOk(w.sessions[s]) && w.sessions[s].net.None? && !w.sessions[s].phase.Done?
    ensures Left(w, s)
  {
  }

  lemma {:induction false} AllLeftOverRun(w: World, events: seq<Event>)
    requires Initial(w) && RemovalsAllWork(events)
    requires forall n :: 0 <= n <= |events| ==> LiveApart(Run(w, events[..n]))
    ensures AllLeft(Run(w, events))
    decreases |events|
  {
    hide Step, LiveApart, Inv;
    if events != [] {
      var init, e := events[..|events| - 1], events[|events| - 1];
      assert forall n :: 0 <= n <= |init| ==> init[..n] == events[..n];
      AllLeftOverRun(w, init);
      RunInv(w, init);
      hide AllLeft;
      StepAllLeft(Run(w, init), e);
    }
  }

  /** Any interleaving of any number of sessions in which a project never has two sessions at a time,
      though it may have many one after the other: if the removals work, a session that is over has
      left neither its proxy nor its network. */
  lemma OneAtATimeLeavesNothing(w: World, events: seq<Event>, s: nat)
    requires Initial(w) && RemovalsAllWork(events)
    requires forall n :: 0 <= n <= |events| ==> LiveApart(Run(w, events[..n]))
    requires s in Run(w, events).sessions && Run(w, events).sessions[s].phase.Done?
    ensures var now := Run(w, events);
            var x := now.sessions[s];
            Proxy(x) !in now.res.containers && (x.net.Some? ==> x.net.value !in now.res.networks)
  {
    hide Run, LiveApart, RemovalsAllWork;
    AllLeftOverRun(w, events);
    LeftOne(Run(w, events), s);
  }

  ghost predicate ProjectsApart(w: World) {
    forall s, t :: s in w.sessions && t in w.sessions && s != t ==> !SameProject(w.sessions[s], w.sessions[t])
  }

  lemma ApartBefore(w: World, e: Event)
    requires ProjectsApart(Step(w, e))
    ensures ProjectsApart(w)
  {
    hide Step;
    StepFrame(w, e);
    if e.s in w.sessions {
      MoverNet(w, e);
    }
    forall s, t | s in w.sessions && t in w.sessions && s != t
      ensures !SameProject(w.sessions[s], w.sessions[t])
    {
      assert !SameProject(Step(w, e).sessions[s], Step(w, e).sessions[t]);
    }
  }

  lemma {:induction false} ApartThroughout(w: World, events: seq<Event>)
    requires ProjectsApart(Run(w, events))
    ensures forall n :: 0 <= n <= |events| ==> LiveApart(Run(w, events[..n]))
    decreases |events|
  {
    hide Step;
    assert events[..|events|] == events;
    if events != [] {
      var init := events[..|events| - 1];
      ApartBefore(Run(w, init), events[|events| - 1]);
      hide ProjectsApart, LiveApart, Run;
      ApartThroughout(w, init);
      forall n | 0 <= n < |events|
        ensures LiveApart(Run(w, events[..n]))
      {
        assert init[..n] == events[..n];
      }
    }
  }

  /** In particular sessions of pairwise different agents or projects leave nothing. */
  lemma DistinctProjectsLeaveNothing(w: World, events: seq<Event>, s: nat)
    requires Initial(w) && RemovalsAllWork(events) && ProjectsApart(Run(w, events))
    requires s in Run(w, events).sessions
    ensures Left(Run(w, events), s)
  {
    hide Run, Left, RemovalsAllWork, ProjectsApart, LiveApart;
    ApartThroughout(w, events);
    AllLeftOverRun(w, events);
    LeftOne(Run(w, events), s);
  }

  // ---- sessions of one project ----

  function Play(w: World, events: seq<Event>): World
    decreases |events|
  {
    if events == [] then w else Play(Step(w, events[0]), events[1..])
  }

  lemma {:induction false} PlayRuns(w: World, before: seq<Event>, events: seq<Event>)
    ensures Play(Run(w, before), events) == Run(w, before + events)
    decreases |events|
  {
    hide Step;
    if events == [] {
      assert before + events == before;
    } else {
      assert (before + [events[0]])[..|before|] == before;
      PlayRuns(w, before + [events[0]], events[1..]);
      assert before + [events[0]] + events[1..] == before + events;
    }
  }

  lemma PlayThree(w: World, a: Event, b: Event, c: Event)
    ensures Play(w, [a, b, c]) == Step(Step(Step(w, a), b), c)
  {
    hide Step;
    var w1 := Step(w, a);
    var w2 := Step(w1, b);
    assert [a, b, c][1..] == [b, c] && [b, c][1..] == [c] && [c][1..] == [];
    assert Play(w2, [c]) == Play(Step(w2, c), []);
    assert Play(w1, [b, c]) == Play(w2, [c]);
  }

  const NOTHING: World := World(Resources(map[], map[], {}), map[], {})

  /** Two sessions of one project: the second sweeps the network of the first before the first has
      attached its proxy, which then joins the network of the second. */
  function Crossing(agent: string, hash: string, k: string, m: string): seq<Event> {
    [Begin(0, agent, hash, k), Sweep(0, true), Create(0, "a", true)]
    + [Begin(1, agent, hash, m), Sweep(1, true), Create(1, "b", true)]
    + [Launch(0, "b", Starts), Fail(1), Event.RemoveProxy(1, true)]
    + [Event.RemoveNetwork(1, true), Report(0), Install(0)]
    + [End(0), Event.RemoveProxy(0, true), Event.RemoveNetwork(0, true)]
  }

  /** So for one project the clean-up is not complete: both sessions are over, every removal worked,
      no container is left, and a network stays behind. */
  lemma OneProjectMayLeak(agent: string, hash: string, k: string, m: string)
    requires |hash| == HASH_LENGTH && |k| == TOKEN_LENGTH && |m| == TOKEN_LENGTH && k != m
    ensures RemovalsAllWork(Crossing(agent, hash, k, m))
    ensures var w := Run(NOTHING, Crossing(agent, hash, k, m));
            && w.sessions.Keys == {0, 1} && w.sessions[0].phase.Done? && w.sessions[1].phase.Done?
            && w.res.containers == map[]
            && w.res.networks == map["b" := NetworkName(agent, hash)] && w.sessions[1].net == Some("b")
  {
    hide Step, Run, Play, NetworkName, ProxyName;
    var x, y := JailSession(agent, hash, k, Some("a"), Starting), JailSession(agent, hash, m, Some("b"), Starting);
    NameSharedIff(x, y);
    CrossingRuns(agent, hash, k, m);
    BothCreate(x, y);
    FirstJoinsSecond(x, y);
    FirstEnds(x, y);
  }

  /** The state after each three events. */
  function Created(x: JailSession): World {
    World(Resources(map["a" := NetName(x)], map[], {}), map[0 := x], {"a"})
  }

  function Swapped(x: JailSession, y: JailSession): World {
    World(Resources(map["b" := NetName(x)], map[], {}), map[0 := x, 1 := y], {"a", "b"})
  }

  function Joined(x: JailSession, y: JailSession): World {
    World(Resources(map["b" := NetName(x)], map[Proxy(x) := "b"], {}),
          map[0 := x.(phase := Waiting), 1 := y.(phase := DropNetwork)], {"a", "b"})
  }

  lemma CrossingRuns(agent: string, hash: string, k: string, m: string)
    ensures RemovalsAllWork(Crossing(agent, hash, k, m))
    ensures Run(NOTHING, Crossing(agent, hash, k, m)) ==
            Play(Play(Play(Play(Play(NOTHING,
              [Begin(0, agent, hash, k), Sweep(0, true), Create(0, "a", true)]),
              [Begin(1, agent, hash, m), Sweep(1, true), Create(1, "b", true)]),
              [Launch(0, "b", Starts), Fail(1), Event.RemoveProxy(1, true)]),
              [Event.RemoveNetwork(1, true), Report(0), Install(0)]),
              [End(0), Event.RemoveProxy(0, true), Event.RemoveNetwork(0, true)])
  {
    hide Step, Play, Run;
    var e1 := [Begin(0, agent, hash, k), Sweep(0, true), Create(0, "a", true)];
    var e2 := [Begin(1, agent, hash, m), Sweep(1, true), Create(1, "b", true)];
    var e3 := [Launch(0, "b", Starts), Fail(1), Event.RemoveProxy(1, true)];
    var e4 := [Event.RemoveNetwork(1, true), Report(0), Install(0)];
    var e5 := [End(0), Event.RemoveProxy(0, true), Event.RemoveNetwork(0, true)];
    RunNothing(NOTHING);
    PlayRuns(NOTHING, [], e1);
    assert [] + e1 == e1;
    PlayRuns(NOTHING, e1, e2);
    PlayRuns(NOTHING, e1 + e2, e3);
    PlayRuns(NOTHING, e1 + e2 + e3, e4);
    PlayRuns(NOTHING, e1 + e2 + e3 + e4, e5);
  }

  lemma RunNothing(w: World)
    ensures Run(w, []) == w
  {
  }

  lemma BothCreate(x: JailSession, y: JailSession)
    requires ShapeOk(x) && ShapeOk(y) && SameProject(x, y) && x.token != y.token
    requires x.net == Some("a") && y.net == Some("b") && x.phase.Starting? && y.phase.Starting?
    ensures Play(NOTHING, [Begin(0, x.agent, x.hash, x.token), Sweep(0, true), Create(0, "a", true)]) == Created(x)
    ensures Play(Created(x), [Begin(1, x.agent, x.hash, y.token), Sweep(1, true), Create(1, "b", true)]) ==
            Swapped(x, y)
  {
    hide Play, NetworkName, ProxyName, Swept, StepLaunch, StepRemoveProxy, StepRemoveNetwork, StepPhase;
    PlayThree(NOTHING, Begin(0, x.agent, x.hash, x.token), Sweep(0, true), Create(0, "a", true));
    SweepNone(NOTHING.res, NetName(x));
    PlayThree(Created(x), Begin(1, x.agent, x.hash, y.token), Sweep(1, true), Create(1, "b", true));
    SweepOne(Created(x).res, "a", NetName(x));
  }

  lemma SweepNone(r: Resources, name: string)
    requires r.networks == map[]
    ensures Swept(r, name, true) == r
  {
  }

  lemma SweepOne(r: Resources, id: string, name: string)
    requires r.networks == map[id := name] && r.containers == map[]
    ensures Swept(r, name, true) == r.(networks := map[])
  {
    var same := set n | n in r.networks && r.networks[n] == name;
    assert same == {id};
  }

  lemma FirstJoinsSecond(x: JailSession, y: JailSession)
    requires SameProject(x, y) && x.token != y.token && Proxy(x) != Proxy(y)
    requires x.net == Some("a") && y.net == Some("b") && x.phase.Starting? && y.phase.Starting?
    ensures Play(Swapped(x, y), [Launch(0, "b", Starts), Fail(1), Event.RemoveProxy(1, true)]) == Joined(x, y)
  {
    hide Play, NetworkName, ProxyName;
    PlayThree(Swapped(x, y), Launch(0, "b", Starts), Fail(1), Event.RemoveProxy(1, true));
    assert map[Proxy(x) := "b"] - {Proxy(y)} == map[Proxy(x) := "b"];
  }

  function SecondOver(x: JailSession, y: JailSession): World {
    World(Joined(x, y).res, map[0 := x.(phase := Running), 1 := y.(phase := Done)], {"a", "b"})
  }

  lemma SecondEnds(x: JailSession, y: JailSession)
    requires x.net == Some("a") && y.net == Some("b")
    ensures Play(Joined(x, y), [Event.RemoveNetwork(1, true), Report(0), Install(0)]) == SecondOver(x, y)
  {
    hide Play, NetworkName, ProxyName, StepBegin, StepSweep, StepCreate, StepLaunch, StepRemoveProxy;
    var w := Joined(x, y);
    PlayThree(w, Event.RemoveNetwork(1, true), Report(0), Install(0));
    assert w.res.containers[Proxy(x)] == "b" && Attached(w.res, "b");
    var w1 := Step(w, Event.RemoveNetwork(1, true));
    assert w1 == World(w.res, map[0 := x.(phase := Waiting), 1 := y.(phase := Done)], {"a", "b"});
    var w2 := Step(w1, Report(0));
    assert w2 == World(w.res, map[0 := x.(phase := Installing), 1 := y.(phase := Done)], {"a", "b"});
  }

  lemma FirstEnds(x: JailSession, y: JailSession)
    requires SameProject(x, y) && x.net == Some("a") && y.net == Some("b")
    ensures var w := Play(Play(Joined(x, y), [Event.RemoveNetwork(1, true), Report(0), Install(0)]),
                          [End(0), Event.RemoveProxy(0, true), Event.RemoveNetwork(0, true)]);
            && w.sessions == map[0 := x.(phase := Done), 1 := y.(phase := Done)]
            && w.res.containers == map[]
            && w.res.networks == map["b" := NetName(x)]
  {
    hide Play, NetworkName, ProxyName;
    SecondEnds(x, y);
    var v := SecondOver(x, y);
    PlayThree(v, End(0), Event.RemoveProxy(0, true), Event.RemoveNetwork(0, true));
    var v1 := Step(v, End(0));
    assert v1 == World(v.res, map[0 := x.(phase := DropProxy), 1 := y.(phase := Done)], {"a", "b"});
    FirstDropsProxy(x, y, v1);
    FirstDropsNetwork(x, y, Step(v1, Event.RemoveProxy(0, true)));
  }

  lemma FirstDropsProxy(x: JailSession, y: JailSession, w: World)
    requires w == World(Joined(x, y).res, map[0 := x.(phase := DropProxy), 1 := y.(phase := Done)], {"a", "b"})
    ensures Step(w, Event.RemoveProxy(0, true)) ==
            World(Resources(map["b" := NetName(x)], map[], {}),
                  map[0 := x.(phase := DropNetwork), 1 := y.(phase := Done)], {"a", "b"})
  {
    hide NetworkName, ProxyName;
    assert map[Proxy(x) := "b"] - {Proxy(x)} == map[];
  }

  lemma FirstDropsNetwork(x: JailSession, y: JailSession, w: World)
    requires x.net == Some("a")
    requires w == World(Resources(map["b" := NetName(x)], map[], {}),
                        map[0 := x.(phase := DropNetwork), 1 := y.(phase := Done)], {"a", "b"})
    ensures Step(w, Event.RemoveNetwork(0, true)) ==
            w.(sessions := map[0 := x.(phase := Done), 1 := y.(phase := Done)])
  {
    hide NetworkName, ProxyName;
    assert map["b" := NetName(x)] - {"a"} == map["b" := NetName(x)];
  }

  // ---- a session on its own ----

  /** A session that is new to Docker and to the other sessions. */
  ghost predicate Newcomer(w: World, s: nat, x: JailSession, id: string) {
    && s !in w.sessions && |x.hash| == HASH_LENGTH && |x.token| == TOKEN_LENGTH
    && Proxy(x) !in w.res.containers
    && (forall t :: t in w.sessions ==> w.sessions[t].token != x.token)
    && id !in w.ids && id !in w.res.networks
    && (forall c :: c in w.res.containers ==> w.res.containers[c] != id)
  }

  /** The calls of a session in which nothing fails, one after the other: when the rules are in, its proxy
      runs on a new network that bears its name; when it is over, Docker is as it was before. */
  lemma SessionAlone(w: World, s: nat, x: JailSession, id: string)
    requires Newcomer(w, s, x, id)
    ensures var up := Play(w, [Begin(s, x.agent, x.hash, x.token), Sweep(s, false), Create(s, id, true)]
                              + [Launch(s, id, Starts), Report(s), Install(s)]);
            var over := Play(up, [End(s), Event.RemoveProxy(s, true), Event.RemoveNetwork(s, true)]);
            && s in up.sessions && up.sessions[s].phase == Running && up.sessions[s].net == Some(id)
            && up.res.networks == w.res.networks[id := NetworkName(x.agent, x.hash)]
            && up.res.containers == w.res.containers[ProxyName(x.agent, x.token) := id]
            && s in over.sessions && over.sessions[s].phase == Done
            && over.res == w.res
  {
    hide Play, Step, NetworkName, ProxyName;
    PlaySplit(w, [Begin(s, x.agent, x.hash, x.token), Sweep(s, false), Create(s, id, true)],
              [Launch(s, id, Starts), Report(s), Install(s)]);
    AloneCreates(w, s, x, id);
    var w1 := Play(w, [Begin(s, x.agent, x.hash, x.token), Sweep(s, false), Create(s, id, true)]);
    AloneRuns(w1, s, id);
    var w2 := Play(w1, [Launch(s, id, Starts), Report(s), Install(s)]);
    AloneEnds(w2, s, id, End(s));
    assert w.res.containers[Proxy(x) := id] - {Proxy(x)} == w.res.containers;
    assert w.res.networks[id := NetName(x)] - {id} == w.res.networks;
  }

  lemma {:induction false} PlaySplit(w: World, a: seq<Event>, b: seq<Event>)
    ensures Play(w, a + b) == Play(Play(w, a), b)
    decreases |a|
  {
    hide Step;
    if a == [] {
      assert a + b == b;
    } else {
      assert (a + b)[1..] == a[1..] + b;
      PlaySplit(Step(w, a[0]), a[1..], b);
    }
  }

  lemma AloneCreates(w: World, s: nat, x: JailSession, id: string)
    requires Newcomer(w, s, x, id)
    ensures var t := Play(w, [Begin(s, x.agent, x.hash, x.token), Sweep(s, false), Create(s, id, true)]);
            && s in t.sessions && t.sessions[s] == JailSession(x.agent, x.hash, x.token, Some(id), Starting)
            && t.res == w.res.(networks := w.res.networks[id := NetName(x)])
  {
    hide Play, NetworkName, ProxyName, StepLaunch, StepRemoveProxy, StepRemoveNetwork, StepPhase;
    PlayThree(w, Begin(s, x.agent, x.hash, x.token), Sweep(s, false), Create(s, id, true));
    NoSweep(w.res, NetName(x));
  }

  lemma NoSweep(r: Resources, name: string)
    ensures Swept(r, name, false) == r
  {
  }

  lemma AloneRuns(w: World, s: nat, id: string)
    requires s in w.sessions && w.sessions[s].phase == Starting && Proxy(w.sessions[s]) !in w.res.containers
    requires id in w.res.networks && w.res.networks[id] == NetName(w.sessions[s])
    ensures var t := Play(w, [Launch(s, id, Starts), Report(s), Install(s)]);
            && s in t.sessions && t.sessions[s] == w.sessions[s].(phase := Running)
            && t.res == w.res.(containers := w.res.containers[Proxy(w.sessions[s]) := id])
  {
    hide Play, NetworkName, ProxyName, StepBegin, StepSweep, StepCreate, StepRemoveProxy, StepRemoveNetwork;
    PlayThree(w, Launch(s, id, Starts), Report(s), Install(s));
  }

  /** The session is over, or a later call of its set-up has failed. */
  predicate EndsIn(phase: Phase, s: nat, e: Event) {
    (phase == Running && e == End(s)) || (phase in {Starting, Waiting, Installing} && e == Fail(s))
  }

  lemma AloneEnds(w: World, s: nat, id: string, e: Event)
    requires s in w.sessions && EndsIn(w.sessions[s].phase, s, e) && w.sessions[s].net == Some(id)
    requires forall c :: c in w.res.containers && c != Proxy(w.sessions[s]) ==> w.res.containers[c] != id
    ensures var t := Play(w, [e, Event.RemoveProxy(s, true), Event.RemoveNetwork(s, true)]);
            && s in t.sessions && t.sessions[s].phase == Done
            && t.res == Resources(w.res.networks - {id}, w.res.containers - {Proxy(w.sessions[s])}, w.res.files)
  {
    hide Play, NetworkName, ProxyName, StepBegin, StepSweep, StepCreate, StepLaunch;
    PlayThree(w, e, Event.RemoveProxy(s, true), Event.RemoveNetwork(s, true));
    var w1 := Step(w, e);
    var w2 := Step(w1, Event.RemoveProxy(s, true));
    assert w2.res == w.res.(containers := w.res.containers - {Proxy(w.sessions[s])});
    assert !Attached(w2.res, id);
  }

  /** A set-up that fails at any call behind the network's creation: n of its later calls have worked, the
      next one fails, and the roll-back leaves Docker as it was before. */
  lemma FailureAlone(w: World, s: nat, x: JailSession, id: string, n: nat)
    requires Newcomer(w, s, x, id) && n <= 2
    ensures var created := Play(w, [Begin(s, x.agent, x.hash, x.token), Sweep(s, false), Create(s, id, true)]);
            var failing := Play(created, [Launch(s, id, Starts), Report(s)][..n]);
            var over := Play(failing, [Fail(s), Event.RemoveProxy(s, true), Event.RemoveNetwork(s, true)]);
            s in over.sessions && over.sessions[s].phase == Done && over.res == w.res
  {
    hide Play, Step, NetworkName, ProxyName;
    AloneCreates(w, s, x, id);
    var w1 := Play(w, [Begin(s, x.agent, x.hash, x.token), Sweep(s, false), Create(s, id, true)]);
    AloneGetsTo(w1, s, id, n);
    var w2 := Play(w1, [Launch(s, id, Starts), Report(s)][..n]);
    AloneEnds(w2, s, id, Fail(s));
    assert w.res.networks[id := NetName(x)] - {id} == w.res.networks;
    assert w2.res.containers - {Proxy(x)} == w.res.containers;
  }

  lemma AloneGetsTo(w: World, s: nat, id: string, n: nat)
    requires s in w.sessions && w.sessions[s].phase == Starting && Proxy(w.sessions[s]) !in w.res.containers
    requires id in w.res.networks && w.res.networks[id] == NetName(w.sessions[s]) && n <= 2
    ensures var t := Play(w, [Launch(s, id, Starts), Report(s)][..n]);
            && s in t.sessions
            && t.sessions[s] == w.sessions[s].(phase := [Starting, Waiting, Installing][n])
            && t.res == if n == 0 then w.res
                        else w.res.(containers := w.res.containers[Proxy(w.sessions[s]) := id])
  {
    hide Play, NetworkName, ProxyName, StepBegin, StepSweep, StepCreate, StepRemoveProxy, StepRemoveNetwork;
    var calls := [Launch(s, id, Starts), Report(s)];
    assert calls[..0] == [] && calls[..1] == [calls[0]] && calls[..2] == calls;
    PlayUpToTwo(w, calls[0], calls[1]);
  }

  lemma PlayUpToTwo(w: World, e1: Event, e2: Event)
    ensures Play(w, []) == w && Play(w, [e1]) == Step(w, e1) && Play(w, [e1, e2]) == Step(Step(w, e1), e2)
  {
    hide Step;
    assert [e1][1..] == [] && [e1, e2][1..] == [e2] && [e2][1..] == [];
    assert Play(Step(w, e1), [e2]) == Step(Step(w, e1), e2);
  }
}
