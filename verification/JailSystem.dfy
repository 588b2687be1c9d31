/** The running network jail: nft rules, connection tracking, the DNS forwarder and the relay,
    with their steps interleaved in any order. */
module JailSystem {
  import opened Wrappers
  import opened Policy

  const PROXY_UID: nat := 5353
  const DNS_PORT: nat := 3053
  const HTTP_PORT: nat := 3080
  const TLS_PORT: nat := 3443

  const LOOPBACK: Ip := V4(0x7F00_0001)

  datatype Proto = Tcp | Udp | OtherProto

  datatype Endpoint = Endpoint(ip: Ip, port: nat)

  // ---- the rules ----

  /** chain output: where the first packet of a flow is sent after the nat hook. */
  function NatOutput(uid: nat, proto: Proto, dst: Endpoint): Endpoint {
    if uid == PROXY_UID then dst
    else if proto == Udp && dst.port == 53 then Endpoint(LOOPBACK, DNS_PORT)
    else if proto == Tcp && dst.port == 80 then Endpoint(LOOPBACK, HTTP_PORT)
    else if proto == Tcp && dst.port == 443 then Endpoint(LOOPBACK, TLS_PORT)
    else dst
  }

  /** chain block, which sees the address that the nat hook left. */
  predicate FilterAccepts(uid: nat, dst: Endpoint, established: bool) {
    uid == PROXY_UID || dst.ip == LOOPBACK || established
  }

  /** For all packets: a new flow gets out only to the loopback address or from the proxy, which
      is never redirected; web and name traffic of anyone else ends at a proxy port. */
  lemma RulesConfine(uid: nat, proto: Proto, dst: Endpoint)
    ensures var to := NatOutput(uid, proto, dst);
            && (uid == PROXY_UID ==> to == dst && FilterAccepts(uid, to, false))
            && (uid != PROXY_UID && FilterAccepts(uid, to, false) ==> to.ip == LOOPBACK)
            && (uid != PROXY_UID && dst.ip != LOOPBACK ==>
                (FilterAccepts(uid, to, false) <==>
                 (proto == Udp && dst.port == 53) || (proto == Tcp && (dst.port == 80 || dst.port == 443))))
            && (to != dst ==> to.ip == LOOPBACK && to.port in {DNS_PORT, HTTP_PORT, TLS_PORT})
            && (uid == PROXY_UID || dst.ip == LOOPBACK || FilterAccepts(uid, dst, true))
            && (to != dst && to.port == DNS_PORT ==> proto == Udp && dst.port == 53)
            && (to != dst && to.port == HTTP_PORT ==> proto == Tcp && dst.port == 80)
            && (to != dst && to.port == TLS_PORT ==> proto == Tcp && dst.port == 443)
  {
  }

  /** The same in numbers: user 5353 is the proxy; name queries of others go to 127.0.0.1:3053, web
      traffic to 127.0.0.1:3080 and TLS to 127.0.0.1:3443; 127.0.0.1 and known flows are let through. */
  lemma RulesInNumbers(uid: nat, dst: Endpoint)
    ensures NatOutput(5353, Udp, dst) == NatOutput(5353, Tcp, dst) == dst
    ensures uid != 5353 ==>
              && (dst.port == 53 ==> NatOutput(uid, Udp, dst) == Endpoint(V4(2130706433), 3053))
              && (dst.port == 80 ==> NatOutput(uid, Tcp, dst) == Endpoint(V4(2130706433), 3080))
              && (dst.port == 443 ==> NatOutput(uid, Tcp, dst) == Endpoint(V4(2130706433), 3443))
              && (dst.port != 53 ==> NatOutput(uid, Udp, dst) == dst)
              && (dst.port != 80 && dst.port != 443 ==> NatOutput(uid, Tcp, dst) == dst)
              && (FilterAccepts(uid, dst, false) <==> dst.ip == V4(2130706433))
    ensures FilterAccepts(5353, dst, false) && FilterAccepts(uid, dst, true)
  {
  }

  // ---- state ----

  /** How a packet is recognised as part of a flow. */
  datatype Tuple = Tuple(proto: Proto, sport: nat, dst: Endpoint)

  /** A conntrack entry: who opened the flow, where it was aimed and where it really goes. */
  datatype Entry = Entry(uid: nat, proto: Proto, orig: Endpoint, final: Endpoint)

  datatype Cause = ByProcess | Query(name: string) | Dial(seen: nat)

  /** A flow that the rules let through, with the reason why it was opened. A dial carries the
      number of upstream answers received before it. */
  datatype Flow = Flow(entry: Entry, cause: Cause)

  datatype Call =
    | Arrived(qs: seq<string>)
    | Listed(qs: seq<string>)
    | Waiting(qs: seq<string>)
    | Learning(qs: seq<string>, resp: Response, next: nat)
    | Replied(qs: seq<string>, reply: Reply)

  datatype Conn =
    | Accepted(tuple: Tuple)
    | Recovered(dst: Endpoint)
    | Cleared(dst: Endpoint)
    | Splicing(dst: Endpoint)
    | Closed

  /** An upstream answer, with the name that was asked. */
  datatype Answer = Answer(name: string, resp: Response)

  datatype Fact = Fact(call: nat, ip: Ip, host: string)

  datatype World = World(
    upstream: Endpoint,
    policy: PolicyState,
    ct: map<Tuple, Entry>,
    calls: map<nat, Call>,
    conns: map<nat, Conn>,
    entries: set<Entry>,     // every entry the table ever held
    flows: seq<Flow>,        // every flow let through since the rules are in
    answers: seq<Answer>,    // every upstream answer, in order
    facts: seq<Fact>)        // every address learned, in order

  // ---- steps ----

  datatype Event =
    | SendPacket(uid: nat, tuple: Tuple)      // a packet of a container process
    | Expire(tuple: Tuple)                    // conntrack forgets a flow
    | Arrive(call: nat, qs: seq<string>)      // a query reaches the forwarder
    | Check(call: nat)                        // AllowsHost
    | Ask(call: nat, sport: nat)              // the query goes to the upstream resolver
    | Receive(call: nat, up: Upstream)        // exchange returns
    | LearnOne(call: nat)                     // one turn of the answer loop
    | WriteReply(call: nat)                   // WriteMsg
    | Accept(conn: nat, tuple: Tuple)         // the relay accepts a connection
    | Recover(conn: nat)                      // getOriginalDst
    | CheckIP(conn: nat)                      // AllowsIP
    | DialOut(conn: nat, sport: nat, ok: bool)  // net.DialTimeout
    | Close(conn: nat)

  /** Let a first packet through the rules and record the flow, or drop it. A packet of a known
      flow opens nothing. */
  function Open(w: World, uid: nat, t: Tuple, cause: Cause): World {
    var to := NatOutput(uid, t.proto, t.dst);
    if t in w.ct || !FilterAccepts(uid, to, false) then w
    else
      var e := Entry(uid, t.proto, t.dst, to);
      w.(ct := w.ct[t := e], entries := w.entries + {e}, flows := w.flows + [Flow(e, cause)])
  }

  function SetCall(w: World, id: nat, c: Call): World {
    w.(calls := w.calls[id := c])
  }

  function SetConn(w: World, id: nat, c: Conn): World {
    w.(conns := w.conns[id := c])
  }

  function StepCheck(w: World, id: nat): World {
    if id !in w.calls || !w.calls[id].Arrived? then w
    else
      var qs := w.calls[id].qs;
      if |qs| != 1 then SetCall(w, id, Replied(qs, ServFail))
      else if !AllowsHost(w.policy, qs[0]) then SetCall(w, id, Replied(qs, NxDomain))
      else SetCall(w, id, Listed(qs))
  }

  function StepAsk(w: World, id: nat, sport: nat): World {
    if id !in w.calls || !w.calls[id].Listed? || |w.calls[id].qs| != 1 then w
    else
      var qs := w.calls[id].qs;
      SetCall(Open(w, PROXY_UID, Tuple(Udp, sport, w.upstream), Query(qs[0])), id, Waiting(qs))
  }

  function StepReceive(w: World, id: nat, up: Upstream): World {
    if id !in w.calls || !w.calls[id].Waiting? || |w.calls[id].qs| != 1 then w
    else
      var qs := w.calls[id].qs;
      if up.Answered? then
        SetCall(w, id, Learning(qs, up.resp, 0)).(answers := w.answers + [Answer(qs[0], up.resp)])
      else SetCall(w, id, Replied(qs, ServFail))
  }

  function StepLearn(w: World, id: nat): World {
    if id !in w.calls || !w.calls[id].Learning? then w
    else
      var Learning(qs, resp, next) := w.calls[id];
      if |qs| != 1 || next >= |resp.answers| then w
      else
        var ip := RrIp(resp.answers[next]);
        SetCall(w, id, Learning(qs, resp, next + 1)).(
          policy := Learned(w.policy, qs[0], ip),
          facts := if ip.Some? then w.facts + [Fact(id, ip.value, NormalizeHost(qs[0]))] else w.facts)
  }

  function StepReply(w: World, id: nat): World {
    if id !in w.calls || !w.calls[id].Learning? then w
    else
      var Learning(qs, resp, next) := w.calls[id];
      if next < |resp.answers| then w else SetCall(w, id, Replied(qs, Forward(resp)))
  }

  function StepAccept(w: World, id: nat, t: Tuple): World {
    if id in w.conns || t !in w.ct then w
    else
      var to := w.ct[t].final;
      if to.ip == LOOPBACK && (to.port == HTTP_PORT || to.port == TLS_PORT) then SetConn(w, id, Accepted(t)) else w
  }

  function StepRecover(w: World, id: nat): World {
    if id !in w.conns || !w.conns[id].Accepted? then w
    else
      var t := w.conns[id].tuple;
      if t in w.ct then SetConn(w, id, Recovered(w.ct[t].orig)) else SetConn(w, id, Closed)
  }

  function StepCheckIP(w: World, id: nat): World {
    if id !in w.conns || !w.conns[id].Recovered? then w
    else
      var dst := w.conns[id].dst;
      if AllowsIP(w.policy, dst.ip) then SetConn(w, id, Cleared(dst)) else SetConn(w, id, Closed)
  }

  function StepDial(w: World, id: nat, sport: nat, ok: bool): World {
    if id !in w.conns || !w.conns[id].Cleared? then w
    else
      var dst := w.conns[id].dst;
      SetConn(Open(w, PROXY_UID, Tuple(Tcp, sport, dst), Dial(|w.answers|)), id, if ok then Splicing(dst) else Closed)
  }

  function Step(w: World, e: Event): World {
    match e
    case SendPacket(uid, t) => if uid == PROXY_UID then w else Open(w, uid, t, ByProcess)
    case Expire(t) => w.(ct := w.ct - {t})
    case Arrive(id, qs) => if id in w.calls then w else SetCall(w, id, Arrived(qs))
    case Check(id) => StepCheck(w, id)
    case Ask(id, sport) => StepAsk(w, id, sport)
    case Receive(id, up) => StepReceive(w, id, up)
    case LearnOne(id) => StepLearn(w, id)
    case WriteReply(id) => StepReply(w, id)
    case Accept(id, t) => StepAccept(w, id, t)
    case Recover(id) => StepRecover(w, id)
    case CheckIP(id) => StepCheckIP(w, id)
    case DialOut(id, sport, ok) => StepDial(w, id, sport, ok)
    case Close(id) => if id in w.conns && w.conns[id].Splicing? then SetConn(w, id, Closed) else w
  }

  function Run(w: World, events: seq<Event>): World {
    if events == [] then w else Step(Run(w, events[..|events| - 1]), events[|events| - 1])
  }

  /** When the rules go in: a fresh policy, nothing in flight, and only the proxy has flows. */
  ghost predicate Initial(w: World) {
    && w.policy.dynamic == map[]
    && w.calls == map[] && w.conns == map[]
    && w.flows == [] && w.answers == [] && w.facts == []
    && w.entries == w.ct.Values
    && (forall e :: e in w.entries ==> e.uid == PROXY_UID)
    && forall t :: t in w.ct ==> w.ct[t].orig == t.dst
  }

  // ---- the invariant ----

  /** Some answer for an allow-listed name, among the first n, supplied the address. */
  ghost predicate SuppliedBefore(w: World, n: nat, ip: Ip)
    requires n <= |w.answers|
  {
    exists i :: 0 <= i < n && AnswerSupplies(w.policy.hosts, w.answers[i], ip)
  }

  predicate AnswerSupplies(hosts: set<string>, a: Answer, ip: Ip) {
    NormalizeHost(a.name) in hosts && Supplies(a.resp, |a.resp.answers|, ip)
  }

  /** The relay was asked for this destination: some flow was aimed at it. */
  ghost predicate WasAimedAt(w: World, dst: Endpoint) {
    exists e :: e in w.entries && e.orig == dst && e.final.ip == LOOPBACK && e.final.port in {HTTP_PORT, TLS_PORT}
  }

  /** What every flow to another address than loopback must look like. */
  ghost predicate FlowJustified(w: World, f: Flow) {
    f.entry.final.ip != LOOPBACK ==>
      && f.entry.uid == PROXY_UID
      && f.entry.final == f.entry.orig
      && match f.cause
         case ByProcess => false
         case Query(name) => f.entry.orig == w.upstream && AllowsHost(w.policy, name)
         case Dial(seen) =>
           && seen <= |w.answers|
           && (Covered(w.policy, f.entry.orig.ip) || SuppliedBefore(w, seen, f.entry.orig.ip))
           && WasAimedAt(w, f.entry.orig)
  }

  ghost predicate AllAllowed(p: PolicyState, resp: Response, n: nat)
    requires n <= |resp.answers|
  {
    forall ip :: Supplies(resp, n, ip) ==> ip in p.dynamic
  }

  ghost predicate CallOk(w: World, c: Call) {
    match c
    case Arrived(_) => true
    case Listed(qs) => |qs| == 1 && AllowsHost(w.policy, qs[0])
    case Waiting(qs) => |qs| == 1 && AllowsHost(w.policy, qs[0])
    case Learning(qs, resp, next) =>
      && |qs| == 1 && AllowsHost(w.policy, qs[0])
      && next <= |resp.answers|
      && Answer(qs[0], resp) in w.answers
      && AllAllowed(w.policy, resp, next)
    case Replied(qs, NxDomain) => |qs| == 1 && !AllowsHost(w.policy, qs[0])
    case Replied(qs, ServFail) => |qs| != 1 || AllowsHost(w.policy, qs[0])
    case Replied(qs, Forward(resp)) =>
      && |qs| == 1 && AllowsHost(w.policy, qs[0])
      && Answer(qs[0], resp) in w.answers
      && AllAllowed(w.policy, resp, |resp.answers|)
  }

  ghost predicate ConnOk(w: World, c: Conn) {
    match c
    case Accepted(t) => WasAimedAt(w, t.dst)
    case Recovered(dst) => WasAimedAt(w, dst)
    case Cleared(dst) => WasAimedAt(w, dst) && AllowsIP(w.policy, dst.ip)
    case _ => true
  }

  /** Learned addresses come from answers for listed names; the table is the replay of the facts. */
  ghost predicate PolicyOk(w: World) {
    && (forall ip :: ip in w.policy.dynamic ==> SuppliedBefore(w, |w.answers|, ip))
    && (forall ip :: ip in w.policy.dynamic ==> w.policy.dynamic[ip] in w.policy.hosts)
    && w.policy.dynamic == Replay(w.facts)
  }

  function Replay(facts: seq<Fact>): map<Ip, string> {
    if facts == [] then map[]
    else
      var f := facts[|facts| - 1];
      Replay(facts[..|facts| - 1])[f.ip := f.host]
  }

  /** Only calls that forward, or are about to, have taught the policy anything. */
  ghost predicate FactsOk(w: World) {
    forall i :: 0 <= i < |w.facts| ==>
      var f := w.facts[i];
      && f.call in w.calls
      && (w.calls[f.call].Learning? || (w.calls[f.call].Replied? && w.calls[f.call].reply.Forward?))
      && |w.calls[f.call].qs| == 1 && f.host == NormalizeHost(w.calls[f.call].qs[0])
  }

  ghost predicate EntriesOk(w: World) {
    && w.ct.Values <= w.entries
    && (forall e :: e in w.entries && e.uid != PROXY_UID ==> e.final.ip == LOOPBACK)
    && forall t :: t in w.ct ==> w.ct[t].orig == t.dst
  }

  ghost predicate Inv(w: World) {
    && EntriesOk(w)
    && PolicyOk(w)
    && FactsOk(w)
    && (forall id :: id in w.calls ==> CallOk(w, w.calls[id]))
    && (forall id :: id in w.conns ==> ConnOk(w, w.conns[id]))
    && (forall i :: 0 <= i < |w.flows| ==> FlowJustified(w, w.flows[i]))
  }

  // ---- every step keeps the invariant ----

  /** What a step may change about the parts that the invariant speaks of. */
  ghost predicate Grows(w: World, w': World) {
    && w'.upstream == w.upstream
    && w'.policy.hosts == w.policy.hosts && w'.policy.cidrs == w.policy.cidrs
    && (forall ip :: ip in w.policy.dynamic ==> ip in w'.policy.dynamic)
    && w.answers <= w'.answers
    && w.facts <= w'.facts
    && w.entries <= w'.entries
    && w.flows <= w'.flows
  }

  lemma GrowsTransitive(a: World, b: World, c: World)
    requires Grows(a, b) && Grows(b, c)
    ensures Grows(a, c)
  {
  }

  lemma CoveredStays(p: PolicyState, q: PolicyState, ip: Ip)
    requires p.cidrs == q.cidrs
    ensures Covered(p, ip) == Covered(q, ip)
  {
  }

  lemma SuppliedStays(w: World, w': World, n: nat, n': nat, ip: Ip)
    requires Grows(w, w') && n <= |w.answers| && n <= n' <= |w'.answers| && SuppliedBefore(w, n, ip)
    ensures SuppliedBefore(w', n', ip)
  {
    hide AnswerSupplies;
    var i :| 0 <= i < n && AnswerSupplies(w.policy.hosts, w.answers[i], ip);
    assert w'.answers[i] == w.answers[i];
  }

  lemma FlowStays(w: World, w': World, f: Flow)
    requires Grows(w, w') && FlowJustified(w, f)
    ensures FlowJustified(w', f)
  {
    hide NormalizeHost, SuppliedBefore, Covered;
    if f.entry.final.ip != LOOPBACK {
      match f.cause {
        case ByProcess =>
        case Query(_) =>
        case Dial(seen) =>
          CoveredStays(w.policy, w'.policy, f.entry.orig.ip);
          if SuppliedBefore(w, seen, f.entry.orig.ip) {
            SuppliedStays(w, w', seen, seen, f.entry.orig.ip);
          }
      }
    }
  }

  lemma CallStays(w: World, w': World, c: Call)
    requires Grows(w, w') && CallOk(w, c)
    ensures CallOk(w', c)
  {
    hide NormalizeHost, Supplies;
  }

  lemma ConnStays(w: World, w': World, c: Conn)
    requires Grows(w, w') && ConnOk(w, c)
    ensures ConnOk(w', c)
  {
    hide Covered;
    if c.Cleared? {
      CoveredStays(w.policy, w'.policy, c.dst.ip);
    }
  }

  lemma StepGrows(w: World, e: Event)
    ensures Grows(w, Step(w, e))
  {
    hide NormalizeHost, NatOutput, FilterAccepts;
  }

  lemma {:induction false} RunGrows(w: World, before: seq<Event>, after: seq<Event>)
    ensures Grows(Run(w, before), Run(w, before + after))
    decreases |after|
  {
    hide Step;
    if after == [] {
      assert before + after == before;
    } else {
      var init := after[..|after| - 1];
      assert (before + after)[..|before + after| - 1] == before + init;
      RunGrows(w, before, init);
      StepGrows(Run(w, before + init), after[|after| - 1]);
      GrowsTransitive(Run(w, before), Run(w, before + init), Run(w, before + after));
    }
  }

  /** Opening a flow keeps the table in order; the new flow is the entry just made. */
  lemma OpenEntries(w: World, uid: nat, t: Tuple, cause: Cause)
    requires EntriesOk(w)
    ensures EntriesOk(Open(w, uid, t, cause))
    ensures var w' := Open(w, uid, t, cause);
            && (w'.flows == w.flows ||
                (w'.flows == w.flows + [Flow(Entry(uid, t.proto, t.dst, NatOutput(uid, t.proto, t.dst)), cause)]
                 && FilterAccepts(uid, NatOutput(uid, t.proto, t.dst), false)))
            && w'.(ct := w.ct, entries := w.entries, flows := w.flows) == w
  {
    RulesConfine(uid, t.proto, t.dst);
    var w' := Open(w, uid, t, cause);
    forall e | e in w'.ct.Values
      ensures e in w'.entries
    {
      var t' :| t' in w'.ct && w'.ct[t'] == e;
      assert t' in w.ct ==> w.ct[t'] in w.ct.Values;
    }
  }

  lemma ExpireEntries(w: World, t: Tuple)
    requires EntriesOk(w)
    ensures EntriesOk(w.(ct := w.ct - {t}))
  {
    var ct := w.ct - {t};
    forall e | e in ct.Values
      ensures e in w.entries
    {
      var t' :| t' in ct && ct[t'] == e;
      assert w.ct[t'] in w.ct.Values;
    }
  }

  lemma StepEntries(w: World, e: Event)
    requires EntriesOk(w)
    ensures EntriesOk(Step(w, e))
  {
    hide EntriesOk, Open, NormalizeHost;
    match e {
      case SendPacket(uid, t) => OpenEntries(w, uid, t, ByProcess);
      case Expire(t) => ExpireEntries(w, t);
      case Ask(id, sport) =>
        if id in w.calls && w.calls[id].Listed? && |w.calls[id].qs| == 1 {
          OpenEntries(w, PROXY_UID, Tuple(Udp, sport, w.upstream), Query(w.calls[id].qs[0]));
          EntriesFrame(Open(w, PROXY_UID, Tuple(Udp, sport, w.upstream), Query(w.calls[id].qs[0])), Step(w, e));
        }
      case DialOut(id, sport, ok) =>
        if id in w.conns && w.conns[id].Cleared? {
          var t := Tuple(Tcp, sport, w.conns[id].dst);
          OpenEntries(w, PROXY_UID, t, Dial(|w.answers|));
          EntriesFrame(Open(w, PROXY_UID, t, Dial(|w.answers|)), Step(w, e));
        }
      case _ => EntriesFrame(w, Step(w, e));
    }
  }

  lemma EntriesFrame(w: World, w': World)
    requires EntriesOk(w) && w'.ct == w.ct && w'.entries == w.entries
    ensures EntriesOk(w')
  {
  }

  lemma StepPolicy(w: World, e: Event)
    requires PolicyOk(w) && forall id :: id in w.calls ==> CallOk(w, w.calls[id])
    ensures PolicyOk(Step(w, e))
  {
    hide NormalizeHost, Open, Covered, AnswerSupplies;
    var w' := Step(w, e);
    StepGrows(w, e);
    if e.LearnOne? && w'.facts != w.facts {
      LearnPolicy(w, e.call);
    } else {
      UnlearnedPolicy(w, e);
      forall ip | ip in w'.policy.dynamic
        ensures SuppliedBefore(w', |w'.answers|, ip)
      {
        SuppliedStays(w, w', |w.answers|, |w'.answers|, ip);
      }
    }
  }

  /** Only a turn of the answer loop with an address in hand touches the policy. */
  lemma UnlearnedPolicy(w: World, e: Event)
    requires !e.LearnOne? || Step(w, e).facts == w.facts
    ensures Step(w, e).policy == w.policy && Step(w, e).facts == w.facts
  {
    hide NormalizeHost, NatOutput, FilterAccepts;
    if e.LearnOne? && e.call in w.calls && w.calls[e.call].Learning? {
      var c := w.calls[e.call];
      if |c.qs| == 1 && c.next < |c.resp.answers| {
        var ip := RrIp(c.resp.answers[c.next]);
        assert ip.Some? ==> |Step(w, e).facts| == |w.facts| + 1;
      }
    }
  }

  lemma LearnPolicy(w: World, id: nat)
    requires PolicyOk(w) && forall c :: c in w.calls ==> CallOk(w, w.calls[c])
    requires StepLearn(w, id).facts != w.facts
    ensures PolicyOk(StepLearn(w, id))
  {
    hide NormalizeHost, Covered;
    var w' := StepLearn(w, id);
    var Learning(qs, resp, next) := w.calls[id];
    assert CallOk(w, w.calls[id]);
    var ip0 := RrIp(resp.answers[next]).value;
    assert w'.facts[..|w'.facts| - 1] == w.facts;
    var i :| 0 <= i < |w.answers| && w.answers[i] == Answer(qs[0], resp);
    assert Supplies(resp, |resp.answers|, ip0);
    assert AnswerSupplies(w'.policy.hosts, w'.answers[i], ip0);
    assert SuppliedBefore(w', |w'.answers|, ip0);
    StepGrows(w, LearnOne(id));
    forall ip | ip in w'.policy.dynamic && ip != ip0
      ensures SuppliedBefore(w', |w'.answers|, ip)
    {
      SuppliedStays(w, w', |w.answers|, |w'.answers|, ip);
    }
  }

  lemma StepFacts(w: World, e: Event)
    requires FactsOk(w)
    ensures FactsOk(Step(w, e))
  {
    hide NormalizeHost, NatOutput, FilterAccepts;
  }

  lemma StepCalls(w: World, e: Event)
    requires forall id :: id in w.calls ==> CallOk(w, w.calls[id])
    ensures forall id :: id in Step(w, e).calls ==> CallOk(Step(w, e), Step(w, e).calls[id])
  {
    hide NormalizeHost, NatOutput, FilterAccepts, Open, CallOk, Grows;
    var w' := Step(w, e);
    StepGrows(w, e);
    forall id | id in w'.calls
      ensures CallOk(w', w'.calls[id])
    {
      if id in w.calls && w'.calls[id] == w.calls[id] {
        CallStays(w, w', w.calls[id]);
      } else {
        StepCall(w, e, id);
      }
    }
  }

  lemma RelayKeepsCalls(w: World, e: Event)
    requires OfRelay(e)
    ensures Step(w, e).calls == w.calls
  {
    hide NormalizeHost, NatOutput, FilterAccepts, Covered;
  }

  /** The one call that a step moves. */
  lemma StepCall(w: World, e: Event, id: nat)
    requires forall c :: c in w.calls ==> CallOk(w, w.calls[c])
    requires id in Step(w, e).calls && !(id in w.calls && Step(w, e).calls[id] == w.calls[id])
    ensures CallOk(Step(w, e), Step(w, e).calls[id])
  {
    hide NormalizeHost, NatOutput, FilterAccepts, StepAccept, StepRecover, StepCheckIP, StepDial;
    assert id in w.calls ==> CallOk(w, w.calls[id]);
    match e {
      case Receive(_, up) =>
        var w' := Step(w, e);
        if up.Answered? {
          assert w'.answers[|w.answers|] == Answer(w.calls[id].qs[0], up.resp);
        }
      case LearnOne(_) => LearnCall(w, id);
      case _ =>
        if OfRelay(e) {
          RelayKeepsCalls(w, e);
        }
    }
  }

  lemma LearnCall(w: World, id: nat)
    requires id in w.calls && w.calls[id].Learning? && CallOk(w, w.calls[id]) &&
             w.calls[id].next < |w.calls[id].resp.answers|
    ensures CallOk(StepLearn(w, id), StepLearn(w, id).calls[id])
  {
    hide NormalizeHost;
    var Learning(qs, resp, next) := w.calls[id];
    var w' := StepLearn(w, id);
    forall ip | Supplies(resp, next + 1, ip)
      ensures ip in w'.policy.dynamic
    {
      assert Supplies(resp, next, ip) || RrIp(resp.answers[next]) == Some(ip);
    }
  }

  lemma StepConns(w: World, e: Event)
    requires EntriesOk(w) && forall id :: id in w.conns ==> ConnOk(w, w.conns[id])
    ensures forall id :: id in Step(w, e).conns ==> ConnOk(Step(w, e), Step(w, e).conns[id])
  {
    hide NormalizeHost, NatOutput, FilterAccepts, Open, Covered, CallOk, Grows;
    var w' := Step(w, e);
    StepGrows(w, e);
    forall id | id in w'.conns
      ensures ConnOk(w', w'.conns[id])
    {
      if id in w.conns && w'.conns[id] == w.conns[id] {
        ConnStays(w, w', w.conns[id]);
      } else {
        StepConn(w, e, id);
      }
    }
  }

  /** The steps of the relay. */
  predicate OfRelay(e: Event) {
    e.Accept? || e.Recover? || e.CheckIP? || e.DialOut? || e.Close?
  }

  lemma OtherStepsKeepConns(w: World, e: Event)
    requires !OfRelay(e)
    ensures Step(w, e).conns == w.conns
  {
    hide NormalizeHost, NatOutput, FilterAccepts, Learned;
  }

  /** The one connection that a step moves. */
  lemma StepConn(w: World, e: Event, id: nat)
    requires EntriesOk(w) && forall c :: c in w.conns ==> ConnOk(w, w.conns[c])
    requires id in Step(w, e).conns && !(id in w.conns && Step(w, e).conns[id] == w.conns[id])
    ensures ConnOk(Step(w, e), Step(w, e).conns[id])
  {
    hide NormalizeHost, Covered, NatOutput, FilterAccepts, StepCheck, StepAsk, StepReceive, StepLearn, StepReply;
    var w' := Step(w, e);
    StepGrows(w, e);
    if id in w.conns {
      ConnAimStays(w, w', w.conns[id]);
    }
    if OfRelay(e) {
      if e.Accept? {
        var entry := w.ct[e.tuple];
        assert entry in w.ct.Values;
        assert entry in w'.entries && entry.orig == e.tuple.dst;
      }
    } else {
      OtherStepsKeepConns(w, e);
    }
  }

  lemma ConnAimStays(w: World, w': World, c: Conn)
    requires w.entries <= w'.entries && ConnOk(w, c)
    ensures c.Accepted? ==> WasAimedAt(w', c.tuple.dst)
    ensures c.Recovered? || c.Cleared? ==> WasAimedAt(w', c.dst)
  {
    hide Covered;
  }

  lemma StepFlows(w: World, e: Event)
    requires Inv(w)
    ensures forall i :: 0 <= i < |Step(w, e).flows| ==> FlowJustified(Step(w, e), Step(w, e).flows[i])
  {
    hide NormalizeHost, NatOutput, FilterAccepts, Covered, CallOk, ConnOk;
    var w' := Step(w, e);
    StepGrows(w, e);
    forall i | 0 <= i < |w'.flows|
      ensures FlowJustified(w', w'.flows[i])
    {
      if i < |w.flows| {
        FlowStays(w, w', w.flows[i]);
      } else {
        NewFlow(w, e, i);
      }
    }
  }

  lemma NewFlow(w: World, e: Event, i: nat)
    requires Inv(w) && |w.flows| <= i < |Step(w, e).flows|
    ensures FlowJustified(Step(w, e), Step(w, e).flows[i])
  {
    hide NormalizeHost, Open, NatOutput, FilterAccepts, CallOk, ConnOk, FlowJustified, PolicyOk, FactsOk, EntriesOk,
      Learned;
    match e {
      case SendPacket(uid, t) => NewPacket(w, uid, t);
      case Ask(id, sport) => NewQuery(w, id, sport);
      case DialOut(id, sport, ok) => NewDial(w, id, sport, ok);
      case _ =>
    }
  }

  lemma NewPacket(w: World, uid: nat, t: Tuple)
    requires EntriesOk(w)
    ensures var w' := Step(w, SendPacket(uid, t));
            forall i :: |w.flows| <= i < |w'.flows| ==> FlowJustified(w', w'.flows[i])
  {
    hide Open, EntriesOk, NatOutput, FilterAccepts;
    OpenEntries(w, uid, t, ByProcess);
    RulesConfine(uid, t.proto, t.dst);
  }

  lemma NewQuery(w: World, id: nat, sport: nat)
    requires EntriesOk(w) && forall c :: c in w.calls ==> CallOk(w, w.calls[c])
    ensures var w' := Step(w, Ask(id, sport));
            forall i :: |w.flows| <= i < |w'.flows| ==> FlowJustified(w', w'.flows[i])
  {
    hide Open, EntriesOk, NatOutput, FilterAccepts, NormalizeHost;
    if id in w.calls && w.calls[id].Listed? && |w.calls[id].qs| == 1 {
      var t, q := Tuple(Udp, sport, w.upstream), Query(w.calls[id].qs[0]);
      assert CallOk(w, w.calls[id]);
      OpenEntries(w, PROXY_UID, t, q);
      RulesConfine(PROXY_UID, Udp, w.upstream);
    }
  }

  lemma NewDial(w: World, id: nat, sport: nat, ok: bool)
    requires EntriesOk(w) && PolicyOk(w) && forall c :: c in w.conns ==> ConnOk(w, w.conns[c])
    ensures var w' := Step(w, DialOut(id, sport, ok));
            forall i :: |w.flows| <= i < |w'.flows| ==> FlowJustified(w', w'.flows[i])
  {
    hide Open, EntriesOk, NatOutput, FilterAccepts, NormalizeHost, Covered, AnswerSupplies;
    if id in w.conns && w.conns[id].Cleared? {
      var dst := w.conns[id].dst;
      var t, d := Tuple(Tcp, sport, dst), Dial(|w.answers|);
      assert ConnOk(w, w.conns[id]);
      OpenEntries(w, PROXY_UID, t, d);
      RulesConfine(PROXY_UID, Tcp, dst);
      var w1 := Open(w, PROXY_UID, t, d);
      var w' := Step(w, DialOut(id, sport, ok));
      StepGrows(w, DialOut(id, sport, ok));
      CoveredStays(w.policy, w'.policy, dst.ip);
      if dst.ip in w.policy.dynamic {
        SuppliedStays(w, w', |w.answers|, |w.answers|, dst.ip);
      }
      assert WasAimedAt(w', dst);
    }
  }

  lemma StepInv(w: World, e: Event)
    requires Inv(w)
    ensures Inv(Step(w, e))
  {
    hide EntriesOk, PolicyOk, FactsOk, CallOk, ConnOk, FlowJustified, Step;
    StepEntries(w, e);
    StepPolicy(w, e);
    StepFacts(w, e);
    StepCalls(w, e);
    StepConns(w, e);
    StepFlows(w, e);
  }

  lemma InitialInv(w: World)
    requires Initial(w)
    ensures Inv(w)
  {
  }

  lemma {:induction false} RunInv(w: World, events: seq<Event>)
    requires Initial(w)
    ensures Inv(Run(w, events))
    decreases |events|
  {
    hide Step, Inv;
    if events == [] {
      InitialInv(w);
    } else {
      RunInv(w, events[..|events| - 1]);
      StepInv(Run(w, events[..|events| - 1]), events[|events| - 1]);
    }
  }

  // ---- what holds in every run ----

  /** In every run, each flow let through to another address than loopback is the proxy's, is not
      redirected, and is an upstream query for a listed name or a dial to an address that a
      static prefix covers or that an earlier answer for a listed name supplied; a dial goes
      where some redirected flow was aimed. */
  lemma EveryFlowJustified(w: World, events: seq<Event>, i: nat)
    requires Initial(w) && i < |Run(w, events).flows|
    ensures var now := Run(w, events);
            var f := now.flows[i];
            f.entry.final.ip != LOOPBACK ==>
              (&& f.entry.uid == PROXY_UID
              && f.entry.final == f.entry.orig
              && (|| (f.cause.Query? && f.entry.orig == w.upstream && NormalizeHost(f.cause.name) in w.policy.hosts)
                  || (f.cause.Dial? && f.cause.seen <= |now.answers| && WasAimedAt(now, f.entry.orig)
                      && (Covered(w.policy, f.entry.orig.ip) || SuppliedBefore(now, f.cause.seen, f.entry.orig.ip)))))
    ensures Run(w, events).policy.hosts == w.policy.hosts
  {
    hide Step, EntriesOk, PolicyOk, FactsOk, CallOk, ConnOk, SuppliedBefore, NormalizeHost, Covered, WasAimedAt, Run;
    RunInv(w, events);
    RunKeepsConfig(w, events);
    var now := Run(w, events);
    assert FlowJustified(now, now.flows[i]);
    CoveredStays(w.policy, now.policy, now.flows[i].entry.orig.ip);
  }

  lemma RunKeepsConfig(w: World, events: seq<Event>)
    ensures var now := Run(w, events);
            now.upstream == w.upstream && now.policy.hosts == w.policy.hosts && now.policy.cidrs == w.policy.cidrs
  {
    hide Step;
    RunGrows(w, [], events);
    assert [] + events == events;
  }

  lemma RecordSupplies(resp: Response, ip: Ip)
    ensures Supplies(resp, |resp.answers|, ip) <==> A(Some(ip)) in resp.answers || AAAA(Some(ip)) in resp.answers
  {
  }

  /** On the records: an address is in the policy only if some upstream answer for a listed name held
      an A or AAAA record with it. */
  lemma LearnedFromRecord(w: World, events: seq<Event>, ip: Ip) returns (i: nat)
    requires Initial(w) && ip in Run(w, events).policy.dynamic
    ensures var now := Run(w, events);
            && i < |now.answers|
            && NormalizeHost(now.answers[i].name) in w.policy.hosts
            && (A(Some(ip)) in now.answers[i].resp.answers || AAAA(Some(ip)) in now.answers[i].resp.answers)
  {
    hide Step, EntriesOk, FactsOk, CallOk, ConnOk, FlowJustified, NormalizeHost, Run, Supplies;
    RunInv(w, events);
    RunKeepsConfig(w, events);
    var now := Run(w, events);
    i :| 0 <= i < |now.answers| && AnswerSupplies(now.policy.hosts, now.answers[i], ip);
    RecordSupplies(now.answers[i].resp, ip);
  }

  /** And a dial to an address that no static prefix covers was preceded by such an answer. */
  lemma DialHasRecord(w: World, events: seq<Event>, i: nat) returns (j: nat)
    requires Initial(w) && i < |Run(w, events).flows|
    requires var f := Run(w, events).flows[i];
             f.entry.final.ip != LOOPBACK && f.cause.Dial? && !Covered(w.policy, f.entry.orig.ip)
    ensures var now := Run(w, events);
            var ip := now.flows[i].entry.orig.ip;
            && j < now.flows[i].cause.seen <= |now.answers|
            && NormalizeHost(now.answers[j].name) in w.policy.hosts
            && (A(Some(ip)) in now.answers[j].resp.answers || AAAA(Some(ip)) in now.answers[j].resp.answers)
  {
    hide Step, NormalizeHost, Covered, WasAimedAt, Run, Supplies;
    EveryFlowJustified(w, events, i);
    RunKeepsConfig(w, events);
    var now := Run(w, events);
    var f := now.flows[i];
    j :| 0 <= j < f.cause.seen && AnswerSupplies(now.policy.hosts, now.answers[j], f.entry.orig.ip);
    RecordSupplies(now.answers[j].resp, f.entry.orig.ip);
  }

  /** Every answer sent is safe to use at once and for good: each address in it is allowed when
      it is written and after any further steps, and only a listed name is ever answered. */
  lemma NoAnswerRacesItsConnection(w: World, before: seq<Event>, after: seq<Event>, id: nat, ip: Ip)
    requires Initial(w)
    requires id in Run(w, before).calls && Run(w, before).calls[id].Replied? && Run(w, before).calls[id].reply.Forward?
    ensures var c := Run(w, before).calls[id];
            && |c.qs| == 1 && NormalizeHost(c.qs[0]) in w.policy.hosts
            && (A(Some(ip)) in c.reply.resp.answers || AAAA(Some(ip)) in c.reply.resp.answers ==>
                  ip in Run(w, before).policy.dynamic && AllowsIP(Run(w, before + after).policy, ip))
            && Answer(c.qs[0], c.reply.resp) in Run(w, before).answers
  {
    hide Step, EntriesOk, PolicyOk, FactsOk, ConnOk, FlowJustified, NormalizeHost, Run, Supplies;
    RecordSupplies(Run(w, before).calls[id].reply.resp, ip);
    RunInv(w, before);
    RunKeepsConfig(w, before);
    RunGrows(w, before, after);
    assert CallOk(Run(w, before), Run(w, before).calls[id]);
  }

  /** A query that ends refused or failed was unlisted, malformed or unanswered, and no address
      in the policy's history came from it. */
  lemma RefusedQueriesTeachNothing(w: World, events: seq<Event>, id: nat)
    requires Initial(w)
    requires id in Run(w, events).calls && Run(w, events).calls[id].Replied? && !Run(w, events).calls[id].reply.Forward?
    ensures var c := Run(w, events).calls[id];
            && (c.reply.NxDomain? <==> |c.qs| == 1 && NormalizeHost(c.qs[0]) !in w.policy.hosts)
            && forall i :: 0 <= i < |Run(w, events).facts| ==> Run(w, events).facts[i].call != id
  {
    hide Step, EntriesOk, PolicyOk, ConnOk, FlowJustified, NormalizeHost, Run;
    RunInv(w, events);
    RunKeepsConfig(w, events);
    assert CallOk(Run(w, events), Run(w, events).calls[id]);
  }

  /** AllowsIP names the host that learned the address last. */
  lemma LatestLearnerReported(w: World, events: seq<Event>, i: nat)
    requires Initial(w)
    requires i < |Run(w, events).facts|
    requires forall j :: i < j < |Run(w, events).facts| ==> Run(w, events).facts[j].ip != Run(w, events).facts[i].ip
    ensures var now := Run(w, events);
            AllowsIP(now.policy, now.facts[i].ip) && HostOf(now.policy, now.facts[i].ip) == now.facts[i].host
            && now.facts[i].host in w.policy.hosts
  {
    hide Step, EntriesOk, FactsOk, CallOk, ConnOk, FlowJustified, NormalizeHost, Run, SuppliedBefore;
    RunInv(w, events);
    RunKeepsConfig(w, events);
    ReplayLatest(Run(w, events).facts, i);
  }

  lemma {:induction false} ReplayLatest(facts: seq<Fact>, i: nat)
    requires i < |facts| && forall j :: i < j < |facts| ==> facts[j].ip != facts[i].ip
    ensures facts[i].ip in Replay(facts) && Replay(facts)[facts[i].ip] == facts[i].host
    decreases |facts|
  {
    if i < |facts| - 1 {
      ReplayLatest(facts[..|facts| - 1], i);
    }
  }

  // ---- a query on its own is ServeDNS ----

  function LearnTurns(id: nat, n: nat): seq<Event> {
    if n == 0 then [] else LearnTurns(id, n - 1) + [LearnOne(id)]
  }

  /** The steps of one query, nothing in between. */
  function QuerySteps(id: nat, sport: nat, up: Upstream): seq<Event> {
    [Check(id), Ask(id, sport), Receive(id, up)]
    + (if up.Answered? then LearnTurns(id, |up.resp.answers|) else [])
    + [WriteReply(id)]
  }

  lemma {:induction false} RunAppend(w: World, a: seq<Event>, b: seq<Event>)
    ensures Run(w, a + b) == Run(Run(w, a), b)
    decreases |b|
  {
    hide Step;
    if b == [] {
      assert a + b == a;
    } else {
      assert (a + b)[..|a + b| - 1] == a + b[..|b| - 1];
      RunAppend(w, a, b[..|b| - 1]);
    }
  }

  lemma RunOne(w: World, e: Event)
    ensures Run(w, [e]) == Step(w, e)
  {
    hide Step;
    assert [e][..0] == [];
  }

  lemma OneTurn(w: World, id: nat)
    requires id in w.calls && w.calls[id].Learning?
    requires |w.calls[id].qs| == 1 && w.calls[id].next < |w.calls[id].resp.answers|
    ensures var Learning(qs, resp, next) := w.calls[id];
            var now := Step(w, LearnOne(id));
            && now.policy == Learned(w.policy, qs[0], RrIp(resp.answers[next]))
            && now.calls == w.calls[id := Learning(qs, resp, next + 1)]
  {
    hide NormalizeHost, Learned;
  }

  lemma {:induction false} LearnTurnsRun(w: World, id: nat, n: nat)
    requires id in w.calls && w.calls[id].Learning? && w.calls[id].next == 0
    requires |w.calls[id].qs| == 1 && n <= |w.calls[id].resp.answers|
    ensures var c, now := w.calls[id], Run(w, LearnTurns(id, n));
            && now.policy == LearnFirst(w.policy, c.qs[0], c.resp, n)
            && id in now.calls && now.calls[id] == Learning(c.qs, c.resp, n)
    decreases n
  {
    hide Step, Learned;
    if n > 0 {
      LearnTurnsRun(w, id, n - 1);
      OneTurn(Run(w, LearnTurns(id, n - 1)), id);
      assert LearnTurns(id, n)[..|LearnTurns(id, n)| - 1] == LearnTurns(id, n - 1);
    }
  }

  lemma RunThree(w: World, a: Event, b: Event, c: Event)
    ensures Run(w, [a, b, c]) == Step(Step(Step(w, a), b), c)
  {
    hide Step, Run;
    RunOne(w, a);
    RunAppend(w, [a], [b]);
    RunOne(Run(w, [a]), b);
    RunAppend(w, [a] + [b], [c]);
    RunOne(Run(w, [a] + [b]), c);
    assert [a] + [b] + [c] == [a, b, c];
  }

  /** A query that has its reply is not moved by the rest of its steps. */
  lemma {:induction false} RepliedIdle(w: World, id: nat, n: nat)
    requires id in w.calls && w.calls[id].Replied?
    ensures Run(w, LearnTurns(id, n)) == w
    decreases n
  {
    if n > 0 {
      RepliedIdle(w, id, n - 1);
      assert LearnTurns(id, n)[..|LearnTurns(id, n)| - 1] == LearnTurns(id, n - 1);
    }
  }

  /** The first three steps of a query. */
  lemma QueryStart(w: World, id: nat, sport: nat, up: Upstream, qs: seq<string>)
    requires id in w.calls && w.calls[id] == Arrived(qs)
    ensures var w3 := Step(Step(Step(w, Check(id)), Ask(id, sport)), Receive(id, up));
            && w3.policy == w.policy
            && id in w3.calls
            && w3.calls[id] == if |qs| == 1 && AllowsHost(w.policy, qs[0]) && up.Answered?
                               then Learning(qs, up.resp, 0) else Replied(qs, ReplyTo(w.policy, qs, up))
  {
    hide AllowsHost, Step;
    var w1 := Step(w, Check(id));
    var w2 := Step(w1, Ask(id, sport));
    CheckOne(w, id);
    AskOne(w1, id, sport);
    ReceiveOne(w2, id, up);
  }

  lemma CheckOne(w: World, id: nat)
    requires id in w.calls && w.calls[id].Arrived?
    ensures var qs, now := w.calls[id].qs, Step(w, Check(id));
            && now.policy == w.policy
            && now.calls == w.calls[id := if |qs| != 1 then Replied(qs, ServFail)
                                          else if AllowsHost(w.policy, qs[0]) then Listed(qs)
                                          else Replied(qs, NxDomain)]
  {
    hide AllowsHost;
  }

  lemma AskOne(w: World, id: nat, sport: nat)
    requires id in w.calls && (w.calls[id].Replied? || (w.calls[id].Listed? && |w.calls[id].qs| == 1))
    ensures var c, now := w.calls[id], Step(w, Ask(id, sport));
            && now.policy == w.policy
            && now.calls == w.calls[id := if c.Listed? then Waiting(c.qs) else c]
  {
    hide NatOutput, FilterAccepts;
  }

  lemma ReceiveOne(w: World, id: nat, up: Upstream)
    requires id in w.calls && (w.calls[id].Replied? || (w.calls[id].Waiting? && |w.calls[id].qs| == 1))
    ensures var c, now := w.calls[id], Step(w, Receive(id, up));
            && now.policy == w.policy
            && now.calls == w.calls[id := if c.Replied? then c
                                          else if up.Answered? then Learning(c.qs, up.resp, 0)
                                          else Replied(c.qs, ServFail)]
  {
  }

  /** Run without interruption, the steps of a query give exactly the policy and the reply of
      the sequential ServeDNS. */
  lemma StepsAreServeDNS(w: World, id: nat, sport: nat, up: Upstream, qs: seq<string>)
    requires id in w.calls && w.calls[id] == Arrived(qs)
    ensures var now := Run(w, QuerySteps(id, sport, up));
            && now.policy == PolicyAfter(w.policy, qs, up)
            && id in now.calls && now.calls[id] == Replied(qs, ReplyTo(w.policy, qs, up))
  {
    hide NormalizeHost, Run, Open;
    var start := [Check(id), Ask(id, sport), Receive(id, up)];
    var turns := if up.Answered? then LearnTurns(id, |up.resp.answers|) else [];
    RunThree(w, Check(id), Ask(id, sport), Receive(id, up));
    var w3 := Run(w, start);
    QueryStart(w, id, sport, up, qs);
    RunAppend(w, start, turns);
    RunAppend(w, start + turns, [WriteReply(id)]);
    RunOne(Run(w3, turns), WriteReply(id));
    RunNothing(w3);
    if w3.calls[id].Learning? {
      LearnTurnsRun(w3, id, |up.resp.answers|);
    } else if up.Answered? {
      RepliedIdle(w3, id, |up.resp.answers|);
    }
  }

  lemma RunNothing(w: World)
    ensures Run(w, []) == w
  {
  }

  // ---- a connection on its own is handle ----

  /** The steps of one accepted connection, nothing in between: it ends spliced to the destination
      that conntrack remembers, if that address was learned or lies under a static prefix and the dial
      succeeds, and closed in every other case. The dial is the proxy's, straight to that destination. */
  lemma ConnectionAlone(w: World, id: nat, sport: nat, ok: bool)
    requires id in w.conns && w.conns[id].Accepted? && w.conns[id].tuple in w.ct
    ensures var dst := w.ct[w.conns[id].tuple].orig;
            var now := Run(w, [Recover(id), CheckIP(id), DialOut(id, sport, ok)]);
            var allowed := dst.ip in w.policy.dynamic ||
                           exists i :: 0 <= i < |w.policy.cidrs| && Covers(w.policy.cidrs[i], dst.ip);
            && id in now.conns && now.conns[id] == (if allowed && ok then Splicing(dst) else Closed)
            && now.flows == w.flows +
                 if allowed && Tuple(Tcp, sport, dst) !in w.ct
                 then [Flow(Entry(5353, Tcp, dst, dst), Dial(|w.answers|))] else []
  {
    hide Run, Covers;
    RunThree(w, Recover(id), CheckIP(id), DialOut(id, sport, ok));
    var dst := w.ct[w.conns[id].tuple].orig;
    var w1 := Step(w, Recover(id));
    assert w1.conns[id] == Recovered(dst);
    var w2 := Step(w1, CheckIP(id));
    assert w2.policy == w.policy && w2.ct == w.ct && w2.flows == w.flows && w2.answers == w.answers;
    RulesInNumbers(PROXY_UID, dst);
    assert w.flows + [] == w.flows;
  }

  /** A container process opens a TCP flow: to port 80 or 443 of any address it goes to 127.0.0.1:3080 or
      :3443, where the relay accepts it with its first destination remembered; any other flow that is
      not to 127.0.0.1 itself is dropped and accepted nowhere. */
  lemma WebTrafficAccepted(w: World, uid: nat, t: Tuple, id: nat)
    requires uid != 5353 && t.proto == Tcp && t !in w.ct && id !in w.conns && t.dst.ip != V4(2130706433)
    ensures var now := Run(w, [SendPacket(uid, t), Accept(id, t)]);
            var to := Endpoint(V4(2130706433), if t.dst.port == 80 then 3080 else 3443);
            && (t.dst.port == 80 || t.dst.port == 443 ==>
                  && now.flows == w.flows + [Flow(Entry(uid, Tcp, t.dst, to), ByProcess)]
                  && id in now.conns && now.conns[id] == Accepted(t) && t in now.ct && now.ct[t].orig == t.dst)
            && (t.dst.port != 80 && t.dst.port != 443 ==> now == w)
  {
    hide Run;
    RunTwo(w, SendPacket(uid, t), Accept(id, t));
    RulesInNumbers(uid, t.dst);
  }

  lemma RunTwo(w: World, e1: Event, e2: Event)
    ensures Run(w, [e1, e2]) == Step(Step(w, e1), e2)
  {
    assert [e1, e2][..1] == [e1] && [e1][..0] == [];
    assert Run(w, [e1]) == Step(w, e1);
  }

  /** A listed query opens one flow, the proxy's own, straight to the upstream resolver. */
  lemma QueryFlow(w: World, id: nat, sport: nat, name: string)
    requires id in w.calls && w.calls[id] == Listed([name])
    ensures var now, t := Step(w, Ask(id, sport)), Tuple(Udp, sport, w.upstream);
            && now.flows == w.flows +
                 (if t in w.ct then [] else [Flow(Entry(5353, Udp, w.upstream, w.upstream), Query(name))])
            && now.calls == w.calls[id := Waiting([name])]
            && now.policy == w.policy
  {
    RulesInNumbers(PROXY_UID, w.upstream);
  }

  /** A connection whose flow conntrack forgets before the relay has looked it up is closed; so is a
      spliced one when it ends. */
  lemma ForgottenIsClosed(w: World, id: nat)
    requires id in w.conns
    ensures w.conns[id].Accepted? ==>
              var now := Step(Step(w, Expire(w.conns[id].tuple)), Recover(id));
              id in now.conns && now.conns[id] == Closed
    ensures w.conns[id].Splicing? ==> Step(w, Close(id)).conns == w.conns[id := Closed]
  {
  }
}
