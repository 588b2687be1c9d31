/** The proxy's live allow-list and the DNS forwarder that feeds it. */
module Policy {
  import opened Wrappers
  import opened Text

  // ---- addresses ----

  /** An address, up to the textual form under which the policy stores it. */
  datatype Ip = V4(addr: nat) | V6(addr: nat)

  /** A parsed prefix: the addresses that agree with base above the low shift bits. */
  datatype Cidr = Cidr(base: Ip, shift: nat)

  function Pow2(n: nat): (r: nat)
    ensures r > 0
  {
    if n == 0 then 1 else 2 * Pow2(n - 1)
  }

  predicate Covers(c: Cidr, ip: Ip) {
    c.base.V4? == ip.V4? && c.base.addr / Pow2(c.shift) == ip.addr / Pow2(c.shift)
  }

  // ---- host names ----

  function LowerChar(c: char): char {
    if 'A' <= c <= 'Z' then (c as int + 32) as char else c
  }

  function Lower(s: string): (r: string)
    ensures |r| == |s|
    ensures forall i :: 0 <= i < |s| ==> r[i] == LowerChar(s[i])
  {
    seq(|s|, i requires 0 <= i < |s| => LowerChar(s[i]))
  }

  /** strings.TrimSuffix(s, "."). */
  function TrimDot(s: string): string {
    if s != "" && s[|s| - 1] == '.' then s[..|s| - 1] else s
  }

  function NormalizeHost(h: string): string {
    Lower(TrimDot(Trim(h)))
  }

  /** A configured name, its wire form with a final dot, and any change of letter case all
      normalize to the same name. */
  lemma NormalizeMatches(h: string, other: string)
    requires Trimmed(h) && h != "" && h[|h| - 1] != '.' && Lower(other) == Lower(h)
    ensures NormalizeHost(other) == NormalizeHost(h)
    ensures NormalizeHost(other + ".") == NormalizeHost(h)
    ensures NormalizeHost(h) == Lower(h)
  {
    forall i | 0 <= i < |h|
      ensures IsSpace(other[i]) == IsSpace(h[i]) && (other[i] == '.' <==> h[i] == '.')
    {
      assert Lower(other)[i] == Lower(h)[i];
    }
    assert Trimmed(other) && Trimmed(other + ".");
    assert (other + ".")[..|other|] == other;
  }

  /** Normalizing twice equals normalizing once unless the trimmed name ends in a dot with another
      dot or whitespace before it; "a.." loses one dot each time. */
  lemma NormalizeIdempotentIff(h: string)
    ensures var t := Trim(h);
            NormalizeHost(NormalizeHost(h)) == NormalizeHost(h) <==>
            |t| < 2 || t[|t| - 1] != '.' || (t[|t| - 2] != '.' && !IsSpace(t[|t| - 2]))
    ensures NormalizeHost("a..") == "a." && NormalizeHost("a.") == "a"
  {
    var t, n := Trim(h), NormalizeHost(h);
    StableNames(TrimDot(t));
    NormalizedEnds(t);
    DottedNames();
  }

  /** A lower-cased name is its own normal form exactly when it is trimmed and ends in no dot. */
  lemma StableNames(s: string)
    ensures var n := Lower(s);
            NormalizeHost(n) == n <==> Trimmed(s) && (s != "" ==> s[|s| - 1] != '.')
  {
    var n := Lower(s);
    LowerTwice(s);
    LowerEnds(s);
    hide Trim, Lower;
    if Trimmed(n) {
      assert Trim(n) == n;
    } else {
      TrimShrinks(n);
    }
  }

  lemma LowerEnds(s: string)
    ensures Trimmed(Lower(s)) == Trimmed(s)
    ensures s != "" ==> (Lower(s)[|s| - 1] == '.' <==> s[|s| - 1] == '.')
  {
  }

  lemma NormalizedEnds(t: string)
    requires Trimmed(t)
    ensures var s := TrimDot(t);
            Trimmed(s) && (s != "" ==> s[|s| - 1] != '.') <==>
            |t| < 2 || t[|t| - 1] != '.' || (t[|t| - 2] != '.' && !IsSpace(t[|t| - 2]))
  {
  }

  lemma DottedNames()
    ensures NormalizeHost("a..") == "a." && NormalizeHost("a.") == "a"
  {
    assert Trim("a..") == "a.." && Trim("a.") == "a.";
    assert TrimDot("a..") == "a." && TrimDot("a.") == "a";
    assert Lower("a.") == "a." && Lower("a") == "a";
  }

  const UPPER: string := "ABCDEFGHIJKLMNOPQRSTUVWXYZ"
  const LOWER: string := "abcdefghijklmnopqrstuvwxyz"

  /** Lower case goes letter by letter through the alphabet and leaves every other character alone. */
  lemma LowerLetters()
    ensures forall i :: 0 <= i < 26 ==> LowerChar(UPPER[i]) == LOWER[i]
    ensures forall c :: c !in UPPER ==> LowerChar(c) == c
  {
    forall c: char | 'A' <= c <= 'Z'
      ensures c in UPPER
    {
      assert UPPER[c as int - 65] == c;
    }
  }

  /** Normalizing drops whitespace around a name, then one final dot, then letter case, and nothing else. */
  lemma NormalizeOf(before: string, name: string, after: string)
    requires forall i :: 0 <= i < |before| ==> IsSpace(before[i])
    requires forall i :: 0 <= i < |after| ==> IsSpace(after[i])
    requires name != "" && Trimmed(name)
    ensures name[|name| - 1] != '.' ==> NormalizeHost(before + name + after) == Lower(name)
    ensures Trimmed(name + ".") && NormalizeHost(before + (name + ".") + after) == Lower(name)
  {
    hide Lower;
    TrimPadded(before, name, after);
    assert (name + ".")[..|name|] == name;
    TrimPadded(before, name + ".", after);
  }

  /** a lies in the given block of p addresses. */
  predicate InBlock(a: nat, p: nat, block: nat) {
    block * p <= a < (block + 1) * p
  }

  /** A prefix covers the addresses of its own family in the block of 2^shift around its base. */
  lemma CoversBlock(c: Cidr, ip: Ip)
    ensures Covers(c, ip) <==>
            && c.base.V4? == ip.V4?
            && exists block :: InBlock(c.base.addr, Pow2(c.shift), block) && InBlock(ip.addr, Pow2(c.shift), block)
    ensures Pow2(0) == 1 && Pow2(8) == 256 && Pow2(c.shift + 1) == 2 * Pow2(c.shift)
  {
    var p := Pow2(c.shift);
    hide Pow2, InBlock;
    OneBlock(c.base.addr, p);
    OneBlock(ip.addr, p);
    assert InBlock(c.base.addr, p, c.base.addr / p) && InBlock(ip.addr, p, ip.addr / p);
    SmallPowers();
    NextPower(c.shift);
  }

  lemma SmallPowers()
    ensures Pow2(0) == 1 && Pow2(8) == 256
  {
  }

  lemma NextPower(n: nat)
    ensures Pow2(n + 1) == 2 * Pow2(n)
  {
  }

  lemma OneBlock(a: nat, p: nat)
    requires p > 0
    ensures forall block :: InBlock(a, p, block) <==> block == a / p
  {
    forall block
      ensures InBlock(a, p, block) <==> block == a / p
    {
      InOneBlock(a, p, block);
    }
  }

  lemma InOneBlock(a: nat, p: nat, block: nat)
    requires p > 0
    ensures InBlock(a, p, block) <==> block == a / p
  {
    var q, r := a / p, a % p;
    assert a == q * p + r;
    if block < q {
      Multiples(block + 1, q, p);
    } else if block > q {
      Multiples(q + 1, block, p);
    }
  }

  lemma Multiples(m: nat, n: nat, p: nat)
    requires m <= n
    ensures m * p <= n * p
  {
  }

  lemma LowerTwice(s: string)
    ensures Lower(Lower(s)) == Lower(s)
  {
    assert forall i :: 0 <= i < |s| ==> LowerChar(LowerChar(s[i])) == LowerChar(s[i]);
  }

  lemma TrimShrinks(s: string)
    requires !Trimmed(s)
    ensures |Trim(s)| < |s|
  {
  }

  // ---- the policy as a value ----

  datatype PolicyState = PolicyState(hosts: set<string>, cidrs: seq<Cidr>, dynamic: map<Ip, string>)

  predicate AllowsHost(p: PolicyState, name: string) {
    NormalizeHost(name) in p.hosts
  }

  function Learned(p: PolicyState, host: string, ip: Option<Ip>): PolicyState {
    match ip
    case None => p
    case Some(a) => p.(dynamic := p.dynamic[a := NormalizeHost(host)])
  }

  predicate Covered(p: PolicyState, ip: Ip) {
    exists i :: 0 <= i < |p.cidrs| && Covers(p.cidrs[i], ip)
  }

  predicate AllowsIP(p: PolicyState, ip: Ip) {
    ip in p.dynamic || Covered(p, ip)
  }

  /** The host that an allowed address is attributed to; a covered address has none. */
  function HostOf(p: PolicyState, ip: Ip): string {
    if ip in p.dynamic then p.dynamic[ip] else ""
  }

  function HostSet(hosts: seq<string>): set<string> {
    set h | h in hosts && NormalizeHost(h) != "" :: NormalizeHost(h)
  }

  function CidrList(cidrs: seq<string>, parse: string -> Option<Cidr>): Option<seq<Cidr>> {
    if cidrs == [] then Some([])
    else
      var before := CidrList(cidrs[..|cidrs| - 1], parse);
      var c := Trim(cidrs[|cidrs| - 1]);
      if before.None? || c == "" then before
      else if parse(c).None? then None
      else Some(before.value + [parse(c).value])
  }

  // ---- messages ----

  datatype Rr = A(ip: Option<Ip>) | AAAA(ip: Option<Ip>) | OtherRr

  datatype Response = Response(rcode: nat, answers: seq<Rr>)

  datatype Upstream = ExchangeFailed | NoResponse | Answered(resp: Response)

  datatype Reply = NxDomain | ServFail | Forward(resp: Response)

  /** The address that one answer record supplies. */
  function RrIp(rr: Rr): Option<Ip> {
    if rr.OtherRr? then None else rr.ip
  }

  /** An A or an AAAA record with this very address. */
  predicate RecordOf(rr: Rr, ip: Ip) {
    rr == A(Some(ip)) || rr == AAAA(Some(ip))
  }

  predicate Supplies(resp: Response, n: nat, ip: Ip)
    requires n <= |resp.answers|
  {
    exists i :: 0 <= i < n && RecordOf(resp.answers[i], ip)
  }

  /** The policy after learning the first n answers. */
  function LearnFirst(p: PolicyState, name: string, resp: Response, n: nat): PolicyState
    requires n <= |resp.answers|
  {
    if n == 0 then p else Learned(LearnFirst(p, name, resp, n - 1), name, RrIp(resp.answers[n - 1]))
  }

  /** What a query does to the policy. */
  function PolicyAfter(p: PolicyState, questions: seq<string>, up: Upstream): PolicyState {
    if |questions| != 1 || !AllowsHost(p, questions[0]) || !up.Answered? then p
    else LearnFirst(p, questions[0], up.resp, |up.resp.answers|)
  }

  /** What a query is answered with. */
  function ReplyTo(p: PolicyState, questions: seq<string>, up: Upstream): Reply {
    if |questions| != 1 then ServFail
    else if !AllowsHost(p, questions[0]) then NxDomain
    else if !up.Answered? then ServFail
    else Forward(up.resp)
  }

  /** Learning attributes every supplied address to the queried name, forgets nothing and
      changes nothing else. */
  lemma {:induction false} LearnFirstExact(p: PolicyState, name: string, resp: Response, n: nat)
    requires n <= |resp.answers|
    ensures var q := LearnFirst(p, name, resp, n);
            && q.hosts == p.hosts && q.cidrs == p.cidrs
            && forall ip :: (ip in q.dynamic <==> ip in p.dynamic || Supplies(resp, n, ip))
                            && (ip in q.dynamic ==>
                                q.dynamic[ip] == if Supplies(resp, n, ip) then NormalizeHost(name) else p.dynamic[ip])
  {
    hide NormalizeHost;
    if n > 0 {
      LearnFirstExact(p, name, resp, n - 1);
      forall ip
        ensures Supplies(resp, n, ip) <==> Supplies(resp, n - 1, ip) || RecordOf(resp.answers[n - 1], ip)
        ensures RecordOf(resp.answers[n - 1], ip) <==> RrIp(resp.answers[n - 1]) == Some(ip)
      {
      }
    }
  }

  /** One query, whole: an answer is sent only for a listed name, after all its addresses are
      allowed; a refused or failed query leaves the policy alone. */
  lemma AnswerAfterLearning(p: PolicyState, questions: seq<string>, up: Upstream)
    ensures var reply, q := ReplyTo(p, questions, up), PolicyAfter(p, questions, up);
            && (reply.Forward? <==> |questions| == 1 && AllowsHost(p, questions[0]) && up.Answered?)
            && (reply.Forward? ==> forall ip :: Supplies(reply.resp, |reply.resp.answers|, ip) ==>
                                     AllowsIP(q, ip) && HostOf(q, ip) == NormalizeHost(questions[0]))
            && (!reply.Forward? ==> q == p)
            && (forall ip :: AllowsIP(p, ip) ==> AllowsIP(q, ip))
  {
    hide NormalizeHost, Covers;
    var q := PolicyAfter(p, questions, up);
    if ReplyTo(p, questions, up).Forward? {
      LearnFirstExact(p, questions[0], up.resp, |up.resp.answers|);
    }
    forall ip | AllowsIP(p, ip)
      ensures AllowsIP(q, ip)
    {
      if Covered(p, ip) {
        var i :| 0 <= i < |p.cidrs| && Covers(p.cidrs[i], ip);
        assert Covers(q.cidrs[i], ip);
      }
    }
  }

  /** The same on the records themselves. The addresses that are allowed after a query and were not
      learned before are exactly those of the A and AAAA records of a forwarded answer; each of these
      is attributed to the queried name; records of other kinds, and records without an address,
      teach nothing. The answer is passed on with its records as they came. */
  lemma RecordsTaught(p: PolicyState, questions: seq<string>, up: Upstream)
    ensures var reply, q := ReplyTo(p, questions, up), PolicyAfter(p, questions, up);
            && q.hosts == p.hosts && q.cidrs == p.cidrs
            && (reply.Forward? ==> |questions| == 1 && up == Answered(reply.resp))
            && (forall ip :: ip in q.dynamic <==>
                  || ip in p.dynamic
                  || (reply.Forward? && (A(Some(ip)) in reply.resp.answers || AAAA(Some(ip)) in reply.resp.answers)))
            && (reply.Forward? ==>
                  forall ip :: A(Some(ip)) in reply.resp.answers || AAAA(Some(ip)) in reply.resp.answers ==>
                    ip in q.dynamic && q.dynamic[ip] == NormalizeHost(questions[0]))
  {
    hide NormalizeHost;
    if ReplyTo(p, questions, up).Forward? {
      LearnFirstExact(p, questions[0], up.resp, |up.resp.answers|);
      forall ip
        ensures Supplies(up.resp, |up.resp.answers|, ip) <==>
                A(Some(ip)) in up.resp.answers || AAAA(Some(ip)) in up.resp.answers
      {
      }
    }
  }

  // ---- the policy object ----

  /** Policy. The mutex makes each method one atomic step, which is how the methods run here. */
  class Policy {
    var hosts: set<string>
    var staticCIDRs: seq<Cidr>
    var dynamicIPs: map<Ip, string>

    ghost function State(): PolicyState
      reads this
    {
      PolicyState(hosts, staticCIDRs, dynamicIPs)
    }

    constructor (hosts: set<string>, cidrs: seq<Cidr>)
      ensures State() == PolicyState(hosts, cidrs, map[])
    {
      this.hosts, staticCIDRs, dynamicIPs := hosts, cidrs, map[];
    }

    /** NewPolicy. */
    static method New(hosts: seq<string>, cidrs: seq<string>, parse: string -> Option<Cidr>) returns (p: Option<Policy>)
      ensures p.Some? <==> CidrList(cidrs, parse).Some?
      ensures p.Some? ==> fresh(p.value)
      ensures p.Some? ==> p.value.State() == PolicyState(HostSet(hosts), CidrList(cidrs, parse).value, map[])
    {
      hide NormalizeHost;
      var set_: set<string> := {};
      for i := 0 to |hosts|
        invariant set_ == HostSet(hosts[..i])
      {
        var h := NormalizeHost(hosts[i]);
        assert forall x :: x in hosts[..i + 1] <==> x in hosts[..i] || x == hosts[i];
        if h != "" {
          set_ := set_ + {h};
        }
      }
      assert hosts[..|hosts|] == hosts;
      var list: seq<Cidr> := [];
      for i := 0 to |cidrs|
        invariant CidrList(cidrs[..i], parse) == Some(list)
      {
        assert cidrs[..i + 1][..i] == cidrs[..i];
        var c := Trim(cidrs[i]);
        if c == "" {
          continue;
        }
        var net := parse(c);
        if net.None? {
          CidrListFails(cidrs, parse, i + 1);
          return None;
        }
        list := list + [net.value];
      }
      assert cidrs[..|cidrs|] == cidrs;
      var made := new Policy(set_, list);
      p := Some(made);
    }

    method HostAllowed(name: string) returns (ok: bool)
      ensures ok == AllowsHost(State(), name)
    {
      ok := NormalizeHost(name) in hosts;
    }

    method Learn(host: string, ip: Option<Ip>)
      modifies this
      ensures State() == Learned(old(State()), host, ip)
    {
      if ip.None? {
        return;
      }
      dynamicIPs := dynamicIPs[ip.value := NormalizeHost(host)];
    }

    method IpAllowed(ip: Ip) returns (host: string, ok: bool)
      ensures ok == AllowsIP(State(), ip)
      ensures host == HostOf(State(), ip)
    {
      if ip in dynamicIPs {
        return dynamicIPs[ip], true;
      }
      for i := 0 to |staticCIDRs|
        invariant forall j :: 0 <= j < i ==> !Covers(staticCIDRs[j], ip)
      {
        if Covers(staticCIDRs[i], ip) {
          return "", true;
        }
      }
      return "", false;
    }

    /** ServeDNS, uninterrupted. The exchange with the upstream resolver is a parameter. */
    method ServeDNS(questions: seq<string>, up: Upstream) returns (reply: Reply)
      modifies this
      ensures State() == PolicyAfter(old(State()), questions, up)
      ensures reply == ReplyTo(old(State()), questions, up)
      ensures reply.Forward? ==>
                forall ip :: A(Some(ip)) in reply.resp.answers || AAAA(Some(ip)) in reply.resp.answers ==>
                  ip in dynamicIPs && dynamicIPs[ip] == NormalizeHost(questions[0])
    {
      hide NormalizeHost, Supplies;
      RecordsTaught(State(), questions, up);
      if |questions| != 1 {
        return ServFail;
      }
      var name := questions[0];
      var listed := HostAllowed(name);
      if !listed {
        return NxDomain;
      }
      match up {
        case ExchangeFailed => return ServFail;
        case NoResponse => return ServFail;
        case Answered(resp) =>
          for i := 0 to |resp.answers|
            invariant State() == LearnFirst(old(State()), name, resp, i)
          {
            match resp.answers[i] {
              case A(ip) => Learn(name, ip);
              case AAAA(ip) => Learn(name, ip);
              case OtherRr => continue;
            }
          }
          return Forward(resp);
      }
    }
  }

  lemma {:induction false} CidrListFails(cidrs: seq<string>, parse: string -> Option<Cidr>, n: nat)
    requires n <= |cidrs| && CidrList(cidrs[..n], parse).None?
    ensures CidrList(cidrs, parse).None?
    decreases |cidrs| - n
  {
    if n == |cidrs| {
      assert cidrs[..n] == cidrs;
    } else {
      assert cidrs[..n + 1][..n] == cidrs[..n];
      CidrListFails(cidrs, parse, n + 1);
    }
  }

  /** The prefix list fails exactly when some non-blank entry does not parse; otherwise an address
      is covered exactly when some entry covers it. */
  lemma {:induction false} CidrListExact(cidrs: seq<string>, parse: string -> Option<Cidr>)
    ensures CidrList(cidrs, parse).None? <==>
            exists i :: 0 <= i < |cidrs| && Trim(cidrs[i]) != "" && parse(Trim(cidrs[i])).None?
    ensures CidrList(cidrs, parse).Some? ==>
              forall c :: c in CidrList(cidrs, parse).value <==>
                          exists i :: 0 <= i < |cidrs| && Trim(cidrs[i]) != "" && parse(Trim(cidrs[i])) == Some(c)
    decreases |cidrs|
  {
    hide Trim;
    if cidrs != [] {
      var n := |cidrs| - 1;
      CidrListExact(cidrs[..n], parse);
      assert forall i :: 0 <= i < n ==> cidrs[..n][i] == cidrs[i];
    }
  }
}
