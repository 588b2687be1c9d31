/** The relay's byte pump: two copies over two sockets, side by side, until both have ended. */
module Splice {

  /** The container's connection and the one dialed for it. */
  datatype Side = Client | Upstream

  function Other(x: Side): Side {
    if x.Client? then Upstream else Client
  }

  /** One socket of this process: what its peer has sent and whether it has finished sending, what
      was handed on to the peer, and which halves this process has shut. */
  datatype Socket = Socket(incoming: seq<int>, peerDone: bool, outgoing: seq<int>, readShut: bool, writeShut: bool)

  /** io.Copy is running, has returned, or has returned and its closing call is done. */
  datatype Phase = Copying | Ended | Closed

  /** The copy into one socket, which reads the other one. It has taken some bytes, and holds those
      that it has not handed on yet. A copy that ran into a half shut by this process was cut. */
  datatype Copy = Copy(taken: nat, buffer: seq<int>, sawEof: bool, failed: bool, cut: bool, phase: Phase)

  /** The two sockets, the two copies by the side that they write to, whether splice has returned. */
  datatype State = State(client: Socket, upstream: Socket, toClient: Copy, toUpstream: Copy, returned: bool)

  const OPEN: Socket := Socket([], false, [], false, false)
  const FRESH: Copy := Copy(0, [], false, false, false, Copying)
  const START: State := State(OPEN, OPEN, FRESH, FRESH, false)

  function Sock(s: State, x: Side): Socket {
    if x.Client? then s.client else s.upstream
  }

  function CopyTo(s: State, x: Side): Copy {
    if x.Client? then s.toClient else s.toUpstream
  }

  datatype Action =
    | Read(n: nat)   // read up to n bytes that have arrived
    | Write(n: nat)  // hand on n bytes that are held
    | ReadEof        // read the end of the stream
    | Fail           // the network fails a read or a write
    | Finish         // the closing call, after io.Copy has returned

  datatype Event =
    | Send(x: Side, bytes: seq<int>)  // the peer of x sends
    | SendEnd(x: Side)                // the peer of x closes its write half
    | Into(x: Side, action: Action)   // the copy that writes to x moves
    | Return                          // wg.Wait returns, and splice with it
    | Close(x: Side)                  // a deferred Close of the caller

  /** What the closing call does to the socket that was written to: shut its write half, as
      closeWrite does, or close it altogether. */
  datatype Closing = HalfClose | FullClose

  function Shut(s: Socket, how: Closing): Socket {
    s.(writeShut := true, readShut := s.readShut || how.FullClose?)
  }

  function Cut(c: Copy): Copy {
    c.(phase := Ended, failed := true, cut := true)
  }

  /** One move of a copy that reads src and writes dst. */
  function Moved(src: Socket, dst: Socket, c: Copy, a: Action): Copy {
    match a
    case Read(n) =>
      if !c.phase.Copying? || c.buffer != [] then c
      else if src.readShut then Cut(c)
      else if c.taken + n <= |src.incoming|
      then c.(taken := c.taken + n, buffer := src.incoming[c.taken..c.taken + n]) else c
    case Write(n) =>
      if !c.phase.Copying? || c.buffer == [] || n > |c.buffer| then c
      else if dst.writeShut then Cut(c)
      else c.(buffer := c.buffer[n..])
    case ReadEof =>
      if !c.phase.Copying? || c.buffer != [] then c
      else if src.readShut then Cut(c)
      else if src.peerDone && c.taken == |src.incoming| then c.(phase := Ended, sawEof := true) else c
    case Fail => if c.phase.Copying? then c.(phase := Ended, failed := true) else c
    case Finish => if c.phase.Ended? then c.(phase := Closed) else c
  }

  function Written(dst: Socket, c: Copy, a: Action, how: Closing): Socket {
    match a
    case Write(n) =>
      if c.phase.Copying? && n <= |c.buffer| && !dst.writeShut
      then dst.(outgoing := dst.outgoing + c.buffer[..n]) else dst
    case Finish => if c.phase.Ended? then Shut(dst, how) else dst
    case _ => dst
  }

  function SetSocket(s: State, x: Side, t: Socket): State {
    if x.Client? then s.(client := t) else s.(upstream := t)
  }

  function SetCopy(s: State, x: Side, c: Copy): State {
    if x.Client? then s.(toClient := c) else s.(toUpstream := c)
  }

  /** The caller defers the two closes: the upstream socket is closed first. */
  predicate MayClose(s: State, x: Side) {
    s.returned && (x.Client? ==> s.upstream.readShut && s.upstream.writeShut)
  }

  function Step(s: State, e: Event, how: Closing): State {
    match e
    case Send(x, bytes) =>
      if Sock(s, x).peerDone then s
      else SetSocket(s, x, Sock(s, x).(incoming := Sock(s, x).incoming + bytes))
    case SendEnd(x) => SetSocket(s, x, Sock(s, x).(peerDone := true))
    case Into(x, a) =>
      SetCopy(SetSocket(s, x, Written(Sock(s, x), CopyTo(s, x), a, how)),
              x, Moved(Sock(s, Other(x)), Sock(s, x), CopyTo(s, x), a))
    case Return => if s.toClient.phase.Closed? && s.toUpstream.phase.Closed? then s.(returned := true) else s
    case Close(x) => if MayClose(s, x) then SetSocket(s, x, Shut(Sock(s, x), FullClose)) else s
  }

  function Run(events: seq<Event>, how: Closing): State {
    if events == [] then START else Step(Run(events[..|events| - 1], how), events[|events| - 1], how)
  }

  // ---- conservation, whatever the closing call does ----

  /** Bytes handed on and bytes held are together the bytes taken; a copy ends only at the end of
      its stream or on an error. */
  predicate CopyOk(src: Socket, dst: Socket, c: Copy) {
    && c.taken <= |src.incoming|
    && dst.outgoing + c.buffer == src.incoming[..c.taken]
    && (!c.phase.Copying? ==> c.sawEof || c.failed)
    && (c.sawEof ==> src.peerDone && c.taken == |src.incoming| && c.buffer == [] && !c.failed && !c.phase.Copying?)
    && (c.cut ==> c.failed)
    && (c.failed ==> !c.phase.Copying?)
  }

  predicate SideOk(s: State, x: Side)
  {
    CopyOk(Sock(s, Other(x)), Sock(s, x), CopyTo(s, x))
  }

  lemma MoveKeepsOk(src: Socket, dst: Socket, c: Copy, a: Action, how: Closing)
    requires CopyOk(src, dst, c)
    ensures CopyOk(src, Written(dst, c, a, how), Moved(src, dst, c, a))
  {
    match a {
      case Read(n) =>
        if c.phase.Copying? && c.buffer == [] && !src.readShut && c.taken + n <= |src.incoming| {
          assert dst.outgoing + [] == dst.outgoing;
          assert src.incoming[..c.taken + n] == src.incoming[..c.taken] + src.incoming[c.taken..c.taken + n];
        }
      case Write(n) =>
        if n <= |c.buffer| {
          assert c.buffer == c.buffer[..n] + c.buffer[n..];
          assert (dst.outgoing + c.buffer[..n]) + c.buffer[n..] == dst.outgoing + c.buffer;
        }
        assert c.buffer == [] && n == 0 ==> dst.outgoing + c.buffer[..n] == dst.outgoing;
      case _ =>
    }
  }

  lemma SendKeepsOk(src: Socket, dst: Socket, c: Copy, bytes: seq<int>)
    requires CopyOk(src, dst, c) && !src.peerDone
    ensures CopyOk(src.(incoming := src.incoming + bytes), dst, c)
  {
    assert (src.incoming + bytes)[..c.taken] == src.incoming[..c.taken];
  }

  lemma StepKeepsOk(s: State, e: Event, how: Closing, x: Side)
    requires SideOk(s, x)
    ensures SideOk(Step(s, e, how), x)
  {
    hide CopyOk, Moved, Written;
    var src, dst, c := Sock(s, Other(x)), Sock(s, x), CopyTo(s, x);
    match e {
      case Into(y, a) =>
        if y == x {
          MoveKeepsOk(src, dst, c, a, how);
        } else {
          ReaderSide(src, CopyTo(s, y), a, how);
          OnlyStreams(src, dst, c, Written(src, CopyTo(s, y), a, how), dst);
        }
      case Send(y, bytes) =>
        if y != x && !src.peerDone {
          SendKeepsOk(src, dst, c, bytes);
        } else if y == x {
          OnlyStreams(src, dst, c, src, Sock(Step(s, e, how), x));
        }
      case SendEnd(y) =>
        OnlyStreams(src, dst, c, Sock(Step(s, e, how), Other(x)), Sock(Step(s, e, how), x));
      case Return =>
      case Close(y) =>
        OnlyStreams(src, dst, c, Sock(Step(s, e, how), Other(x)), Sock(Step(s, e, how), x));
    }
  }

  /** The other copy writes to the socket that this one reads; the bytes to read are not its. */
  lemma ReaderSide(src: Socket, c: Copy, a: Action, how: Closing)
    ensures Written(src, c, a, how).incoming == src.incoming && Written(src, c, a, how).peerDone == src.peerDone
  {
  }

  lemma OnlyStreams(src: Socket, dst: Socket, c: Copy, src': Socket, dst': Socket)
    requires CopyOk(src, dst, c)
    requires src'.incoming == src.incoming && (src.peerDone ==> src'.peerDone) && dst'.outgoing == dst.outgoing
    ensures CopyOk(src', dst', c)
  {
  }

  lemma {:induction false} RunOk(events: seq<Event>, how: Closing, x: Side)
    ensures SideOk(Run(events, how), x)
    decreases |events|
  {
    hide CopyOk, Step;
    if events == [] {
      StartOk();
    } else {
      RunOk(events[..|events| - 1], how, x);
      StepKeepsOk(Run(events[..|events| - 1], how), events[|events| - 1], how, x);
    }
  }

  lemma StartOk()
    ensures CopyOk(OPEN, OPEN, FRESH)
  {
  }

  /** In every interleaving, and whatever the closing call does, what a peer received is a prefix of
      what the other peer sent, short of it by exactly the bytes held and the bytes not taken; and a
      copy that saw the end of its stream without an error handed on all of it. */
  lemma SpliceConserves(events: seq<Event>, how: Closing, x: Side)
    ensures var s := Run(events, how);
            var src, dst, c := Sock(s, Other(x)), Sock(s, x), CopyTo(s, x);
            && dst.outgoing <= src.incoming
            && c.taken <= |src.incoming|
            && dst.outgoing + c.buffer + src.incoming[c.taken..] == src.incoming
            && (!c.phase.Copying? && !c.failed ==> src.peerDone && dst.outgoing == src.incoming)
  {
    hide Run;
    RunOk(events, how, x);
    var s := Run(events, how);
    var src, dst, c := Sock(s, Other(x)), Sock(s, x), CopyTo(s, x);
    assert src.incoming[..c.taken] + src.incoming[c.taken..] == src.incoming;
    assert dst.outgoing == (dst.outgoing + c.buffer)[..|dst.outgoing|];
    if c.buffer == [] {
      assert dst.outgoing + c.buffer == dst.outgoing;
      assert src.incoming[..|src.incoming|] == src.incoming;
    }
  }

  /** Each step only extends what a peer sent and what it received, and nothing more is handed on to
      a peer once the copy into its socket has ended. */
  lemma StepIsMonotone(s: State, e: Event, how: Closing, x: Side)
    ensures var t := Step(s, e, how);
            && Sock(s, x).incoming <= Sock(t, x).incoming && Sock(s, x).outgoing <= Sock(t, x).outgoing
            && (!CopyTo(s, x).phase.Copying? ==>
                  Sock(t, x).outgoing == Sock(s, x).outgoing && !CopyTo(t, x).phase.Copying?)
  {
  }

  /** What the peer of x sends over a run, up to where it closes its write half. */
  function SentBy(events: seq<Event>, x: Side): seq<int> {
    if events == [] then []
    else
      var before, e := events[..|events| - 1], events[|events| - 1];
      if e.Send? && e.x == x && SendEnd(x) !in before then SentBy(before, x) + e.bytes else SentBy(before, x)
  }

  /** In every run the stream of a peer is all that it sent, and it is finished exactly when the peer
      has closed its write half. */
  lemma {:induction false} IncomingIsSent(events: seq<Event>, how: Closing, x: Side)
    ensures Sock(Run(events, how), x).incoming == SentBy(events, x)
    ensures Sock(Run(events, how), x).peerDone <==> SendEnd(x) in events
    decreases |events|
  {
    if events != [] {
      var before, e := events[..|events| - 1], events[|events| - 1];
      IncomingIsSent(before, how, x);
      assert events == before + [e];
      StreamStep(Run(before, how), e, how, x);
    }
  }

  lemma StreamStep(s: State, e: Event, how: Closing, x: Side)
    ensures var now := Sock(Step(s, e, how), x);
            && now.incoming == Sock(s, x).incoming
                               + (if e.Send? && e.x == x && !Sock(s, x).peerDone then e.bytes else [])
            && now.peerDone == (Sock(s, x).peerDone || e == SendEnd(x))
  {
  }

  // ---- half-closing ----

  /** While splice runs this process shuts no read half, and a write half only behind its copy. */
  predicate HalvesOk(s: State, x: Side)
  {
    && (Sock(s, x).readShut ==> s.returned)
    && (Sock(s, x).writeShut ==> CopyTo(s, x).phase.Closed?)
    && (s.returned ==> CopyTo(s, x).phase.Closed?)
    && !CopyTo(s, x).cut
  }

  lemma StepKeepsHalves(s: State, e: Event, x: Side)
    requires HalvesOk(s, x) && HalvesOk(s, Other(x))
    ensures HalvesOk(Step(s, e, HalfClose), x)
  {
  }

  lemma {:induction false} RunHalves(events: seq<Event>, x: Side)
    ensures HalvesOk(Run(events, HalfClose), x)
    decreases |events|
  {
    hide Step, HalvesOk;
    if events == [] {
      StartHalves();
    } else {
      var init := events[..|events| - 1];
      RunHalves(init, x);
      RunHalves(init, Other(x));
      StepKeepsHalves(Run(init, HalfClose), events[|events| - 1], x);
    }
  }

  lemma StartHalves()
    ensures forall x :: HalvesOk(START, x)
  {
  }

  predicate NetworkWorks(events: seq<Event>, x: Side) {
    forall i :: 0 <= i < |events| ==> events[i] != Into(x, Fail)
  }

  lemma StepFailed(s: State, e: Event, how: Closing, x: Side)
    ensures var c, d := CopyTo(s, x), CopyTo(Step(s, e, how), x);
            d.failed ==> c.failed || d.cut || e == Into(x, Fail)
    ensures CopyTo(s, x).cut ==> CopyTo(Step(s, e, how), x).cut
  {
  }

  lemma {:induction false} OnlyTheNetworkFails(events: seq<Event>, x: Side)
    requires NetworkWorks(events, x)
    ensures !CopyTo(Run(events, HalfClose), x).failed
    decreases |events|
  {
    hide Step;
    if events != [] {
      var init := events[..|events| - 1];
      OnlyTheNetworkFails(init, x);
      RunHalves(events, x);
      StepFailed(Run(init, HalfClose), events[|events| - 1], HalfClose, x);
    }
  }

  /** Closing the write half behind one copy never disturbs the other: a copy fails only when the
      network fails it, a write half is shut only after the copy into it has ended, and no read half
      is shut before splice returns. If it returns and the network did not fail a direction, that
      stream was delivered whole. */
  lemma HalfCloseCutsNothing(events: seq<Event>, x: Side)
    ensures var s := Run(events, HalfClose);
            && (NetworkWorks(events, x) ==> !CopyTo(s, x).failed)
            && (Sock(s, x).writeShut ==> CopyTo(s, x).sawEof || CopyTo(s, x).failed)
            && (Sock(s, x).readShut ==> s.returned)
            && (s.returned && NetworkWorks(events, x) ==>
                  Sock(s, Other(x)).peerDone && Sock(s, x).outgoing == Sock(s, Other(x)).incoming)
  {
    hide Run, NetworkWorks;
    RunHalves(events, x);
    RunOk(events, HalfClose, x);
    SpliceConserves(events, HalfClose, x);
    if NetworkWorks(events, x) {
      OnlyTheNetworkFails(events, x);
    }
  }

  /** From every reachable state, also when the socket it reads has its write half shut already: a
      copy whose sender has finished can hand on all that is left and end cleanly. */
  lemma OtherDirectionDrains(events: seq<Event>, x: Side)
    requires var s := Run(events, HalfClose); CopyTo(s, x).phase.Copying? && Sock(s, Other(x)).peerDone
    ensures var s := Run(events, HalfClose);
            var rest := |Sock(s, Other(x)).incoming| - CopyTo(s, x).taken;
            && rest >= 0
            && var more := [Into(x, Write(|CopyTo(s, x).buffer|)), Into(x, Read(rest))]
                           + [Into(x, Write(rest)), Into(x, ReadEof)];
               var t := Run(events + more, HalfClose);
               && Sock(t, x).outgoing == Sock(t, Other(x)).incoming == Sock(s, Other(x)).incoming
               && CopyTo(t, x).phase.Ended? && CopyTo(t, x).sawEof && CopyTo(t, x).failed == CopyTo(s, x).failed
  {
    hide Run, Step;
    RunOk(events, HalfClose, x);
    RunHalves(events, x);
    RunHalves(events, Other(x));
    var s := Run(events, HalfClose);
    var c, src, dst := CopyTo(s, x), Sock(s, Other(x)), Sock(s, x);
    var rest := |src.incoming| - c.taken;
    var w1, r, w2, e := Into(x, Write(|c.buffer|)), Into(x, Read(rest)), Into(x, Write(rest)), Into(x, ReadEof);
    RunFour(events, w1, r, w2, e);
    assert [w1, r] + [w2, e] == [w1, r, w2, e];
    var s1 := Step(s, w1, HalfClose);
    CopyStep(s, x, Write(|c.buffer|));
    assert c.buffer[|c.buffer|..] == [] && c.buffer[..|c.buffer|] == c.buffer;
    var s2 := Step(s1, r, HalfClose);
    CopyStep(s1, x, Read(rest));
    assert CopyTo(s2, x).buffer == src.incoming[c.taken..];
    var s3 := Step(s2, w2, HalfClose);
    CopyStep(s2, x, Write(rest));
    assert CopyTo(s3, x).buffer == [];
    CopyStep(s3, x, ReadEof);
    assert dst.outgoing + c.buffer == src.incoming[..c.taken];
    assert src.incoming[..c.taken] + src.incoming[c.taken..] == src.incoming;
    assert Sock(s3, x).outgoing == src.incoming;
  }

  /** A reading or writing move of one copy, with both halves that it needs still open. */
  lemma CopyStep(s: State, x: Side, a: Action)
    requires !a.Finish? && !a.Fail? && CopyTo(s, x).phase.Copying?
    requires !Sock(s, Other(x)).readShut && !Sock(s, x).writeShut
    ensures var t := Step(s, Into(x, a), HalfClose);
            var c, d, src := CopyTo(s, x), CopyTo(t, x), Sock(s, Other(x));
            && Sock(t, Other(x)) == src
            && !Sock(t, x).writeShut
            && d.failed == c.failed
            && (a.Write? && a.n <= |c.buffer| ==>
                  d == c.(buffer := c.buffer[a.n..]) && Sock(t, x).outgoing == Sock(s, x).outgoing + c.buffer[..a.n])
            && (!a.Write? ==> Sock(t, x) == Sock(s, x))
            && (a.Read? && c.buffer == [] && c.taken + a.n <= |src.incoming| ==>
                  d == c.(taken := c.taken + a.n, buffer := src.incoming[c.taken..c.taken + a.n]))
            && (a.ReadEof? && c.buffer == [] && src.peerDone && c.taken == |src.incoming| ==>
                  d == c.(phase := Ended, sawEof := true))
  {
    if a.Write? && CopyTo(s, x).buffer == [] && a.n == 0 {
      assert CopyTo(s, x).buffer[0..] == [];
      assert Sock(s, x).outgoing + [] == Sock(s, x).outgoing;
    }
  }

  lemma RunAppend(events: seq<Event>, e: Event, how: Closing)
    ensures Run(events + [e], how) == Step(Run(events, how), e, how)
  {
    assert (events + [e])[..|events|] == events;
  }

  lemma RunFour(events: seq<Event>, a: Event, b: Event, c: Event, d: Event)
    ensures Run(events + [a, b, c, d], HalfClose) ==
            Step(Step(Step(Step(Run(events, HalfClose), a, HalfClose), b, HalfClose), c, HalfClose), d, HalfClose)
  {
    hide Step, Run;
    RunAppend(events, a, HalfClose);
    RunAppend(events + [a], b, HalfClose);
    RunAppend(events + [a] + [b], c, HalfClose);
    RunAppend(events + [a] + [b] + [c], d, HalfClose);
    assert [a, b] + [c, d] == [a, b, c, d];
    assert events + [a] + [b] + [c] + [d] == events + [a, b, c, d];
  }

  // ---- after splice ----

  lemma ClosedStays(s: State, e: Event, how: Closing, x: Side)
    requires s.returned && CopyTo(s, x).phase.Closed?
    ensures var t := Step(s, e, how);
            t.returned && CopyTo(t, x) == CopyTo(s, x) && Sock(t, x).outgoing == Sock(s, x).outgoing
    ensures Sock(s, Other(x)).peerDone ==>
              var t := Step(s, e, how);
              Sock(t, Other(x)).peerDone && Sock(t, Other(x)).incoming == Sock(s, Other(x)).incoming
  {
  }

  lemma {:induction false} AfterReturn(events: seq<Event>, more: seq<Event>, x: Side)
    requires Run(events, HalfClose).returned
    ensures var s, t := Run(events, HalfClose), Run(events + more, HalfClose);
            && t.returned && CopyTo(t, x) == CopyTo(s, x) && Sock(t, x).outgoing == Sock(s, x).outgoing
            && (Sock(s, Other(x)).peerDone ==>
                  Sock(t, Other(x)).peerDone && Sock(t, Other(x)).incoming == Sock(s, Other(x)).incoming)
    decreases |more|
  {
    hide Step, Run;
    if more == [] {
      assert events + more == events;
    } else {
      var init, e := more[..|more| - 1], more[|more| - 1];
      AfterReturn(events, init, x);
      RunHalves(events, x);
      RunAppend(events + init, e, HalfClose);
      assert events + init + [e] == events + more;
      ClosedStays(Run(events + init, HalfClose), e, HalfClose, x);
    }
  }

  /** The deferred closes lose nothing: whatever happens after splice has returned, a direction that
      the network did not fail has handed on every byte that its peer ever sent, so none is unread
      when its sockets are closed. */
  lemma DeferredCloseLosesNothing(events: seq<Event>, more: seq<Event>, x: Side)
    requires Run(events, HalfClose).returned && NetworkWorks(events, x)
    ensures var t := Run(events + more, HalfClose);
            && Sock(t, x).outgoing == Sock(t, Other(x)).incoming == Sock(Run(events, HalfClose), Other(x)).incoming
            && CopyTo(t, x).taken == |Sock(t, Other(x)).incoming| && CopyTo(t, x).buffer == []
  {
    hide Run, Step, NetworkWorks;
    HalfCloseCutsNothing(events, x);
    AfterReturn(events, more, x);
    RunOk(events + more, HalfClose, x);
    RunHalves(events, x);
    RunOk(events, HalfClose, x);
  }

  function Play(s: State, events: seq<Event>, how: Closing): State
    decreases |events|
  {
    if events == [] then s else Play(Step(s, events[0], how), events[1..], how)
  }

  lemma {:induction false} PlayRuns(before: seq<Event>, events: seq<Event>, how: Closing)
    ensures Play(Run(before, how), events, how) == Run(before + events, how)
    decreases |events|
  {
    hide Step, Run;
    if events == [] {
      assert before + events == before;
    } else {
      RunAppend(before, events[0], how);
      PlayRuns(before + [events[0]], events[1..], how);
      assert before + [events[0]] + events[1..] == before + events;
    }
  }

  /** The client ends its stream and its direction closes; then the server answers. */
  const REQUEST: seq<Event> := [SendEnd(Client), Into(Upstream, ReadEof), Into(Upstream, Finish)]
  const ANSWER: seq<Event> := [Send(Upstream, [7]), SendEnd(Upstream), Into(Client, Read(1)), Into(Client, Write(1))]
  const ENDING: seq<Event> := [Into(Client, ReadEof), Into(Client, Finish), Return]

  /** Why it is a half-close: in this run the network fails nothing, and the byte of the upstream
      server arrives when closeWrite is used but is lost when Close is used in its place. */
  lemma FullCloseLosesBytes()
    ensures NetworkWorks(REQUEST + ANSWER + ENDING, Client) && NetworkWorks(REQUEST + ANSWER + ENDING, Upstream)
    ensures var s := Run(REQUEST + ANSWER + ENDING, HalfClose);
            s.returned && s.client.outgoing == [7] == s.upstream.incoming
    ensures var s := Run(REQUEST + ANSWER + ENDING, FullClose);
            s.returned && s.client.outgoing == [] && s.upstream.incoming == [7] && s.toClient.cut
  {
    hide Run, NetworkWorks;
    LossRun(HalfClose);
    LossRun(FullClose);
    NobodyFails(Client);
    NobodyFails(Upstream);
  }

  lemma NobodyFails(x: Side)
    ensures NetworkWorks(REQUEST + ANSWER + ENDING, x)
  {
    assert Into(x, Fail) !in REQUEST && Into(x, Fail) !in ANSWER && Into(x, Fail) !in ENDING;
  }

  lemma LossRun(how: Closing)
    ensures Run(REQUEST + ANSWER + ENDING, how) ==
            Play(Play(Play(START, REQUEST, how), ANSWER, how), ENDING, how)
    ensures var s := Run(REQUEST + ANSWER + ENDING, how);
            && s.returned && s.upstream.incoming == [7]
            && s.client.outgoing == (if how.HalfClose? then [7] else [])
            && s.toClient.cut == how.FullClose?
  {
    hide Step, Run, Play;
    PlayRuns([], REQUEST, how);
    PlayRuns(REQUEST, ANSWER, how);
    PlayRuns(REQUEST + ANSWER, ENDING, how);
    RunNothing(how);
    assert [] + REQUEST == REQUEST;
    AfterRequest(how);
    AfterAnswer(Play(START, REQUEST, how), how);
    AfterEnding(Play(Play(START, REQUEST, how), ANSWER, how), how);
  }

  lemma RunNothing(how: Closing)
    ensures Run([], how) == START
  {
  }

  lemma AfterRequest(how: Closing)
    ensures var t := Play(START, REQUEST, how);
            && t.client == OPEN.(peerDone := true) && t.toClient == FRESH && !t.returned
            && t.upstream == OPEN.(writeShut := true, readShut := how.FullClose?)
            && t.toUpstream == FRESH.(sawEof := true, phase := Closed)
  {
    PlayThree(START, REQUEST, how);
  }

  lemma AfterAnswer(s: State, how: Closing)
    requires s.client == OPEN.(peerDone := true) && s.toClient == FRESH && !s.returned
    requires s.upstream == OPEN.(writeShut := true, readShut := how.FullClose?)
    ensures var t := Play(s, ANSWER, how);
            && t.toUpstream == s.toUpstream && !t.returned
            && t.upstream == s.upstream.(incoming := [7], peerDone := true)
            && t.client == s.client.(outgoing := if how.HalfClose? then [7] else [])
            && t.toClient == if how.HalfClose? then FRESH.(taken := 1) else Cut(FRESH)
  {
    var s1 := Step(s, Send(Upstream, [7]), how);
    assert [] + [7] == [7];
    PlayThree(s1, ANSWER[1..], how);
    var s3 := Step(Step(s1, SendEnd(Upstream), how), Into(Client, Read(1)), how);
    assert [7][0..1] == [7] && [7][1..] == [] && [7][..1] == [7];
  }

  lemma AfterEnding(s: State, how: Closing)
    requires s.toUpstream.phase.Closed? && s.upstream.incoming == [7] && s.upstream.peerDone
    requires s.client.outgoing == if how.HalfClose? then [7] else []
    requires s.toClient == if how.HalfClose? then FRESH.(taken := 1) else Cut(FRESH)
    requires s.upstream.readShut == how.FullClose?
    ensures var t := Play(s, ENDING, how);
            && t.returned && t.upstream.incoming == [7]
            && t.client.outgoing == (if how.HalfClose? then [7] else [])
            && t.toClient.cut == how.FullClose?
  {
    PlayThree(s, ENDING, how);
  }

  lemma PlayThree(s: State, e: seq<Event>, how: Closing)
    requires |e| == 3
    ensures Play(s, e, how) == Step(Step(Step(s, e[0], how), e[1], how), e[2], how)
  {
    hide Step;
    var s1 := Step(s, e[0], how);
    var s2 := Step(s1, e[1], how);
    assert e[1..][1..] == e[2..] && e[2..][1..] == [];
    assert Play(s1, e[1..], how) == Play(s2, e[2..], how);
    assert Play(s2, e[2..], how) == Step(s2, e[2], how);
  }

  /** However far two copies have got, a network that fails both brings everything down: splice returns,
      and the deferred closes leave no half of either socket open. Nothing is handed on meanwhile. */
  lemma NetworkDownEndsAll(s: State, how: Closing)
    ensures var down := Step(Step(s, Into(Client, Fail), how), Into(Upstream, Fail), how);
            var ended := Step(Step(down, Into(Client, Finish), how), Into(Upstream, Finish), how);
            var over := Step(Step(Step(ended, Return, how), Close(Upstream), how), Close(Client), how);
            && over.returned
            && forall x :: CopyTo(over, x).phase.Closed?
                           && Sock(over, x).readShut && Sock(over, x).writeShut
                           && Sock(over, x).outgoing == Sock(s, x).outgoing
                           && (CopyTo(s, x).phase.Copying? ==> CopyTo(over, x).failed)
  {
    var down := Step(Step(s, Into(Client, Fail), how), Into(Upstream, Fail), how);
    var ended := Step(Step(down, Into(Client, Finish), how), Into(Upstream, Finish), how);
    assert ended.toClient.phase.Closed? && ended.toUpstream.phase.Closed?;
  }

  // ---- the recovered destination ----

  /** parseOriginalDst: the kernel's port is in network byte order, read as a native integer. */
  function SwapBytes(port: nat): (r: nat)
    requires port < 0x1_0000
    ensures r < 0x1_0000
  {
    port / 256 + port % 256 * 256
  }

  /** The port read on a little-endian machine from its two wire bytes swaps back to them. */
  lemma PortRecovered(high: nat, low: nat)
    requires high < 256 && low < 256
    ensures SwapBytes(low * 256 + high) == high * 256 + low
  {
    assert (low * 256 + high) / 256 == low && (low * 256 + high) % 256 == high;
  }

  lemma SwapTwice(port: nat)
    requires port < 0x1_0000
    ensures SwapBytes(SwapBytes(port)) == port
  {
    PortRecovered(port % 256, port / 256);
  }
}
