/** Following the event log: lines are assembled from whatever each read returns. */
module Tail {
  import opened Wrappers
  import opened Text

  // ---- the batch view ----

  /** The complete lines of a text, without their newlines. */
  function Lines(text: string): (lines: seq<string>)
    ensures forall l :: l in lines ==> NewlineFree(l)
    decreases |text|
  {
    var i := IndexOf(text, '\n');
    if i == |text| then [] else [text[..i]] + Lines(text[i + 1..])
  }

  /** The unterminated end of a text. */
  function Remainder(text: string): string
    decreases |text|
  {
    var i := IndexOf(text, '\n');
    if i == |text| then text else Remainder(text[i + 1..])
  }

  /** The event that a line yields: blank and malformed lines yield none. */
  function EventOf<E>(line: string, decode: string -> Option<E>): seq<E> {
    var l := Trim(line);
    if l == "" then []
    else
      match decode(l)
      case Some(e) => [e]
      case None => []
  }

  function EventsOf<E>(lines: seq<string>, decode: string -> Option<E>): seq<E> {
    if lines == [] then []
    else EventsOf(lines[..|lines| - 1], decode) + EventOf(lines[|lines| - 1], decode)
  }

  /** All the events that a text holds, read at once. */
  function Batch<E>(text: string, decode: string -> Option<E>): seq<E> {
    EventsOf(Lines(text), decode)
  }

  lemma CutLine(l: string, rest: string)
    requires NewlineFree(l)
    ensures Lines(l + "\n" + rest) == [l] + Lines(rest)
    ensures Remainder(l + "\n" + rest) == Remainder(rest)
  {
    IndexOfCons(l, '\n', rest);
    SliceCons(l, '\n', rest);
  }

  lemma NoLine(l: string)
    requires NewlineFree(l)
    ensures Lines(l) == [] && Remainder(l) == l
  {
  }

  lemma FirstCut(text: string)
    requires !NewlineFree(text)
    ensures var i := IndexOf(text, '\n');
            i < |text| && NewlineFree(text[..i]) && text == text[..i] + "\n" + text[i + 1..]
  {
    var i := IndexOf(text, '\n');
    var p := text[..i];
    assert NewlineFree(p) by {
      forall k | 0 <= k < |p|
        ensures p[k] != '\n'
      {
        assert p[k] == text[k];
      }
    }
    CutAt(text, i);
  }

  /** Bytes without a newline only lengthen the remainder. */
  lemma {:induction false} AppendPart(text: string, part: string)
    requires NewlineFree(part)
    ensures Lines(text + part) == Lines(text) && Remainder(text + part) == Remainder(text) + part
    decreases |text|
  {
    hide Lines, Remainder;
    if NewlineFree(text) {
      assert NewlineFree(text + part);
      NoLine(text);
      NoLine(text + part);
    } else {
      FirstCut(text);
      var i := IndexOf(text, '\n');
      var l, rest := text[..i], text[i + 1..];
      assert text + part == l + "\n" + (rest + part);
      CutLine(l, rest);
      CutLine(l, rest + part);
      AppendPart(rest, part);
    }
  }

  /** A newline turns the remainder into one more line. */
  lemma {:induction false} AppendNewline(text: string)
    ensures Lines(text + "\n") == Lines(text) + [Remainder(text)] && Remainder(text + "\n") == ""
    decreases |text|
  {
    hide Lines, Remainder;
    if NewlineFree(text) {
      NoLine(text);
      NoLine("");
      CutLine(text, "");
      assert text + "\n" + "" == text + "\n";
    } else {
      FirstCut(text);
      var i := IndexOf(text, '\n');
      var l, rest := text[..i], text[i + 1..];
      assert text + "\n" == l + "\n" + (rest + "\n");
      CutLine(l, rest);
      CutLine(l, rest + "\n");
      AppendNewline(rest);
    }
  }

  /** The lines and the remainder are the text, cut at every newline and nowhere else. */
  function Terminated(lines: seq<string>): string {
    if lines == [] then "" else lines[0] + "\n" + Terminated(lines[1..])
  }

  lemma {:induction false} LinesLoseNothing(text: string)
    ensures Terminated(Lines(text)) + Remainder(text) == text
    decreases |text|
  {
    hide Lines, Remainder;
    if NewlineFree(text) {
      NoLine(text);
    } else {
      FirstCut(text);
      var i := IndexOf(text, '\n');
      var l, rest := text[..i], text[i + 1..];
      CutLine(l, rest);
      LinesLoseNothing(rest);
      assert ([l] + Lines(rest))[1..] == Lines(rest);
      assert l + "\n" + Terminated(Lines(rest)) + Remainder(rest) ==
          l + "\n" + (Terminated(Lines(rest)) + Remainder(rest));
    }
  }

  // ---- the reader ----

  /** What happens around one ReadString: bytes the writer appended just before it, whether the
      read fails, and whether the context is cancelled at the next channel operation. */
  datatype Turn = Turn(appended: string, fails: bool, cancelled: bool)

  datatype End = AtEof | ReadError | Cancelled | StillFollowing

  /** tailEvents's goroutine: the file as it has grown, the read position and the bytes kept. */
  class Tailer<E> {
    const decode: string -> Option<E>
    var file: string
    var pos: nat
    var partial: string
    var emitted: seq<E>

    /** What has been emitted and kept is what a batch read of the consumed bytes gives. */
    ghost predicate Valid()
      reads this
    {
      && pos <= |file|
      && emitted == Batch(file[..pos], decode)
      && partial == Remainder(file[..pos])
    }

    constructor (decode: string -> Option<E>, file: string)
      ensures Valid() && this.decode == decode && this.file == file && pos == 0 && emitted == []
    {
      this.decode := decode;
      this.file, pos, partial, emitted := file, 0, "", [];
    }

    /** bufio.Reader.ReadString('\n'): up to and including the next newline; at the end of the file
        or on an error, the bytes read before it. */
    method ReadString(fails: bool) returns (chunk: string, err: bool)
      requires pos <= |file|
      modifies this`pos
      ensures pos <= |file| && file[..pos] == file[..old(pos)] + chunk
      ensures err ==> NewlineFree(chunk)
      ensures err && !fails ==> pos == |file|
      ensures !err ==> chunk != "" && chunk[|chunk| - 1] == '\n' && NewlineFree(chunk[..|chunk| - 1])
      ensures fails ==> err
      ensures NewlineFree(file[old(pos)..]) ==> err
    {
      var rest := file[pos..];
      var i := IndexOf(rest, '\n');
      if fails || i == |rest| {
        chunk, err := rest[..i], true;
        pos := pos + i;
      } else {
        chunk, err := rest[..i + 1], false;
        assert forall k :: 0 <= k < i ==> chunk[..i][k] == rest[k];
        pos := pos + i + 1;
      }
    }

    /** One turn of the loop. When it returns an end, the goroutine stops; a cancelled send drops
        the event of the line just consumed. */
    method TakeTurn(t: Turn, follow: bool) returns (end: Option<End>)
      requires Valid()
      modifies this
      ensures file == old(file) + t.appended && old(pos) <= pos <= |file|
      ensures end == Some(Cancelled) || Valid()
      ensures end == Some(AtEof) ==> pos == |file| && !follow
      ensures end != Some(StillFollowing)
      ensures !follow && !t.fails && NewlineFree((old(file) + t.appended)[old(pos)..]) ==> end == Some(AtEof)
      ensures end == Some(ReadError) <==> t.fails
      ensures end == Some(Cancelled) ==>
                t.cancelled && exists e :: emitted + e == Batch(file[..pos], decode) && |e| <= 1
      ensures old(emitted) <= emitted
    {
      hide Lines, Remainder, EventOf, Batch;
      ghost var before := file[..pos];
      file := file + t.appended;
      assert file[..pos] == before;
      var chunk, err := ReadString(t.fails);
      assert file[..pos] == before + chunk;
      if err {
        AppendPart(before, chunk);
        PartKeepsBatch(before, chunk, decode);
        partial := partial + chunk;
        if t.fails {
          return Some(ReadError);
        }
        if !follow {
          return Some(AtEof);
        }
        if t.cancelled {
          assert emitted + [] == Batch(file[..pos], decode);
          return Some(Cancelled);
        }
        return None;
      }

      ghost var body := chunk[..|chunk| - 1];
      LineDone(before, body, decode);
      assert before + body + "\n" == file[..pos];
      var line := Trim(partial + chunk);
      LineEvent(partial, body, chunk, decode);
      partial := "";
      if line == "" {
        assert emitted + [] == emitted;
        return None;
      }
      var e := decode(line);
      if e.None? {
        assert emitted + [] == emitted;
        return None;
      }
      if t.cancelled {
        assert emitted + [e.value] == Batch(file[..pos], decode);
        return Some(Cancelled);
      }
      emitted := emitted + [e.value];
      return None;
    }

    /** The whole goroutine, over any schedule of appends, failures and cancellation. */
    method Follow(turns: seq<Turn>, follow: bool) returns (end: End)
      requires Valid()
      modifies this
      ensures old(file) <= file <= old(file) + Appends(turns) && pos <= |file|
      ensures end == Cancelled || Valid()
      ensures end == AtEof ==> pos == |file| && !follow
      ensures end == Cancelled ==> exists e :: |e| <= 1 && emitted + e == Batch(file[..pos], decode)
      ensures end == ReadError ==> exists i :: 0 <= i < |turns| && turns[i].fails
      ensures end == Cancelled ==> exists i :: 0 <= i < |turns| && turns[i].cancelled
      ensures old(emitted) <= emitted
    {
      hide Batch, Lines, Remainder, Appends;
      NoAppends();
      for i := 0 to |turns|
        invariant Valid() && old(file) <= file && old(emitted) <= emitted
        invariant file == old(file) + Appends(turns[..i])
      {
        AppendsSplit(turns, i);
        var e := TakeTurn(turns[i], follow);
        if e.Some? {
          return e.value;
        }
      }
      assert turns[..|turns|] == turns;
      return StillFollowing;
    }
  }

  /** All that the writer appends during the turns. */
  function Appends(turns: seq<Turn>): string {
    if turns == [] then "" else Appends(turns[..|turns| - 1]) + turns[|turns| - 1].appended
  }

  lemma NoAppends()
    ensures Appends([]) == ""
  {
  }

  lemma AppendsSplit(turns: seq<Turn>, i: nat)
    requires i < |turns|
    ensures Appends(turns[..i + 1]) == Appends(turns[..i]) + turns[i].appended
    ensures Appends(turns[..i + 1]) <= Appends(turns)
  {
    assert turns[..i + 1][..i] == turns[..i];
    AppendsGrow(turns, i + 1);
  }

  lemma {:induction false} AppendsGrow(turns: seq<Turn>, i: nat)
    requires i <= |turns|
    ensures Appends(turns[..i]) <= Appends(turns)
    decreases |turns|
  {
    if i == |turns| {
      assert turns[..i] == turns;
    } else {
      var init := turns[..|turns| - 1];
      AppendsGrow(init, i);
      assert init[..i] == turns[..i];
    }
  }

  /** What the loop decodes is the event of the assembled line. */
  lemma LineEvent<E>(partial: string, body: string, chunk: string, decode: string -> Option<E>)
    requires chunk != "" && chunk[|chunk| - 1] == '\n' && body == chunk[..|chunk| - 1]
    ensures var line := Trim(partial + chunk);
            EventOf(partial + body, decode) ==
            if line == "" || decode(line).None? then [] else [decode(line).value]
  {
    assert partial + chunk == (partial + body) + "\n";
    TrimPadRight(partial + body, "\n");
  }

  /** Consuming the rest of a line and its newline adds exactly that line's event. */
  lemma LineDone<E>(before: string, body: string, decode: string -> Option<E>)
    requires NewlineFree(body)
    ensures Batch(before + body + "\n", decode) ==
            Batch(before, decode) + EventOf(Remainder(before) + body, decode)
    ensures Remainder(before + body + "\n") == ""
  {
    hide Remainder, Lines, EventOf;
    AppendPart(before, body);
    AppendNewline(before + body);
    var lines := Lines(before + body);
    assert (lines + [Remainder(before + body)])[..|lines|] == lines;
  }

  /** What one complete line is worth: the event it decodes to, whatever whitespace is around it; a blank
      line and one that does not decode are passed over, and reading goes on behind them. */
  lemma LineWorth<E>(before: string, line: string, decode: string -> Option<E>)
    requires (before == "" || before[|before| - 1] == '\n') && NewlineFree(line)
    ensures Batch(before + line + "\n", decode) ==
            Batch(before, decode)
            + if Trim(line) != "" && decode(Trim(line)).Some? then [decode(Trim(line)).value] else []
  {
    hide Batch;
    LineDone(before, line, decode);
    NothingLeft(before);
    assert "" + line == line;
  }

  lemma NothingLeft(before: string)
    requires before == "" || before[|before| - 1] == '\n'
    ensures Remainder(before) == ""
  {
    if before != "" {
      var init := before[..|before| - 1];
      assert before == init + "\n";
      AppendNewline(init);
    }
  }

  // ---- against the writer ----

  /** What Logger leaves in the file: one encoded event a line, whole lines only, because the
      mutex admits one writer at a time. */
  function Logged<E>(events: seq<E>, encode: E -> string): string {
    if events == [] then "" else Logged(events[..|events| - 1], encode) + encode(events[|events| - 1]) + "\n"
  }

  /** An encoding the reader understands: it has no newline, starts and ends in a bracket, say,
      rather than in whitespace, and decodes to what was encoded. */
  ghost predicate Codec<E(!new)>(encode: E -> string, decode: string -> Option<E>) {
    forall e :: NewlineFree(encode(e)) && Trimmed(encode(e)) && encode(e) != "" && decode(encode(e)) == Some(e)
  }

  /** Reading back a log that was written whole gives the logged events, in order, once each,
      with nothing left over. */
  lemma {:induction false} LogRoundTrip<E(!new)>(events: seq<E>, encode: E -> string, decode: string -> Option<E>)
    requires Codec(encode, decode)
    ensures Batch(Logged(events, encode), decode) == events
    ensures Remainder(Logged(events, encode)) == ""
    decreases |events|
  {
    hide Batch, Remainder;
    if events == [] {
      EmptyBatch(decode);
    } else {
      var init, e := events[..|events| - 1], events[|events| - 1];
      LogRoundTrip(init, encode, decode);
      LineDone(Logged(init, encode), encode(e), decode);
      assert "" + encode(e) == encode(e);
      assert events == init + [e];
    }
  }

  lemma EmptyBatch<E>(decode: string -> Option<E>)
    ensures Batch("", decode) == [] && Remainder("") == ""
  {
  }

  /** At any earlier moment the reader has seen an initial part of the logged sequence: a file cut
      anywhere yields a prefix of the events. */
  lemma {:induction false} CutGivesPrefix<E>(text: string, more: string, decode: string -> Option<E>)
    ensures Batch(text, decode) <= Batch(text + more, decode)
    decreases |more|
  {
    hide Batch, Lines, Remainder, EventOf;
    if more == "" {
      assert text + more == text;
    } else {
      var init, c := more[..|more| - 1], more[|more| - 1];
      CutGivesPrefix(text, init, decode);
      assert text + more == text + init + [c];
      if c == '\n' {
        LineDone(text + init, "", decode);
        assert text + init + "" + "\n" == text + more;
      } else {
        PartKeepsBatch(text + init, [c], decode);
      }
    }
  }

  lemma PartKeepsBatch<E>(text: string, part: string, decode: string -> Option<E>)
    requires NewlineFree(part)
    ensures Batch(text + part, decode) == Batch(text, decode)
  {
    AppendPart(text, part);
  }

  /** So a reader that has consumed any initial part of the log has emitted an initial part of the
      logged events, and all of them once it has consumed the whole log. */
  lemma ReaderFollowsWriter<E(!new)>(consumed: string, events: seq<E>, encode: E -> string, decode: string -> Option<E>)
    requires Codec(encode, decode) && consumed <= Logged(events, encode)
    ensures Batch(consumed, decode) <= events
    ensures consumed == Logged(events, encode) ==> Batch(consumed, decode) == events && Remainder(consumed) == ""
  {
    hide Batch, Remainder, Codec;
    var log := Logged(events, encode);
    LogRoundTrip(events, encode, decode);
    CutGivesPrefix(consumed, log[|consumed|..], decode);
    assert consumed + log[|consumed|..] == log;
  }

  /** The goroutine against the logger, over every schedule: as long as the file holds an initial part
      of the log, what was sent is an initial part of the logged events, in order and once each, and
      when it stops at the end of the whole log everything was sent. */
  method FollowLog<E(!new)>(t: Tailer<E>, turns: seq<Turn>, follow: bool, ghost events: seq<E>,
                     ghost encode: E -> string)
    returns (end: End)
    requires t.Valid() && Codec(encode, t.decode)
    requires t.file + Appends(turns) <= Logged(events, encode)
    modifies t
    ensures old(t.emitted) <= t.emitted <= events
    ensures end != Cancelled ==> t.Valid()
    ensures end == AtEof && t.file == Logged(events, encode) ==> t.emitted == events && t.partial == ""
  {
    hide Batch, Remainder, Codec, Appends, Logged;
    end := t.Follow(turns, follow);
    ReaderFollowsWriter(t.file[..t.pos], events, encode, t.decode);
    if end == AtEof {
      assert t.file[..t.pos] == t.file;
    }
  }
}
