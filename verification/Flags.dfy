/** Command lines: moving known flags to the front, and what Go's flag package then reads. */
module Flags {
  import opened Wrappers
  import opened Text

  /** A defined flag: whether it is boolean, and the variable it sets (two flags may share one). */
  datatype FlagDef = FlagDef(isBool: bool, slot: string)

  type FlagSet = map<string, FlagDef>

  /** The flag package refuses to define other names. */
  predicate WellFormed(fs: FlagSet) {
    forall n :: n in fs ==> n != "" && n[0] != '-' && '=' !in n
  }

  // ---- reading one argument ----

  /** A flag argument after its dashes, cut at the first '='. */
  datatype Occurrence = Occurrence(def: FlagDef, value: Option<string>)

  /** The text after one or two dashes; None for an argument that cannot be a flag. */
  function AfterDashes(a: string): Option<string> {
    if |a| >= 2 && a[0] == '-' && a[1] == '-' then Some(a[2..])
    else if |a| > 1 && a[0] == '-' then Some(a[1..])
    else None
  }

  function NamePart(s: string): string {
    s[..IndexOf(s, '=')]
  }

  function ValuePart(s: string): Option<string> {
    var eq := IndexOf(s, '=');
    if eq < |s| then Some(s[eq + 1..]) else None
  }

  /** The lookup of reorderKnownFlags. */
  function KnownFlag(fs: FlagSet, a: string): Option<Occurrence> {
    match AfterDashes(a)
    case None => None
    case Some(s) => if NamePart(s) in fs then Some(Occurrence(fs[NamePart(s)], ValuePart(s))) else None
  }

  /** A flag that takes the next argument as its value. */
  predicate WantsNext(o: Occurrence) {
    o.value.None? && !o.def.isBool
  }

  // ---- reorderKnownFlags ----

  /** What stands at the front of a command line: nothing, the terminator, an argument to pass
      over, a known flag complete with its value (n arguments), or a last flag without its value. */
  datatype Shape = Empty | Stops | Plain | Block(n: nat) | Dangler

  function ShapeOf(fs: FlagSet, args: seq<string>): (s: Shape)
    ensures s.Block? ==> 0 < s.n <= |args|
    ensures s.Dangler? ==> |args| == 1
    ensures s.Empty? <==> args == []
  {
    if args == [] then Empty
    else if args[0] == "--" then Stops
    else
      match KnownFlag(fs, args[0])
      case None => Plain
      case Some(o) => if !WantsNext(o) then Block(1) else if |args| > 1 then Block(2) else Dangler
  }

  datatype Scanned = Scanned(known: seq<string>, rest: seq<string>)

  function Scan(fs: FlagSet, args: seq<string>): Scanned
    decreases |args|
  {
    match ShapeOf(fs, args)
    case Empty => Scanned([], [])
    case Stops => Scanned([], args)
    case Plain => var s := Scan(fs, args[1..]); Scanned(s.known, [args[0]] + s.rest)
    case Block(n) => var s := Scan(fs, args[n..]); Scanned(args[..n] + s.known, s.rest)
    case Dangler => Scanned(args, [])
  }

  function Known(fs: FlagSet, args: seq<string>): seq<string> {
    Scan(fs, args).known
  }

  function Rest(fs: FlagSet, args: seq<string>): seq<string> {
    Scan(fs, args).rest
  }

  function Reorder(fs: FlagSet, args: seq<string>): seq<string> {
    Known(fs, args) + Rest(fs, args)
  }

  /** reorderKnownFlags, with its index that skips ahead. */
  method ReorderKnownFlags(fs: FlagSet, args: seq<string>) returns (r: seq<string>)
    ensures r == Reorder(fs, args)
  {
    hide KnownFlag, Scan, WantsNext, Known, Rest;
    var known: seq<string>, rest: seq<string> := [], [];
    var i := 0;
    assert args[0..] == args;
    while i < |args|
      invariant 0 <= i <= |args|
      invariant Known(fs, args) == known + Known(fs, args[i..])
      invariant Rest(fs, args) == rest + Rest(fs, args[i..])
      decreases |args| - i
    {
      var a := args[i];
      ScanTurn(fs, args, i, known, rest);
      if a == "--" {
        rest := rest + args[i..];
        i := |args|;
        break;
      }
      var o := KnownFlag(fs, a);
      if o.None? {
        rest := rest + [a];
        i := i + 1;
        continue;
      }
      if WantsNext(o.value) && i + 1 < |args| {
        known := known + [a];
        i := i + 1;
        known := known + [args[i]];
      } else {
        known := known + [a];
      }
      i := i + 1;
    }
    NothingLeft(fs, args);
    Assoc(known, [], []);
    r := known + rest;
  }

  lemma Assoc(a: seq<string>, b: seq<string>, c: seq<string>)
    ensures a + (b + c) == (a + b) + c
  {
  }

  lemma NothingLeft(fs: FlagSet, args: seq<string>)
    ensures Known(fs, args[|args|..]) == [] && Rest(fs, args[|args|..]) == []
  {
    assert args[|args|..] == [];
  }

  /** The scan at position i, in terms of the arguments there. */
  lemma ScanAt(fs: FlagSet, args: seq<string>, i: nat)
    requires i < |args|
    ensures var a, s := args[i], Scan(fs, args[i..]);
            var o := KnownFlag(fs, a);
            if a == "--" then s == Scanned([], args[i..]) && Scan(fs, args[|args|..]) == Scanned([], [])
            else if o.None? then
              s.known == Known(fs, args[i + 1..]) && s.rest == [a] + Rest(fs, args[i + 1..])
            else if WantsNext(o.value) && i + 1 < |args| then
              s.known == [a] + [args[i + 1]] + Known(fs, args[i + 2..]) && s.rest == Rest(fs, args[i + 2..])
            else
              s.known == [a] + Known(fs, args[i + 1..]) && s.rest == Rest(fs, args[i + 1..])
  {
    hide KnownFlag;
    var t := args[i..];
    assert t[0] == args[i] && t[1..] == args[i + 1..] && args[|args|..] == [];
    match ShapeOf(fs, t) {
      case Block(n) =>
        if n == 1 {
          assert t[..1] == [args[i]];
        } else {
          assert t[..2] == [args[i]] + [args[i + 1]] && t[2..] == args[i + 2..];
        }
      case Dangler => assert t == [args[i]] && t[1..] == [];
      case _ =>
    }
  }

  /** One turn of the loop moves what it looks at from the remaining arguments to its results. */
  lemma ScanTurn(fs: FlagSet, args: seq<string>, i: nat, known: seq<string>, rest: seq<string>)
    requires i < |args|
    ensures var a, o := args[i], KnownFlag(fs, args[i]);
            var k, r := known + Known(fs, args[i..]), rest + Rest(fs, args[i..]);
            if a == "--" then
              k == known + Known(fs, args[|args|..]) && r == rest + args[i..] + Rest(fs, args[|args|..])
            else if o.None? then
              k == known + Known(fs, args[i + 1..]) && r == rest + [a] + Rest(fs, args[i + 1..])
            else if WantsNext(o.value) && i + 1 < |args| then
              && k == known + [a] + [args[i + 1]] + Known(fs, args[i + 1 + 1..])
              && r == rest + Rest(fs, args[i + 1 + 1..])
            else
              k == known + [a] + Known(fs, args[i + 1..]) && r == rest + Rest(fs, args[i + 1..])
  {
    hide KnownFlag, Scan, WantsNext;
    ScanAt(fs, args, i);
    var a := args[i];
    var o := KnownFlag(fs, a);
    if a == "--" {
      Assoc(rest, args[i..], []);
    } else if o.None? {
      Assoc(rest, [a], Rest(fs, args[i + 1..]));
    } else if WantsNext(o.value) && i + 1 < |args| {
      Assoc(known, [a], [args[i + 1]]);
      Assoc(known, [a] + [args[i + 1]], Known(fs, args[i + 2..]));
    } else {
      Assoc(known, [a], Known(fs, args[i + 1..]));
    }
  }

  // ---- flag.Parse ----

  datatype Val = BoolVal(b: bool) | StrVal(s: string)

  type Settings = map<string, Val>

  /** Parsing either yields values and leftovers or exits: with 0 for a help request, 2 for an error. */
  datatype Outcome = Parsed(values: Settings, args: seq<string>) | Exit(code: nat)

  /** Setting one flag; None is an invalid boolean. */
  function Apply(o: Occurrence, st: Settings): Option<Settings>
    requires !WantsNext(o)
  {
    if !o.def.isBool then Some(st[o.def.slot := StrVal(o.value.value)])
    else if o.value.None? then Some(st[o.def.slot := BoolVal(true)])
    else
      match ParseBool(o.value.value)
      case Some(b) => Some(st[o.def.slot := BoolVal(b)])
      case None => None
  }

  predicate LooksLikeFlag(s: string) {
    |s| >= 2 && s[0] == '-'
  }

  /** FlagSet.Parse with ExitOnError: one turn of parseOne per call. */
  function Parse(fs: FlagSet, args: seq<string>, st: Settings): Outcome
    decreases |args|
  {
    if args == [] || !LooksLikeFlag(args[0]) then Parsed(st, args)
    else
      var s := args[0];
      if s == "--" then Parsed(st, args[1..])
      else
        var body := if s[1] == '-' then s[2..] else s[1..];
        if body == "" || body[0] == '-' || body[0] == '=' then Exit(2)
        else
          var name := NamePart(body);
          if name !in fs then Exit(if name == "help" || name == "h" then 0 else 2)
          else
            var o := Occurrence(fs[name], ValuePart(body));
            if WantsNext(o) then
              if |args| == 1 then Exit(2)
              else Parse(fs, args[2..], Apply(o.(value := Some(args[1])), st).value)
            else
              match Apply(o, st)
              case None => Exit(2)
              case Some(st') => Parse(fs, args[1..], st')
  }

  // ---- the meaning of a command line, wherever its flags stand ----

  /** The occurrence that a block holds, with the value that follows it. */
  function BlockFlag(fs: FlagSet, block: seq<string>): (o: Occurrence)
    requires ShapeOf(fs, block) == Block(|block|)
    ensures !WantsNext(o)
  {
    var o := KnownFlag(fs, block[0]).value;
    if WantsNext(o) then o.(value := Some(block[1])) else o
  }

  /** A complete flag stays complete, and is cut off at the same place, in front of anything. */
  lemma BlockAhead(fs: FlagSet, args: seq<string>, more: seq<string>)
    requires ShapeOf(fs, args).Block?
    ensures var n := ShapeOf(fs, args).n;
            && ShapeOf(fs, args[..n]) == Block(|args[..n]|) && |args[..n]| == n
            && ShapeOf(fs, args[..n] + more) == Block(n)
            && (args[..n] + more)[..n] == args[..n] && (args[..n] + more)[n..] == more
            && BlockFlag(fs, (args[..n] + more)[..n]) == BlockFlag(fs, args[..n])
  {
    hide KnownFlag;
    var n := ShapeOf(fs, args).n;
    assert (args[..n] + more)[0] == args[0] && args[..n][0] == args[0];
    assert (args[..n] + more)[..n] == args[..n];
  }

  /** The flags of a command line applied from left to right where they stand, before a
      terminating "--"; None when a boolean is invalid. */
  function Fold(fs: FlagSet, args: seq<string>, st: Settings): Option<Settings>
    decreases |args|
  {
    match ShapeOf(fs, args)
    case Plain => Fold(fs, args[1..], st)
    case Block(n) =>
      assert ShapeOf(fs, args[..n]) == Block(|args[..n]|) by { BlockAhead(fs, args, []); }
      (match Apply(BlockFlag(fs, args[..n]), st)
       case None => None
       case Some(st') => Fold(fs, args[n..], st'))
    case _ => Some(st)
  }

  /** The last argument is a flag that still wants a value. */
  predicate Dangling(fs: FlagSet, args: seq<string>)
    decreases |args|
  {
    match ShapeOf(fs, args)
    case Plain => Dangling(fs, args[1..])
    case Block(n) => Dangling(fs, args[n..])
    case Dangler => true
    case _ => false
  }

  /** Both readers see the same flag in a known argument. */
  lemma KnownAgrees(fs: FlagSet, a: string)
    requires WellFormed(fs) && KnownFlag(fs, a).Some?
    ensures LooksLikeFlag(a)
    ensures a == "--" || (
              var body := if a[1] == '-' then a[2..] else a[1..];
              && body != "" && body[0] != '-' && body[0] != '='
              && NamePart(body) in fs
              && KnownFlag(fs, a) == Some(Occurrence(fs[NamePart(body)], ValuePart(body))))
  {
    var s := AfterDashes(a).value;
    var name := NamePart(s);
    assert name in fs && name != "";
    assert s[0] == name[0];
    assert name[0] in name;
  }

  /** An argument that looks like a flag but is not known makes the parser exit. */
  lemma UnknownExits(fs: FlagSet, args: seq<string>, st: Settings)
    requires args != [] && LooksLikeFlag(args[0]) && args[0] != "--" && KnownFlag(fs, args[0]).None?
    ensures Parse(fs, args, st).Exit?
  {
  }

  /** The parser takes one complete flag off the front. */
  lemma ParseBlock(fs: FlagSet, args: seq<string>, st: Settings)
    requires WellFormed(fs) && ShapeOf(fs, args).Block?
    ensures ShapeOf(fs, args[..ShapeOf(fs, args).n]) == Block(|args[..ShapeOf(fs, args).n]|)
    ensures var n := ShapeOf(fs, args).n;
            Parse(fs, args, st) ==
            match Apply(BlockFlag(fs, args[..n]), st)
            case None => Exit(2)
            case Some(st') => Parse(fs, args[n..], st')
  {
    hide KnownFlag, NamePart, ValuePart, WellFormed;
    KnownAgrees(fs, args[0]);
    BlockAhead(fs, args, []);
  }

  /** A value flag at the front without a value of its own takes the next argument, or fails. */
  lemma ParseDangler(fs: FlagSet, args: seq<string>, more: seq<string>, st: Settings)
    requires WellFormed(fs) && ShapeOf(fs, args).Dangler?
    ensures more == [] ==> Parse(fs, args + more, st) == Exit(2)
    ensures more != [] ==> ShapeOf(fs, args + more) == Block(2) && (args + more)[2..] == more[1..]
  {
    hide KnownFlag, NamePart, ValuePart, WellFormed;
    KnownAgrees(fs, args[0]);
    assert (args + more)[0] == args[0];
  }

  /** The known part in front of anything parses as the fold, and then the parser goes on. */
  lemma {:induction false} ParseKnown(fs: FlagSet, args: seq<string>, more: seq<string>, st: Settings)
    requires WellFormed(fs) && !Dangling(fs, args)
    ensures Parse(fs, Known(fs, args) + more, st) ==
            match Fold(fs, args, st)
            case None => Exit(2)
            case Some(st') => Parse(fs, more, st')
    decreases |args|
  {
    hide ShapeOf, Parse, Apply, BlockFlag, WellFormed;
    match ShapeOf(fs, args) {
      case Plain => ParseKnown(fs, args[1..], more, st);
      case Block(n) =>
        var x := Known(fs, args[n..]) + more;
        assert Known(fs, args) + more == args[..n] + x;
        BlockAhead(fs, args, x);
        ParseBlock(fs, args[..n] + x, st);
        var r := Apply(BlockFlag(fs, args[..n]), st);
        if r.Some? {
          ParseKnown(fs, args[n..], more, r.value);
        }
      case Empty => assert [] + more == more;
      case Stops => assert [] + more == more;
      case Dangler =>
    }
  }

  lemma {:induction false} ParseShrinks(fs: FlagSet, args: seq<string>, st: Settings)
    ensures Parse(fs, args, st).Parsed? ==> |Parse(fs, args, st).args| <= |args|
    decreases |args|
  {
    hide NamePart, ValuePart;
    if args != [] && LooksLikeFlag(args[0]) && args[0] != "--" {
      var body := if args[0][1] == '-' then args[0][2..] else args[0][1..];
      if !(body == "" || body[0] == '-' || body[0] == '=') && NamePart(body) in fs {
        var o := Occurrence(fs[NamePart(body)], ValuePart(body));
        if WantsNext(o) {
          if |args| > 1 {
            ParseShrinks(fs, args[2..], Apply(o.(value := Some(args[1])), st).value);
          }
        } else if Apply(o, st).Some? {
          ParseShrinks(fs, args[1..], Apply(o, st).value);
        }
      }
    }
  }

  /** A dangling value flag swallows the first leftover. */
  lemma {:induction false} DanglingSwallows(fs: FlagSet, args: seq<string>, more: seq<string>, st: Settings)
    requires WellFormed(fs) && Dangling(fs, args)
    ensures var r := Parse(fs, Known(fs, args) + more, st);
            r.Parsed? ==> |r.args| < |more|
    decreases |args|
  {
    hide ShapeOf, Parse, Apply, BlockFlag, WellFormed;
    match ShapeOf(fs, args) {
      case Plain => DanglingSwallows(fs, args[1..], more, st);
      case Block(n) =>
        var x := Known(fs, args[n..]) + more;
        assert Known(fs, args) + more == args[..n] + x;
        BlockAhead(fs, args, x);
        ParseBlock(fs, args[..n] + x, st);
        var r := Apply(BlockFlag(fs, args[..n]), st);
        if r.Some? {
          DanglingSwallows(fs, args[n..], more, r.value);
        }
      case Empty =>
      case Stops =>
      case Dangler =>
        ParseDangler(fs, args, more, st);
        if more != [] {
          ParseBlock(fs, args + more, st);
          var r := Apply(BlockFlag(fs, (args + more)[..2]), st);
          if r.Some? {
            ParseShrinks(fs, more[1..], r.value);
          }
        }
    }
  }

  /** The leftovers start with an unknown argument or the terminator. */
  lemma {:induction false} RestStartsUnknown(fs: FlagSet, args: seq<string>)
    ensures Rest(fs, args) != [] ==> Rest(fs, args)[0] == "--" || KnownFlag(fs, Rest(fs, args)[0]).None?
    decreases |args|
  {
    hide KnownFlag;
    match ShapeOf(fs, args) {
      case Block(n) => RestStartsUnknown(fs, args[n..]);
      case _ =>
    }
  }

  /** Parsing the reordered command line gives every flag the fold of its occurrences and returns
      the leftovers as they stood, exactly when no value flag dangles at the end, every boolean is
      valid, and the leftovers do not start with something that looks like a flag. */
  lemma PositionIndependentIff(fs: FlagSet, args: seq<string>, st: Settings)
    requires WellFormed(fs)
    ensures (Fold(fs, args, st).Some? &&
             Parse(fs, Reorder(fs, args), st) == Parsed(Fold(fs, args, st).value, Rest(fs, args)))
            <==>
            (&& !Dangling(fs, args)
             && Fold(fs, args, st).Some?
             && (Rest(fs, args) == [] || !LooksLikeFlag(Rest(fs, args)[0])))
  {
    hide KnownFlag, ShapeOf, Fold, Scan;
    var rest := Rest(fs, args);
    if Dangling(fs, args) {
      DanglingSwallows(fs, args, rest, st);
    } else {
      ParseKnown(fs, args, rest, st);
      RestStartsUnknown(fs, args);
      if Fold(fs, args, st).Some? && rest != [] && LooksLikeFlag(rest[0]) && rest[0] != "--" {
        UnknownExits(fs, rest, Fold(fs, args, st).value);
      }
    }
  }

  /** A dangling value flag behind one argument takes that argument for its value. */
  lemma DanglingTakesArgument(fs: FlagSet, dir: string, a: string, o: Occurrence)
    requires WellFormed(fs) && KnownFlag(fs, a) == Some(o) && WantsNext(o) && a != "--"
    requires !LooksLikeFlag(dir)
    ensures Dangling(fs, [dir, a])
    ensures Parse(fs, Reorder(fs, [dir, a]), map[]) == Parsed(map[o.def.slot := StrVal(dir)], [])
  {
    PlainArgument(fs, dir);
    hide KnownFlag, LooksLikeFlag;
    DanglerReordered(fs, dir, a, o);
    hide Scan, Dangling;
    var r := [a, dir];
    assert ShapeOf(fs, r) == Block(2) && r[..2] == r && r[2..] == [];
    ParseBlock(fs, r, map[]);
    assert Apply(BlockFlag(fs, r), map[]) == Some(map[o.def.slot := StrVal(dir)]);
    assert Parse(fs, [], map[o.def.slot := StrVal(dir)]) == Parsed(map[o.def.slot := StrVal(dir)], []);
  }

  lemma DanglerReordered(fs: FlagSet, dir: string, a: string, o: Occurrence)
    requires KnownFlag(fs, a) == Some(o) && WantsNext(o) && a != "--"
    requires KnownFlag(fs, dir) == None && dir != "--"
    ensures Dangling(fs, [dir, a]) && Reorder(fs, [dir, a]) == [a, dir]
  {
    hide KnownFlag;
    assert [dir, a][1..] == [a];
    assert Known(fs, [a]) == [a] && Rest(fs, [a]) == [];
  }

  lemma PlainArgument(fs: FlagSet, dir: string)
    requires !LooksLikeFlag(dir)
    ensures KnownFlag(fs, dir) == None && dir != "--"
  {
  }

  // ---- the reorder itself, for all inputs ----

  /** a and b are picked out of args without changing the order inside either. */
  predicate Interleaves(args: seq<string>, a: seq<string>, b: seq<string>)
    decreases |args|
  {
    if args == [] then a == [] && b == []
    else
      || (a != [] && a[0] == args[0] && Interleaves(args[1..], a[1..], b))
      || (b != [] && b[0] == args[0] && Interleaves(args[1..], a, b[1..]))
  }

  lemma {:induction false} InterleavesRight(b: seq<string>)
    ensures Interleaves(b, [], b)
    decreases |b|
  {
    if b != [] {
      InterleavesRight(b[1..]);
    }
  }

  lemma {:induction false} InterleavesLeft(block: seq<string>, args: seq<string>, a: seq<string>, b: seq<string>)
    requires Interleaves(args, a, b)
    ensures Interleaves(block + args, block + a, b)
    decreases |block|
  {
    if block == [] {
      assert block + args == args && block + a == a;
    } else {
      assert (block + args)[1..] == block[1..] + args && (block + a)[1..] == block[1..] + a;
      InterleavesLeft(block[1..], args, a, b);
    }
  }

  lemma {:induction false} InterleavesMultiset(args: seq<string>, a: seq<string>, b: seq<string>)
    requires Interleaves(args, a, b)
    ensures multiset(args) == multiset(a) + multiset(b)
    decreases |args|
  {
    if args != [] {
      assert args == [args[0]] + args[1..];
      if a != [] && a[0] == args[0] && Interleaves(args[1..], a[1..], b) {
        assert a == [a[0]] + a[1..];
        InterleavesMultiset(args[1..], a[1..], b);
      } else {
        assert b == [b[0]] + b[1..];
        InterleavesMultiset(args[1..], a, b[1..]);
      }
    }
  }

  lemma {:induction false} ScanInterleaves(fs: FlagSet, args: seq<string>)
    ensures Interleaves(args, Known(fs, args), Rest(fs, args))
    decreases |args|
  {
    hide ShapeOf;
    match ShapeOf(fs, args) {
      case Empty =>
      case Stops => InterleavesRight(args);
      case Plain =>
        ScanInterleaves(fs, args[1..]);
        assert Rest(fs, args)[1..] == Rest(fs, args[1..]);
      case Block(n) =>
        ScanInterleaves(fs, args[n..]);
        InterleavesLeft(args[..n], args[n..], Known(fs, args[n..]), Rest(fs, args[n..]));
        assert args[..n] + args[n..] == args;
      case Dangler =>
        InterleavesLeft(args, [], [], []);
        assert args + [] == args;
    }
  }

  /** Known flags with their values and all the rest each keep their order, and nothing is lost
      or doubled. */
  lemma ReorderIsStablePermutation(fs: FlagSet, args: seq<string>)
    ensures Interleaves(args, Known(fs, args), Rest(fs, args))
    ensures multiset(Reorder(fs, args)) == multiset(args)
  {
    hide Scan;
    ScanInterleaves(fs, args);
    InterleavesMultiset(args, Known(fs, args), Rest(fs, args));
  }

  /** The position of the terminating "--", or the length. */
  function Stop(fs: FlagSet, args: seq<string>): (n: nat)
    ensures n <= |args| && (n < |args| ==> args[n] == "--")
    decreases |args|
  {
    match ShapeOf(fs, args)
    case Plain => 1 + Stop(fs, args[1..])
    case Block(n) => n + Stop(fs, args[n..])
    case Dangler => 1
    case _ => 0
  }

  lemma ShapeOfPrefix(fs: FlagSet, args: seq<string>, n: nat)
    requires n <= |args| && (ShapeOf(fs, args).Block? ==> ShapeOf(fs, args).n <= n)
    requires args != [] ==> n > 0
    requires !ShapeOf(fs, args).Dangler?
    ensures ShapeOf(fs, args[..n]) == ShapeOf(fs, args)
    ensures n > 0 ==> args[..n][0] == args[0] && args[..n][1..] == args[1..][..n - 1] && args[n..] == args[1..][n - 1..]
    ensures ShapeOf(fs, args).Block? ==>
              var b := ShapeOf(fs, args).n;
              args[..n][..b] == args[..b] && args[..n][b..] == args[b..][..n - b] && args[n..] == args[b..][n - b..]
  {
    hide KnownFlag;
  }

  lemma TailAfter(fs: FlagSet, args: seq<string>, b: nat, n: nat)
    requires ShapeOf(fs, args) == Block(b) || (ShapeOf(fs, args).Plain? && b == 1)
    requires b <= n <= |args|
    requires Known(fs, args[b..]) == Known(fs, args[b..][..n - b])
    requires Rest(fs, args[b..]) == Rest(fs, args[b..][..n - b]) + args[b..][n - b..]
    ensures Known(fs, args) == Known(fs, args[..n]) && Rest(fs, args) == Rest(fs, args[..n]) + args[n..]
  {
    hide ShapeOf;
    ShapeOfPrefix(fs, args, n);
    assert [args[0]] + (Rest(fs, args[b..][..n - b]) + args[n..]) ==
        ([args[0]] + Rest(fs, args[b..][..n - b])) + args[n..];
  }

  /** What is before a terminator is reordered as if it stood alone; the terminator and all that
      follows it stay where they are, at the end. */
  lemma {:induction false} TailUntouched(fs: FlagSet, args: seq<string>)
    requires Stop(fs, args) < |args|
    ensures var n := Stop(fs, args);
            Known(fs, args) == Known(fs, args[..n]) && Rest(fs, args) == Rest(fs, args[..n]) + args[n..]
    decreases |args|
  {
    hide ShapeOf;
    var n := Stop(fs, args);
    match ShapeOf(fs, args) {
      case Stops =>
        assert args[..0] == [] && ShapeOf(fs, []) == Empty by { EmptyShape(fs); }
      case Plain =>
        TailUntouched(fs, args[1..]);
        TailAfter(fs, args, 1, n);
      case Block(b) =>
        TailUntouched(fs, args[b..]);
        TailAfter(fs, args, b, n);
      case _ =>
    }
  }

  lemma EmptyShape(fs: FlagSet)
    ensures ShapeOf(fs, []) == Empty
  {
  }

  /** Arguments among which the scan finds nothing to move and nothing to stop at. */
  predicate Inert(fs: FlagSet, args: seq<string>) {
    forall i :: 0 <= i < |args| ==> args[i] != "--" && KnownFlag(fs, args[i]).None?
  }

  lemma {:induction false} InertStays(fs: FlagSet, args: seq<string>)
    requires Inert(fs, args)
    ensures Scan(fs, args) == Scanned([], args)
    ensures Closed(fs, args)
    decreases |args|
  {
    hide KnownFlag;
    if args != [] {
      InertStays(fs, args[1..]);
    }
  }

  /** Scanning the leftovers again moves nothing; with a dangling flag they are even inert. */
  lemma {:induction false} RestSettled(fs: FlagSet, args: seq<string>)
    ensures Scan(fs, Rest(fs, args)) == Scanned([], Rest(fs, args))
    ensures Dangling(fs, args) ==> Inert(fs, Rest(fs, args))
    decreases |args|
  {
    hide KnownFlag;
    match ShapeOf(fs, args) {
      case Plain =>
        RestSettled(fs, args[1..]);
        assert ([args[0]] + Rest(fs, args[1..]))[1..] == Rest(fs, args[1..]);
      case Block(n) => RestSettled(fs, args[n..]);
      case _ =>
    }
  }

  lemma NothingAhead(fs: FlagSet, more: seq<string>)
    ensures [] + more == more
    ensures Scanned([] + Known(fs, more), Rest(fs, more)) == Scan(fs, more)
  {
  }

  /** Scanning known flags in front of anything finds them again. */
  lemma {:induction false} KnownScansFirst(fs: FlagSet, args: seq<string>, more: seq<string>)
    requires !Dangling(fs, args)
    ensures Scan(fs, Known(fs, args) + more) == Scanned(Known(fs, args) + Known(fs, more), Rest(fs, more))
    decreases |args|
  {
    hide ShapeOf;
    match ShapeOf(fs, args) {
      case Plain => KnownScansFirst(fs, args[1..], more);
      case Block(n) =>
        var x := Known(fs, args[n..]) + more;
        assert Known(fs, args) + more == args[..n] + x;
        BlockAhead(fs, args, x);
        KnownScansFirst(fs, args[n..], more);
      case Empty => NothingAhead(fs, more);
      case Stops => NothingAhead(fs, more);
      case Dangler =>
    }
  }

  lemma {:induction false} DanglingScansFirst(fs: FlagSet, args: seq<string>, more: seq<string>)
    requires Dangling(fs, args) && Inert(fs, more)
    ensures Reorder(fs, Known(fs, args) + more) == Known(fs, args) + more
    decreases |args|
  {
    hide ShapeOf, Inert;
    match ShapeOf(fs, args) {
      case Plain => DanglingScansFirst(fs, args[1..], more);
      case Block(n) =>
        var x := Known(fs, args[n..]) + more;
        assert Known(fs, args) + more == args[..n] + x;
        BlockAhead(fs, args, x);
        DanglingScansFirst(fs, args[n..], more);
        assert args[..n] + Known(fs, x) + Rest(fs, x) == args[..n] + (Known(fs, x) + Rest(fs, x));
      case Empty =>
      case Stops =>
      case Dangler => DanglerEats(fs, args, more);
    }
  }

  lemma DanglerEats(fs: FlagSet, args: seq<string>, more: seq<string>)
    requires ShapeOf(fs, args).Dangler? && Inert(fs, more)
    ensures Reorder(fs, args + more) == args + more
  {
    hide KnownFlag;
    if more == [] {
      assert args + more == args;
    } else {
      var r := args + more;
      assert r[0] == args[0] && r[2..] == more[1..];
      InertStays(fs, more[1..]);
      assert r[..2] + [] + more[1..] == r;
    }
  }

  /** Reordering twice is reordering once, for every command line. */
  lemma ReorderIdempotent(fs: FlagSet, args: seq<string>)
    ensures Reorder(fs, Reorder(fs, args)) == Reorder(fs, args)
  {
    hide KnownFlag, Scan, Inert;
    RestSettled(fs, args);
    if Dangling(fs, args) {
      DanglingScansFirst(fs, args, Rest(fs, args));
    } else {
      KnownScansFirst(fs, args, Rest(fs, args));
      assert Known(fs, args) + [] == Known(fs, args);
    }
  }

  /** A command line that neither stops nor dangles: what follows it is scanned on its own. */
  predicate Closed(fs: FlagSet, args: seq<string>) {
    Stop(fs, args) == |args| && !Dangling(fs, args)
  }

  lemma ShapeAhead(fs: FlagSet, a: seq<string>, b: seq<string>)
    requires ShapeOf(fs, a).Plain? || ShapeOf(fs, a).Block?
    ensures ShapeOf(fs, a + b) == ShapeOf(fs, a)
    ensures (a + b)[0] == a[0] && (a + b)[1..] == a[1..] + b
    ensures ShapeOf(fs, a).Block? ==>
              var n := ShapeOf(fs, a).n; (a + b)[..n] == a[..n] && (a + b)[n..] == a[n..] + b
  {
    hide KnownFlag;
  }

  lemma {:induction false} ScanConcat(fs: FlagSet, a: seq<string>, b: seq<string>)
    requires Closed(fs, a)
    ensures Scan(fs, a + b) == Scanned(Known(fs, a) + Known(fs, b), Rest(fs, a) + Rest(fs, b))
    decreases |a|
  {
    hide ShapeOf;
    match ShapeOf(fs, a) {
      case Plain =>
        ShapeAhead(fs, a, b);
        ScanConcat(fs, a[1..], b);
      case Block(n) =>
        ShapeAhead(fs, a, b);
        ScanConcat(fs, a[n..], b);
      case Empty =>
        assert a + b == b;
        NothingAhead(fs, b);
      case Stops =>
      case Dangler =>
    }
  }

  /** A known flag, with its value if it takes one, may stand on either side of other arguments:
      the reordered command line, and so everything parsed from it, is the same. */
  lemma FlagMayMove(fs: FlagSet, before: seq<string>, flag: seq<string>, others: seq<string>, after: seq<string>)
    requires Closed(fs, before) && Closed(fs, flag) && Rest(fs, flag) == []
    requires Inert(fs, others)
    ensures Reorder(fs, before + (flag + (others + after))) == Reorder(fs, before + (others + (flag + after)))
  {
    hide KnownFlag, Scan, Stop, Dangling, Inert, ShapeOf;
    InertStays(fs, others);
    ScanConcat(fs, before, flag + (others + after));
    ScanConcat(fs, flag, others + after);
    ScanConcat(fs, others, after);
    ScanConcat(fs, before, others + (flag + after));
    ScanConcat(fs, others, flag + after);
    ScanConcat(fs, flag, after);
    assert Known(fs, flag) + ([] + Known(fs, after)) == [] + (Known(fs, flag) + Known(fs, after));
    assert [] + (others + Rest(fs, after)) == others + ([] + Rest(fs, after));
  }

  // ---- parseCommonFlags ----

  /** What every session command accepts; -y sets the same variable as --yes. */
  const COMMON: FlagSet := map[
    "network-jail" := FlagDef(true, "network-jail"),
    "no-network-jail" := FlagDef(true, "no-network-jail"),
    "allow" := FlagDef(false, "allow"),
    "allow-file" := FlagDef(false, "allow-file"),
    "yes" := FlagDef(true, "yes"),
    "y" := FlagDef(true, "yes")]

  datatype Options = Options(networkJail: bool, noNetworkJail: bool, allowHosts: seq<string>, allowFile: string,
                             autoApprove: bool)

  function BoolOf(st: Settings, slot: string): bool {
    slot in st && st[slot].BoolVal? && st[slot].b
  }

  function StringOf(st: Settings, slot: string): string {
    if slot in st && st[slot].StrVal? then st[slot].s else ""
  }

  function CommasToBlanks(s: string): string {
    seq(|s|, i requires 0 <= i < |s| => if s[i] == ',' then ' ' else s[i])
  }

  function OptionsOf(st: Settings): Options {
    Options(BoolOf(st, "network-jail"), BoolOf(st, "no-network-jail"), Fields(CommasToBlanks(StringOf(st, "allow"))),
            StringOf(st, "allow-file"), BoolOf(st, "yes"))
  }

  /** parseCommonFlags; None when the flag package exits. */
  method ParseCommonFlags(args: seq<string>) returns (r: Option<(Options, seq<string>)>)
    ensures r == match Parse(COMMON, Reorder(COMMON, args), map[])
                 case Parsed(st, left) => Some((OptionsOf(st), left))
                 case Exit(_) => None
    ensures !Dangling(COMMON, args) && Fold(COMMON, args, map[]).Some?
            && (Rest(COMMON, args) == [] || !LooksLikeFlag(Rest(COMMON, args)[0])) ==>
              r == Some((OptionsOf(Fold(COMMON, args, map[]).value), Rest(COMMON, args)))
  {
    hide Parse, Scan, Fold, Fields, KnownFlag, ShapeOf, Dangling, Reorder;
    var reordered := ReorderKnownFlags(COMMON, args);
    var outcome := Parse(COMMON, reordered, map[]);
    PositionIndependentIff(COMMON, args, map[]);
    if outcome.Exit? {
      return None;
    }
    var st := outcome.values;
    var hosts: seq<string> := [];
    if StringOf(st, "allow") != "" {
      var words := Fields(CommasToBlanks(StringOf(st, "allow")));
      for i := 0 to |words|
        invariant hosts == words[..i]
      {
        hosts := hosts + [words[i]];
      }
      assert words[..|words|] == words;
    } else {
      NoHosts();
    }
    r := Some((Options(BoolOf(st, "network-jail"), BoolOf(st, "no-network-jail"), hosts,
                       StringOf(st, "allow-file"), BoolOf(st, "yes")), outcome.args));
  }

  /** The failing family on the command's own flags: a final --allow, its value forgotten, takes
      any project directory in front of it, and no directory is left. */
  lemma DanglingTakesDirectory(dir: string)
    requires !LooksLikeFlag(dir)
    ensures Dangling(COMMON, [dir, "--allow"])
    ensures Parse(COMMON, Reorder(COMMON, [dir, "--allow"]), map[]) == Parsed(map["allow" := StrVal(dir)], [])
  {
    AllowIsKnown();
    hide KnownFlag, WellFormed, LooksLikeFlag, Parse, Reorder, Dangling;
    DanglingTakesArgument(COMMON, dir, "--allow", Occurrence(FlagDef(false, "allow"), None));
  }

  lemma AllowIsKnown()
    ensures KnownFlag(COMMON, "--allow") == Some(Occurrence(FlagDef(false, "allow"), None))
    ensures WellFormed(COMMON)
  {
    CommonNames();
    assert "--allow"[2..] == "allow";
    NameAlone("allow");
    assert "allow" in COMMON && COMMON["allow"] == FlagDef(false, "allow");
    hide IndexOf;
  }

  lemma NameAlone(s: string)
    requires '=' !in s
    ensures NamePart(s) == s && ValuePart(s) == None
  {
  }

  lemma CommonNames()
    ensures WellFormed(COMMON) && '=' !in "allow"
  {
    hide IndexOf;
    assert '=' !in "network-jail" && '=' !in "no-network-jail" && '=' !in "allow";
    assert '=' !in "allow-file" && '=' !in "yes" && '=' !in "y";
  }

  lemma NoHosts()
    ensures Fields(CommasToBlanks("")) == []
  {
  }
}
