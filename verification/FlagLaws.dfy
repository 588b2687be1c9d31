/** What a command line means, said on the spellings that users type. */
module FlagLaws {
  import opened Wrappers
  import opened Text
  import opened F = Flags

  /** A flag as typed: one or two dashes, its name, and possibly a value behind an equals sign. */
  function Typed(dashes: string, name: string, value: Option<string>): string {
    dashes + name + if value.Some? then "=" + value.value else ""
  }

  predicate IsFlag(fs: FlagSet, dashes: string, name: string) {
    (dashes == "-" || dashes == "--") && WellFormed(fs) && name in fs
  }

  /** Both spellings of the dashes name the same flag, and the value starts behind the first '='. */
  lemma TypedIsKnown(fs: FlagSet, dashes: string, name: string, value: Option<string>)
    requires IsFlag(fs, dashes, name)
    ensures var a := Typed(dashes, name, value);
            && KnownFlag(fs, a) == Some(Occurrence(fs[name], value))
            && LooksLikeFlag(a) && a != "--"
  {
    var a := Typed(dashes, name, value);
    var rest := if value.Some? then "=" + value.value else "";
    assert a == dashes + (name + rest);
    assert (name + rest)[0] == name[0];
    assert a[|dashes|] == name[0];
    assert AfterDashes(a) == Some(name + rest) by {
      assert a[|dashes|..] == name + rest;
    }
    NameAndValue(name, value);
    hide IndexOf;
  }

  lemma NameAndValue(name: string, value: Option<string>)
    requires '=' !in name
    ensures var s := name + if value.Some? then "=" + value.value else "";
            NamePart(s) == name && ValuePart(s) == value
  {
    if value.Some? {
      IndexOfCons(name, '=', value.value);
      SliceCons(name, '=', value.value);
      assert name + ("=" + value.value) == name + ['='] + value.value;
    } else {
      assert name + "" == name;
    }
  }

  // ---- what is parsed ----

  lemma ParseTyped(fs: FlagSet, dashes: string, name: string, value: Option<string>, rest: seq<string>, st: F.Settings)
    requires IsFlag(fs, dashes, name) && !WantsNext(Occurrence(fs[name], value))
    ensures Parse(fs, [Typed(dashes, name, value)] + rest, st) ==
            match Apply(Occurrence(fs[name], value), st)
            case None => Exit(2)
            case Some(st') => Parse(fs, rest, st')
  {
    hide KnownFlag, LooksLikeFlag, Parse, Apply, IndexOf, WellFormed;
    var a := Typed(dashes, name, value);
    var args := [a] + rest;
    TypedIsKnown(fs, dashes, name, value);
    assert args[0] == a && args[..1] == [a] && args[1..] == rest;
    assert ShapeOf(fs, args) == Block(1);
    ParseBlock(fs, args, st);
  }

  /** A switch without a value turns its variable on; with one of six spellings of true or of false it
      turns it on or off; any other value ends the program with status 2. */
  lemma SwitchParsed(fs: FlagSet, dashes: string, name: string, v: string, rest: seq<string>, st: F.Settings)
    requires IsFlag(fs, dashes, name) && fs[name].isBool
    ensures Parse(fs, [Typed(dashes, name, None)] + rest, st) == Parse(fs, rest, st[fs[name].slot := BoolVal(true)])
    ensures Parse(fs, [Typed(dashes, name, Some(v))] + rest, st) ==
            if v in {"1", "t", "T", "true", "TRUE", "True"} then Parse(fs, rest, st[fs[name].slot := BoolVal(true)])
            else if v in {"0", "f", "F", "false", "FALSE", "False"}
                 then Parse(fs, rest, st[fs[name].slot := BoolVal(false)])
            else Exit(2)
  {
    hide KnownFlag, LooksLikeFlag, Parse, IndexOf, WellFormed;
    ParseTyped(fs, dashes, name, None, rest, st);
    ParseTyped(fs, dashes, name, Some(v), rest, st);
  }

  /** A flag with a value takes the text behind its '=', or else the whole next argument, whatever that
      is; with neither the program ends with status 2. */
  lemma ValueParsed(fs: FlagSet, dashes: string, name: string, v: string, rest: seq<string>, st: F.Settings)
    requires IsFlag(fs, dashes, name) && !fs[name].isBool
    ensures Parse(fs, [Typed(dashes, name, Some(v))] + rest, st) == Parse(fs, rest, st[fs[name].slot := StrVal(v)])
    ensures Parse(fs, [Typed(dashes, name, None), v] + rest, st) == Parse(fs, rest, st[fs[name].slot := StrVal(v)])
    ensures Parse(fs, [Typed(dashes, name, None)], st) == Exit(2)
  {
    hide KnownFlag, LooksLikeFlag, Parse, IndexOf, WellFormed;
    ParseTyped(fs, dashes, name, Some(v), rest, st);
    TypedIsKnown(fs, dashes, name, None);
    var a := Typed(dashes, name, None);
    var args := [a, v] + rest;
    assert args[0] == a && args[..2] == [a, v] && args[2..] == rest;
    assert ShapeOf(fs, args) == Block(2);
    ParseBlock(fs, args, st);
    assert ShapeOf(fs, [a]).Dangler?;
    ParseDangler(fs, [a], [], st);
    assert [a] + [] == [a];
  }

  /** Parsing stops at the first argument that is no flag, which stays, and behind a "--", which goes; an
      unknown flag ends the program. */
  lemma ParseStops(fs: FlagSet, a: string, rest: seq<string>, st: F.Settings)
    ensures Parse(fs, [], st) == Parsed(st, [])
    ensures a == "" || a == "-" || a[0] != '-' ==> Parse(fs, [a] + rest, st) == Parsed(st, [a] + rest)
    ensures Parse(fs, ["--"] + rest, st) == Parsed(st, rest)
    ensures |a| >= 2 && a[0] == '-' && a != "--" && KnownFlag(fs, a) == None ==> Parse(fs, [a] + rest, st).Exit?
  {
    assert ([a] + rest)[1..] == rest && (["--"] + rest)[1..] == rest;
    hide KnownFlag;
    if |a| >= 2 && a[0] == '-' && a != "--" && KnownFlag(fs, a) == None {
      UnknownExits(fs, [a] + rest, st);
    }
  }

  /** A name that is no flag ends the program, with status 0 if it asks for help and 2 otherwise; so does,
      with status 2, an argument without a name between its dashes and its '='. */
  lemma UnknownName(fs: FlagSet, dashes: string, name: string, value: Option<string>, rest: seq<string>, st: F.Settings)
    requires (dashes == "-" || dashes == "--") && name != "" && name[0] != '-' && '=' !in name && name !in fs
    ensures Parse(fs, [Typed(dashes, name, value)] + rest, st) == Exit(if name in {"help", "h"} then 0 else 2)
  {
    var a := Typed(dashes, name, value);
    var tail := if value.Some? then "=" + value.value else "";
    assert a == dashes + (name + tail) && a[|dashes|..] == name + tail;
    assert (name + tail)[0] == name[0] && a[|dashes|] == name[0];
    NameAndValue(name, value);
    ParseUnknown(fs, [a] + rest, st, name + tail);
  }

  lemma ParseUnknown(fs: FlagSet, args: seq<string>, st: F.Settings, body: string)
    requires args != [] && LooksLikeFlag(args[0]) && args[0] != "--"
    requires body == if args[0][1] == '-' then args[0][2..] else args[0][1..]
    requires body != "" && body[0] != '-' && body[0] != '=' && NamePart(body) !in fs
    ensures Parse(fs, args, st) == Exit(if NamePart(body) in {"help", "h"} then 0 else 2)
  {
    hide NamePart;
  }

  lemma NamelessExits(fs: FlagSet, dashes: string, c: char, more: string, rest: seq<string>, st: F.Settings)
    requires (dashes == "-" && c == '=') || (dashes == "--" && (c == '=' || c == '-'))
    ensures Parse(fs, [dashes + [c] + more] + rest, st) == Exit(2)
  {
    hide NamePart;
    var a := dashes + [c] + more;
    assert ([a] + rest)[0] == a;
    assert a[|dashes|..] == [c] + more;
  }

  // ---- what is moved ----

  /** A complete flag, in any of its spellings, is moved as it is typed. */
  lemma FlagIsMoved(fs: FlagSet, dashes: string, name: string, v: string)
    requires IsFlag(fs, dashes, name)
    ensures Scan(fs, [Typed(dashes, name, Some(v))]) == Scanned([Typed(dashes, name, Some(v))], [])
    ensures Closed(fs, [Typed(dashes, name, Some(v))])
    ensures fs[name].isBool ==>
              Scan(fs, [Typed(dashes, name, None)]) == Scanned([Typed(dashes, name, None)], [])
              && Closed(fs, [Typed(dashes, name, None)])
    ensures !fs[name].isBool ==>
              Scan(fs, [Typed(dashes, name, None), v]) == Scanned([Typed(dashes, name, None), v], [])
              && Closed(fs, [Typed(dashes, name, None), v])
  {
    hide KnownFlag, LooksLikeFlag, IndexOf, WellFormed;
    TypedIsKnown(fs, dashes, name, Some(v));
    TypedIsKnown(fs, dashes, name, None);
    OneBlock(fs, [Typed(dashes, name, Some(v))]);
    if fs[name].isBool {
      OneBlock(fs, [Typed(dashes, name, None)]);
    } else {
      OneBlock(fs, [Typed(dashes, name, None), v]);
    }
  }

  lemma OneBlock(fs: FlagSet, block: seq<string>)
    requires ShapeOf(fs, block) == Block(|block|)
    ensures Scan(fs, block) == Scanned(block, []) && Closed(fs, block)
  {
    hide KnownFlag, ShapeOf;
    assert block[|block|..] == [] && block[..|block|] == block && block + [] == block;
    NothingScanned(fs);
  }

  lemma NothingScanned(fs: FlagSet)
    ensures Scan(fs, []) == Scanned([], []) && Closed(fs, [])
  {
  }

  /** Arguments that are no known flags are not moved, and a flag behind them comes to the front. */
  lemma FlagComesFirst(fs: FlagSet, plain: seq<string>, block: seq<string>)
    requires Inert(fs, plain) && Scan(fs, block) == Scanned(block, [])
    ensures Reorder(fs, plain + block) == block + plain
  {
    InertStays(fs, plain);
    ScanConcat(fs, plain, block);
    hide Scan;
    assert [] + block == block && plain + [] == plain;
  }

  // ---- the flags that every session command takes ----

  function WithCommas(words: seq<string>): string {
    if words == [] then ""
    else if |words| == 1 then words[0]
    else words[0] + "," + WithCommas(words[1..])
  }

  lemma CommasConcat(a: string, b: string)
    ensures CommasToBlanks(a + b) == CommasToBlanks(a) + CommasToBlanks(b)
  {
  }

  lemma CommaFree(w: string)
    requires ',' !in w
    ensures CommasToBlanks(w) == w
  {
  }

  lemma {:induction false} CommasJoin(words: seq<string>)
    requires forall w :: w in words ==> ',' !in w
    ensures CommasToBlanks(WithCommas(words)) == JoinWords(words)
    decreases |words|
  {
    hide CommasToBlanks;
    if words == [] {
      CommaFree("");
    } else {
      assert words[0] in words;
      CommaFree(words[0]);
      if |words| > 1 {
        CommasJoin(words[1..]);
        CommasConcat(words[0] + ",", WithCommas(words[1..]));
        CommasConcat(words[0], ",");
        OneComma();
        assert words[0] + "," + WithCommas(words[1..]) == (words[0] + ",") + WithCommas(words[1..]);
      }
    }
  }

  lemma OneComma()
    ensures CommasToBlanks(",") == " "
  {
  }

  /** The hosts of --allow, separated by commas or by blanks, are the words typed. */
  lemma AllowedHosts(words: seq<string>, st: F.Settings)
    requires forall w :: w in words ==> IsWord(w) && ',' !in w
    ensures OptionsOf(st["allow" := StrVal(WithCommas(words))]).allowHosts == words
    ensures OptionsOf(st["allow" := StrVal(JoinWords(words))]).allowHosts == words
  {
    hide Fields, CommasToBlanks, IsWord, JoinWords, WithCommas;
    CommasJoin(words);
    FieldsJoinWords(words);
    BlanksStay(words);
  }

  lemma {:induction false} BlanksStay(words: seq<string>)
    requires forall w :: w in words ==> ',' !in w
    ensures CommasToBlanks(JoinWords(words)) == JoinWords(words)
    decreases |words|
  {
    hide CommasToBlanks;
    if words == [] {
      CommaFree("");
    } else {
      assert words[0] in words;
      CommaFree(words[0]);
      if |words| > 1 {
        BlanksStay(words[1..]);
        CommasConcat(words[0] + " ", JoinWords(words[1..]));
        CommasConcat(words[0], " ");
        CommaFree(" ");
        assert words[0] + " " + JoinWords(words[1..]) == (words[0] + " ") + JoinWords(words[1..]);
      }
    }
  }

  /** Which option each variable of the flags stands for. */
  lemma OptionsExact(file: string)
    ensures OptionsOf(map[]) == Options(false, false, [], "", false)
    ensures OptionsOf(map["network-jail" := BoolVal(true)]) == Options(true, false, [], "", false)
    ensures OptionsOf(map["no-network-jail" := BoolVal(true)]) == Options(false, true, [], "", false)
    ensures OptionsOf(map["allow-file" := StrVal(file)]) == Options(false, false, [], file, false)
    ensures OptionsOf(map["yes" := BoolVal(true)]) == Options(false, false, [], "", true)
  {
    hide Fields, CommasToBlanks;
    NoHosts();
  }

  /** The command's flags typed behind a project directory: each sets its own variable, -y the same one as
      --yes, and the directory is what is left. */
  lemma CommonFlagsMean(dir: string, v: string)
    requires dir == "" || dir[0] != '-'
    ensures Meant([dir, "--network-jail"], map["network-jail" := BoolVal(true)], dir)
    ensures Meant([dir, "--no-network-jail"], map["no-network-jail" := BoolVal(true)], dir)
    ensures Meant([dir, "--yes"], map["yes" := BoolVal(true)], dir)
    ensures Meant([dir, "-y"], map["yes" := BoolVal(true)], dir)
    ensures Meant([dir, "--allow", v], map["allow" := StrVal(v)], dir)
    ensures Meant([dir, "--allow-file", v], map["allow-file" := StrVal(v)], dir)
  {
    Spellings();
    CommonSlots();
    hide Meant, Typed;
    CommonSwitch(dir, "--", "network-jail");
    CommonSwitch(dir, "--", "no-network-jail");
    CommonSwitch(dir, "--", "yes");
    CommonSwitch(dir, "-", "y");
    CommonValue(dir, "allow", v);
    CommonValue(dir, "allow-file", v);
  }

  /** The command line sets exactly these variables and leaves the directory. */
  predicate Meant(args: seq<string>, st: F.Settings, dir: string) {
    Parse(COMMON, Reorder(COMMON, args), map[]) == Parsed(st, [dir])
  }

  lemma CommonSlots()
    ensures forall n :: n in COMMON <==>
              n in {"network-jail", "no-network-jail", "allow", "allow-file", "yes", "y"}
    ensures COMMON["network-jail"] == FlagDef(true, "network-jail")
    ensures COMMON["no-network-jail"] == FlagDef(true, "no-network-jail")
    ensures COMMON["yes"] == FlagDef(true, "yes") && COMMON["y"] == FlagDef(true, "yes")
    ensures COMMON["allow"] == FlagDef(false, "allow") && COMMON["allow-file"] == FlagDef(false, "allow-file")
  {
  }

  lemma Spellings()
    ensures Typed("--", "network-jail", None) == "--network-jail"
    ensures Typed("--", "no-network-jail", None) == "--no-network-jail"
    ensures Typed("--", "yes", None) == "--yes" && Typed("-", "y", None) == "-y"
    ensures Typed("--", "allow", None) == "--allow" && Typed("--", "allow-file", None) == "--allow-file"
  {
    assert "--" + "network-jail" + "" == "--network-jail";
    assert "--" + "no-network-jail" + "" == "--no-network-jail";
    assert "--" + "yes" + "" == "--yes" && "-" + "y" + "" == "-y";
    assert "--" + "allow" + "" == "--allow" && "--" + "allow-file" + "" == "--allow-file";
  }

  lemma CommonSwitch(dir: string, dashes: string, name: string)
    requires (dir == "" || dir[0] != '-') && (dashes == "-" || dashes == "--")
    requires name in COMMON && COMMON[name].isBool
    ensures Meant([dir, Typed(dashes, name, None)], map[COMMON[name].slot := BoolVal(true)], dir)
  {
    CommonNames();
    hide Parse, Reorder, WellFormed, Typed, Scan, Inert, Closed;
    var a := Typed(dashes, name, None);
    FlagIsMoved(COMMON, dashes, name, "");
    DirectoryIsPlain(dir);
    FlagComesFirst(COMMON, [dir], [a]);
    assert [dir] + [a] == [dir, a];
    SwitchParsed(COMMON, dashes, name, "", [dir], map[]);
    ParseStops(COMMON, dir, [], map[COMMON[name].slot := BoolVal(true)]);
    assert [dir] + [] == [dir];
  }

  lemma CommonValue(dir: string, name: string, v: string)
    requires dir == "" || dir[0] != '-'
    requires name in COMMON && !COMMON[name].isBool
    ensures Meant([dir, Typed("--", name, None), v], map[COMMON[name].slot := StrVal(v)], dir)
  {
    CommonNames();
    hide Parse, Reorder, WellFormed, Typed, Scan, Inert, Closed;
    var a := Typed("--", name, None);
    FlagIsMoved(COMMON, "--", name, v);
    DirectoryIsPlain(dir);
    FlagComesFirst(COMMON, [dir], [a, v]);
    assert [dir] + [a, v] == [dir, a, v];
    ValueParsed(COMMON, "--", name, v, [dir], map[]);
    ParseStops(COMMON, dir, [], map[COMMON[name].slot := StrVal(v)]);
    assert [dir] + [] == [dir];
  }

  lemma DirectoryIsPlain(dir: string)
    requires dir == "" || dir[0] != '-'
    ensures Inert(COMMON, [dir])
  {
  }
}
