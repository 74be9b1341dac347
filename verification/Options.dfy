/** The server's command line: src/core/args.h, src/core/args.cpp and `ParseServerArgs` of src/server/main.cpp. */
module Options {
  import opened Wrappers

  datatype Protocol = Tcp | Udp

  datatype Config = Config(port: nat, hostFilesDirectory: string, protocol: Protocol)

  /** Whether a C string starts with a dash. */
  predicate Dashed(arg: string) {
    arg != "" && arg[0] == '-'
  }

  /** `ParseTo<unsigned short>`: `std::stoul`, cut down to 32 bits, if that fits 16. */
  function ParsePort(stoul: string -> Option<nat>, text: string): Option<nat> {
    match stoul(text)
    case None => None
    case Some(n) => if n % 0x1_0000_0000 <= 65535 then Some(n % 0x1_0000_0000) else None
  }

  /** A port is read as it was typed exactly if it fits 16 bits; from 2^32 on, some larger numbers pass as others. */
  lemma PortAsTyped(stoul: string -> Option<nat>, text: string, n: nat)
    requires stoul(text) == Some(n)
    ensures ParsePort(stoul, text) == Some(n) <==> n <= 65535
    ensures ParsePort(stoul, text).Some? <==> n % 0x1_0000_0000 <= 65535
    ensures n == 0x1_0000_0000 + 5252 ==> ParsePort(stoul, text) == Some(5252)
  {
  }

  /** The arguments from the current one on. */
  class ArgIterator {
    const argv: array<string>
    var at: nat
    var argsNumber: nat

    predicate Valid()
      reads this
    {
      at + argsNumber == argv.Length
    }

    function Left(): (args: seq<string>)
      requires Valid()
      reads this, argv
      ensures |args| == argsNumber
    {
      argv[at..]
    }

    constructor (argv: array<string>)
      ensures Valid() && this.argv == argv && Left() == argv[..]
    {
      this.argv := argv;
      at, argsNumber := 0, argv.Length;
    }

    function Get(): (arg: string)
      requires Valid() && argsNumber > 0
      reads this, argv
      ensures arg == Left()[0]
    {
      argv[at]
    }

    method Next() returns (more: bool)
      requires Valid()
      modifies this
      ensures Valid()
      ensures Left() == if old(Left()) == [] then [] else old(Left())[1..]
      ensures more == (Left() != [])
    {
      if argsNumber == 0 {
        return false;
      }
      at, argsNumber := at + 1, argsNumber - 1;
      more := argsNumber != 0;
    }

    predicate HasParameter()
      requires Valid()
      reads this, argv
      ensures HasParameter() == (|Left()| > 1 && !Dashed(Left()[1]))
    {
      argsNumber > 1 && !Dashed(argv[at + 1])
    }

    function GetParameter(): (arg: string)
      requires Valid() && argsNumber > 1
      reads this, argv
      ensures arg == Left()[1]
    {
      argv[at + 1]
    }
  }

  /** What one argument, with the value it takes, asks for. */
  datatype Setting =
    | Port(value: Option<string>)
    | Dir(value: Option<string>)
    | UseUdp
    | Help
    | Ignored

  /** The value of an option: the next argument, unless that is an option or missing. */
  function ValueOf(args: seq<string>): Option<string>
    requires args != []
  {
    if |args| > 1 && !Dashed(args[1]) then Some(args[1]) else None
  }

  function First(args: seq<string>): Setting
    requires args != []
  {
    if !Dashed(args[0]) then Ignored
    else
      var option := args[0][1..];
      if option == "port" || option == "p" then Port(ValueOf(args))
      else if option == "dir" || option == "d" then Dir(ValueOf(args))
      else if option == "udp" then UseUdp
      else if option == "help" || option == "h" then Help
      else Ignored
  }

  predicate TakesValue(s: Setting) {
    (s.Port? || s.Dir?) && s.value.Some?
  }

  /** The settings an argument list spells out, from left to right. */
  function Settings(args: seq<string>): seq<Setting>
    decreases |args|
  {
    if args == [] then []
    else
      var s := First(args);
      [s] + Settings(args[if TakesValue(s) then 2 else 1..])
  }

  /** What has been read so far: the configuration, whether everything was in order, whether help is wanted. */
  datatype Parsed = Parsed(config: Config, result: bool, printHelp: bool)

  function PortOf(stoul: string -> Option<nat>, s: Setting): Option<nat> {
    if s.Port? && s.value.Some? then ParsePort(stoul, s.value.value) else None
  }

  function DirOf(s: Setting): Option<string> {
    if s.Dir? then s.value else None
  }

  /** An option without its value, or with one that is not a port, is a mistake. */
  predicate InOrder(stoul: string -> Option<nat>, s: Setting) {
    && (s.Port? ==> PortOf(stoul, s).Some?)
    && (s.Dir? ==> DirOf(s).Some?)
  }

  function Apply(stoul: string -> Option<nat>, p: Parsed, s: Setting): Parsed {
    var c := p.config;
    var c1 := if PortOf(stoul, s).Some? then c.(port := PortOf(stoul, s).value) else c;
    var c2 := if DirOf(s).Some? then c1.(hostFilesDirectory := DirOf(s).value) else c1;
    var c3 := if s.UseUdp? then c2.(protocol := Udp) else c2;
    Parsed(c3, p.result && InOrder(stoul, s), p.printHelp || s.Help?)
  }

  function ApplyAll(stoul: string -> Option<nat>, p: Parsed, settings: seq<Setting>): Parsed
    decreases |settings|
  {
    if settings == [] then p else ApplyAll(stoul, Apply(stoul, p, settings[0]), settings[1..])
  }

  /** `RequireArgParameter<unsigned short>`: a value that is not a port is used up all the same. */
  method RequirePort(stoul: string -> Option<nat>, iter: ArgIterator, port: nat) returns (ok: bool, port': nat)
    requires iter.Valid() && iter.Left() != []
    modifies iter
    ensures iter.Valid()
    ensures iter.Left() == old(iter.Left())[if ValueOf(old(iter.Left())).Some? then 1 else 0..]
    ensures match PortOf(stoul, Port(ValueOf(old(iter.Left()))))
      case Some(n) => ok && port' == n
      case None => !ok && port' == port
  {
    if !iter.HasParameter() {
      return false, port;
    }
    var value := ParsePort(stoul, iter.GetParameter());
    var _ := iter.Next();
    match value {
      case None => return false, port;
      case Some(n) => return true, n;
    }
  }

  /** `RequireArgParameter<const char*>`. */
  method RequireDir(iter: ArgIterator, dir: string) returns (ok: bool, dir': string)
    requires iter.Valid() && iter.Left() != []
    modifies iter
    ensures iter.Valid()
    ensures iter.Left() == old(iter.Left())[if ValueOf(old(iter.Left())).Some? then 1 else 0..]
    ensures match ValueOf(old(iter.Left()))
      case Some(value) => ok && dir' == value
      case None => !ok && dir' == dir
  {
    if !iter.HasParameter() {
      return false, dir;
    }
    dir' := iter.GetParameter();
    var _ := iter.Next();
    ok := true;
  }

  /** One round of the loop: the current argument, and the value it takes. */
  method ReadArgument(stoul: string -> Option<nat>, iter: ArgIterator, p: Parsed) returns (p': Parsed)
    requires iter.Valid() && iter.Left() != []
    modifies iter
    ensures iter.Valid()
    ensures var s := First(old(iter.Left()));
      p' == Apply(stoul, p, s) && iter.Left() == old(iter.Left())[if TakesValue(s) then 1 else 0..]
  {
    hide ParsePort, ValueOf;
    p' := p;
    var argument := iter.Get();
    if Dashed(argument) {
      var value := argument[1..];
      if value == "port" || value == "p" {
        var ok, port := RequirePort(stoul, iter, p.config.port);
        p' := p.(config := p.config.(port := port), result := p.result && ok);
      } else if value == "dir" || value == "d" {
        var ok, dir := RequireDir(iter, p.config.hostFilesDirectory);
        p' := p.(config := p.config.(hostFilesDirectory := dir), result := p.result && ok);
      }
      if value == "udp" {
        p' := p'.(config := p'.config.(protocol := Udp));
      } else if value == "help" || value == "h" {
        p' := p'.(printHelp := true);
      }
    }
  }

  lemma NextSetting(stoul: string -> Option<nat>, p: Parsed, args: seq<string>)
    requires args != []
    ensures var s := First(args);
      && (TakesValue(s) ==> |args| > 1)
      && ApplyAll(stoul, p, Settings(args))
          == ApplyAll(stoul, Apply(stoul, p, s), Settings(args[if TakesValue(s) then 2 else 1..]))
  {
  }

  /** Reads the whole command line; the program's own name is skipped. */
  method ParseServerArgs(stoul: string -> Option<nat>, argv: array<string>, config: Config) returns (parsed: Parsed)
    ensures var args := if argv.Length == 0 then [] else argv[1..];
      parsed == ApplyAll(stoul, Parsed(config, true, false), Settings(args))
  {
    hide Apply, First;
    var iter := new ArgIterator(argv);
    parsed := Parsed(config, true, false);
    ghost var result := ApplyAll(stoul, parsed, Settings(if argv.Length == 0 then [] else argv[1..]));
    var more := iter.Next();
    while more
      invariant iter.Valid() && fresh(iter) && more == (iter.Left() != [])
      invariant ApplyAll(stoul, parsed, Settings(iter.Left())) == result
      decreases |iter.Left()|
    {
      ghost var left := iter.Left();
      NextSetting(stoul, parsed, left);
      parsed := ReadArgument(stoul, iter, parsed);
      more := iter.Next();
      assert iter.Left() == left[if TakesValue(First(left)) then 2 else 1..];
    }
  }

  // ---------------------------------------------------------------- what the result means

  /** Success means that every setting was in order; help and UDP are on if they were asked for anywhere. */
  lemma {:induction false} EverySettingCounts(stoul: string -> Option<nat>, p: Parsed, settings: seq<Setting>)
    ensures var p' := ApplyAll(stoul, p, settings);
      && (p'.result <==> p.result && forall s | s in settings :: InOrder(stoul, s))
      && (p'.printHelp <==> p.printHelp || Help in settings)
      && p'.config.protocol == (if UseUdp in settings then Udp else p.config.protocol)
    decreases |settings|
  {
    if settings != [] {
      EverySettingCounts(stoul, Apply(stoul, p, settings[0]), settings[1..]);
      assert settings == [settings[0]] + settings[1..];
    }
  }

  /** Without a valid port the port stays as it was. */
  lemma {:induction false} NoPort(stoul: string -> Option<nat>, p: Parsed, settings: seq<Setting>)
    requires forall i | 0 <= i < |settings| :: PortOf(stoul, settings[i]).None?
    ensures ApplyAll(stoul, p, settings).config.port == p.config.port
    decreases |settings|
  {
    hide PortOf, DirOf, InOrder;
    if settings != [] {
      NoPort(stoul, Apply(stoul, p, settings[0]), settings[1..]);
    }
  }

  /** The last valid port wins. */
  lemma {:induction false} LastPortWins(stoul: string -> Option<nat>, p: Parsed, settings: seq<Setting>, i: nat)
    requires i < |settings| && PortOf(stoul, settings[i]).Some?
    requires forall j | i < j < |settings| :: PortOf(stoul, settings[j]).None?
    ensures ApplyAll(stoul, p, settings).config.port == PortOf(stoul, settings[i]).value
    decreases |settings|
  {
    hide PortOf, DirOf, InOrder;
    if i == 0 {
      NoPort(stoul, Apply(stoul, p, settings[0]), settings[1..]);
    } else {
      LastPortWins(stoul, Apply(stoul, p, settings[0]), settings[1..], i - 1);
    }
  }

  lemma {:induction false} NoDir(stoul: string -> Option<nat>, p: Parsed, settings: seq<Setting>)
    requires forall i | 0 <= i < |settings| :: DirOf(settings[i]).None?
    ensures ApplyAll(stoul, p, settings).config.hostFilesDirectory == p.config.hostFilesDirectory
    decreases |settings|
  {
    hide PortOf, DirOf, InOrder;
    if settings != [] {
      NoDir(stoul, Apply(stoul, p, settings[0]), settings[1..]);
    }
  }

  /** The last directory wins. */
  lemma {:induction false} LastDirWins(stoul: string -> Option<nat>, p: Parsed, settings: seq<Setting>, i: nat)
    requires i < |settings| && DirOf(settings[i]).Some?
    requires forall j | i < j < |settings| :: DirOf(settings[j]).None?
    ensures ApplyAll(stoul, p, settings).config.hostFilesDirectory == DirOf(settings[i]).value
    decreases |settings|
  {
    hide PortOf, DirOf, InOrder;
    if i == 0 {
      NoDir(stoul, Apply(stoul, p, settings[0]), settings[1..]);
    } else {
      LastDirWins(stoul, Apply(stoul, p, settings[0]), settings[1..], i - 1);
    }
  }

  lemma FirstOfBoth(a: seq<string>, b: seq<string>)
    requires a != [] && (b != [] ==> Dashed(b[0]))
    ensures First(a + b) == First(a)
    ensures var n := if TakesValue(First(a)) then 2 else 1; n <= |a| && (a + b)[n..] == a[n..] + b
  {
  }

  /** An option and its value are never torn apart, and what stands behind an option does not change what stands before
      it: two command lines behind each other mean the settings of the first and then those of the second. */
  lemma {:induction false} SettingsConcatenate(a: seq<string>, b: seq<string>)
    requires b != [] ==> Dashed(b[0])
    ensures Settings(a + b) == Settings(a) + Settings(b)
    decreases |a|
  {
    hide First, TakesValue;
    if a == [] {
      assert a + b == b;
    } else {
      FirstOfBoth(a, b);
      var n := if TakesValue(First(a)) then 2 else 1;
      SettingsConcatenate(a[n..], b);
    }
  }

  // ---------------------------------------------------------------- the options themselves

  /** What each argument asks for; a value is the next argument, unless that begins with a dash or is missing. */
  lemma OptionNames(args: seq<string>)
    requires args != []
    ensures var value := if |args| > 1 && (args[1] == "" || args[1][0] != '-') then Some(args[1]) else None;
      First(args) ==
        if args[0] in {"-port", "-p"} then Port(value)
        else if args[0] in {"-dir", "-d"} then Dir(value)
        else if args[0] == "-udp" then UseUdp
        else if args[0] in {"-help", "-h"} then Help
        else Ignored
  {
    var a := args[0];
    if a != "" && a[0] == '-' {
      assert a == "-" + a[1..];
      assert "-port"[1..] == "port" && "-p"[1..] == "p" && "-dir"[1..] == "dir" && "-d"[1..] == "d";
      assert "-udp"[1..] == "udp" && "-help"[1..] == "help" && "-h"[1..] == "h";
      assert "-" + "port" == "-port" && "-" + "p" == "-p" && "-" + "dir" == "-dir" && "-" + "d" == "-d";
      assert "-" + "udp" == "-udp" && "-" + "help" == "-help" && "-" + "h" == "-h";
    }
  }

  /** What is a mistake: a port or directory that is missing, and a port that is no number or does not fit 16 bits after
      being cut to 32. */
  lemma Mistakes(stoul: string -> Option<nat>, s: Setting)
    ensures InOrder(stoul, s) <==>
      match s
      case Port(Some(text)) => stoul(text).Some? && stoul(text).value % 0x1_0000_0000 < 0x1_0000
      case Dir(Some(_)) => true
      case Port(None) => false
      case Dir(None) => false
      case _ => true
  {
  }

  lemma FrontFirst(stoul: string -> Option<nat>, p: Parsed, front: seq<string>, rest: seq<string>)
    requires front != [] && |front| == if TakesValue(First(front + rest)) then 2 else 1
    ensures ApplyAll(stoul, p, Settings(front + rest))
      == ApplyAll(stoul, Apply(stoul, p, First(front + rest)), Settings(rest))
  {
    NextSetting(stoul, p, front + rest);
    assert (front + rest)[|front|..] == rest;
  }

  lemma NoSettings(stoul: string -> Option<nat>)
    ensures forall p :: ApplyAll(stoul, p, Settings([])) == p
  {
  }

  /** A whole command line, in either spelling of its options. */
  lemma CommandLine(stoul: string -> Option<nat>, config: Config, port: string, dir: string, help: string,
                    text: string, n: nat, path: string)
    requires port in {"-port", "-p"} && dir in {"-dir", "-d"} && help in {"-help", "-h"}
    requires stoul(text) == Some(n) && n < 0x1_0000
    requires (text == "" || text[0] != '-') && (path == "" || path[0] != '-')
    ensures ApplyAll(stoul, Parsed(config, true, false), Settings([port, text] + ([dir, path] + (["-udp"] + [help]))))
      == Parsed(Config(n, path, Udp), true, true)
  {
    hide First, Settings, ApplyAll;
    var p := Parsed(config, true, false);
    OptionNames([port, text] + ([dir, path] + (["-udp"] + [help])));
    FrontFirst(stoul, p, [port, text], [dir, path] + (["-udp"] + [help]));
    OptionNames([dir, path] + (["-udp"] + [help]));
    FrontFirst(stoul, p.(config := config.(port := n)), [dir, path], ["-udp"] + [help]);
    OptionNames(["-udp"] + [help]);
    FrontFirst(stoul, p.(config := Config(n, path, config.protocol)), ["-udp"], [help]);
    OptionNames([help] + []);
    FrontFirst(stoul, p.(config := Config(n, path, Udp)), [help], []);
    assert [help] + [] == [help];
    NoSettings(stoul);
  }

  /** One in which the values are missing: nothing is taken over from it, and an unknown option does not matter. */
  lemma MissingValues(stoul: string -> Option<nat>, config: Config, port: string, dir: string)
    requires port in {"-port", "-p"} && dir in {"-dir", "-d"}
    ensures ApplyAll(stoul, Parsed(config, true, false), Settings([port] + ([dir] + ["-x"])))
      == Parsed(config, false, false)
    ensures ApplyAll(stoul, Parsed(config, true, false), Settings(["-x"])) == Parsed(config, true, false)
  {
    hide First, Settings, ApplyAll;
    var p := Parsed(config, true, false);
    OptionNames([port] + ([dir] + ["-x"]));
    FrontFirst(stoul, p, [port], [dir] + ["-x"]);
    OptionNames([dir] + ["-x"]);
    FrontFirst(stoul, p.(result := false), [dir], ["-x"]);
    OptionNames(["-x"] + []);
    FrontFirst(stoul, p.(result := false), ["-x"], []);
    FrontFirst(stoul, p, ["-x"], []);
    assert ["-x"] + [] == ["-x"];
    NoSettings(stoul);
  }
}
