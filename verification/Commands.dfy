/** Command lines and the commands they call: src/client/console.h and src/client/console.cpp. */
module Commands {
  import opened Tokenizer

  /** `Console::ArgIterator`: a view of a `std::string`, whose characters are followed by a NUL. */
  class ArgIterator {
    const text: array<char>
    var at: nat
    var length: nat

    predicate Valid()
      reads this, text
    {
      && 0 < text.Length && text[text.Length - 1] == '\0'
      && at + length < text.Length && (length > 0 ==> at + length == text.Length - 1)
    }

    function Rest(): string
      requires Valid()
      reads this, text
    {
      text[at..at + length]
    }

    constructor (line: string)
      ensures Valid() && Rest() == line && fresh(text)
    {
      text := new char[|line| + 1](i => if 0 <= i < |line| then line[i] else '\0');
      at, length := 0, |line|;
      new;
      assert text[0..|line|] == line;
    }

    /** The loop over the spaces in front, which stops at the terminating NUL at the latest. */
    method SkipSpaces() returns (i: nat)
      requires Valid() && length > 0
      ensures i == Leading(Rest(), true)
    {
      i := 0;
      while Space(text[at + i])
        invariant i <= length && forall j | 0 <= j < i :: Space(Rest()[j])
        decreases text.Length - i
      {
        assert i < length ==> text[at + i] == Rest()[i];
        i := i + 1;
      }
      assert i < length ==> text[at + i] == Rest()[i];
      LeadingIs(Rest(), true, i);
    }

    /** The loop over the word, which looks at a character before it looks for the end. */
    method WordLength() returns (i: nat)
      requires Valid() && length > 0
      ensures i == Leading(Rest(), false)
    {
      i := 0;
      while !Space(text[at + i]) && i < length
        invariant i <= length && forall j | 0 <= j < i :: !Space(Rest()[j])
      {
        assert text[at + i] == Rest()[i];
        i := i + 1;
      }
      assert i < length ==> text[at + i] == Rest()[i];
      LeadingIs(Rest(), false, i);
    }

    /** `bufferView = bufferView.substr(n)`. */
    method Drop(n: nat)
      requires Valid() && n <= length
      modifies this
      ensures Valid() && Rest() == old(Rest())[n..]
    {
      at, length := at + n, length - n;
    }

    /** `bufferView.substr(0, n)`. */
    function Front(n: nat): (s: string)
      requires Valid() && n <= length
      reads this, text
      ensures s == Rest()[..n]
    {
      text[at..at + n]
    }

    /** The next word, empty when there is none. Every access is to the line or to the NUL behind it. */
    method Next() returns (token: string)
      requires Valid()
      modifies this
      ensures Valid()
      ensures var tokens := Tokens(old(Rest()));
        && token == (if tokens == [] then "" else tokens[0])
        && Tokens(Rest()) == (if tokens == [] then [] else tokens[1..])
      ensures token != "" <==> Tokens(old(Rest())) != []
    {
      hide Leading, Tokens;
      ghost var rest := Rest();
      FirstToken(rest);
      if length == 0 {
        return "";
      }
      var i := SkipSpaces();
      if i == length {
        at, length := 0, 0;
        FirstToken("");
        return "";
      }
      Drop(i);
      i := WordLength();
      token := Front(i);
      Drop(i);
    }
  }

  datatype Kind =
    | Iterator
    | Text
    | Number(max: nat)   // an unsigned integer type and the largest number it holds

  /** What a slot of the argument tuple holds. */
  datatype Slot =
    | Rest(line: string)
    | Str(chars: string)
    | Num(n: nat)

  predicate Digit(c: char) {
    '0' <= c <= '9'
  }

  function Digits(s: string): (n: nat)
    ensures n <= |s|
  {
    if s == "" || !Digit(s[0]) then 0 else 1 + Digits(s[1..])
  }

  function Decimal(s: string): nat
    requires forall c | c in s :: Digit(c)
  {
    if s == "" then 0
    else
      assert Digit(s[|s| - 1]);
      10 * Decimal(s[..|s| - 1]) + (s[|s| - 1] as int - '0' as int)
  }

  lemma {:induction false} DigitsAreDigits(s: string)
    ensures forall c | c in s[..Digits(s)] :: Digit(c)
    ensures Digits(s) == |s| <==> forall c | c in s :: Digit(c)
  {
    if s != "" {
      DigitsAreDigits(s[1..]);
      assert s == [s[0]] + s[1..];
      assert Digit(s[0]) ==> s[..Digits(s)] == [s[0]] + s[1..][..Digits(s[1..])];
    }
  }

  /** `std::from_chars`: how far the digits go, and the number, left as it was where it does not fit. */
  function FromChars(s: string, max: nat, before: nat): (nat, nat)
  {
    var end := Digits(s);
    DigitsAreDigits(s);
    if end == 0 then (before, 0)
    else if Decimal(s[..end]) <= max then (Decimal(s[..end]), end)
    else (before, end)
  }

  /** The tokens a parameter takes: any, or digits only. */
  predicate Accepts(kind: Kind, token: string) {
    kind.Number? ==> forall c | c in token :: Digit(c)
  }

  /** What a parameter is given from the token at `i`; a number too large for its type is passed over in silence. */
  predicate Binds(kind: Kind, tokens: seq<string>, i: nat, slot: Slot)
    requires i < |tokens| && Accepts(kind, tokens[i])
  {
    match kind
    case Iterator => slot.Rest? && Tokens(slot.line) == tokens[i + 1..]
    case Text => slot == Str(tokens[i])
    case Number(max) => slot == Num(if Decimal(tokens[i]) <= max then Decimal(tokens[i]) else 0)
  }

  function Default(kind: Kind): Slot {
    match kind
    case Iterator => Rest("")
    case Text => Str("")
    case Number(_) => Num(0)
  }

  predicate AllAccepted(kinds: seq<Kind>, tokens: seq<string>) {
    |kinds| <= |tokens| && forall i | 0 <= i < |kinds| :: Accepts(kinds[i], tokens[i])
  }

  /** One argument (src/client/console.h:65-76). */
  method ParseValue(iter: ArgIterator, token: string, kind: Kind, before: Slot) returns (ok: bool, slot: Slot)
    requires iter.Valid() && before == Default(kind) && token != ""
    ensures ok == Accepts(kind, token)
    ensures ok ==> forall tokens: seq<string>, i: nat
      | i < |tokens| && tokens[i] == token && tokens[i + 1..] == Tokens(iter.Rest()) ::
      Binds(kind, tokens, i, slot)
  {
    match kind {
      case Iterator => return true, Rest(iter.Rest());
      case Text => return true, Str(token);
      case Number(max) =>
        var (n, end) := FromChars(token, max, before.n);
        DigitsAreDigits(token);
        assert token[..|token|] == token;
        return end == |token|, Num(n);
    }
  }

  predicate AllBound(kinds: seq<Kind>, tokens: seq<string>, slots: seq<Slot>) {
    && |slots| == |kinds| && AllAccepted(kinds, tokens)
    && forall i | 0 <= i < |kinds| :: Binds(kinds[i], tokens, i, slots[i])
  }

  lemma FirstAccepted(kinds: seq<Kind>, tokens: seq<string>)
    requires kinds != [] && tokens != []
    ensures AllAccepted(kinds, tokens) == (Accepts(kinds[0], tokens[0]) && AllAccepted(kinds[1..], tokens[1..]))
  {
    hide Accepts;
    if Accepts(kinds[0], tokens[0]) && AllAccepted(kinds[1..], tokens[1..]) {
      forall i | 0 <= i < |kinds| ensures Accepts(kinds[i], tokens[i]) {
        assert i > 0 ==> Accepts(kinds[1..][i - 1], tokens[1..][i - 1]);
      }
    }
  }

  lemma BindsLater(kind: Kind, tokens: seq<string>, i: nat, slot: Slot)
    requires i + 1 < |tokens| && Accepts(kind, tokens[i + 1]) && Binds(kind, tokens[1..], i, slot)
    ensures Binds(kind, tokens, i + 1, slot)
  {
    assert tokens[1..][i + 1..] == tokens[i + 2..];
  }

  lemma FirstBound(kinds: seq<Kind>, tokens: seq<string>, slots: seq<Slot>)
    requires kinds != [] && tokens != [] && slots != []
    requires Accepts(kinds[0], tokens[0]) && Binds(kinds[0], tokens, 0, slots[0])
    requires AllBound(kinds[1..], tokens[1..], slots[1..])
    ensures AllBound(kinds, tokens, slots)
  {
    hide Accepts, Binds;
    FirstAccepted(kinds, tokens);
    forall i | 0 <= i < |kinds| ensures Binds(kinds[i], tokens, i, slots[i]) {
      if i > 0 {
        assert Binds(kinds[1..][i - 1], tokens[1..], i - 1, slots[1..][i - 1]);
        BindsLater(kinds[i], tokens, i - 1, slots[i]);
      }
    }
  }

  lemma FrontKept(before: seq<Slot>, after: seq<Slot>, index: nat)
    requires index < |before| == |after| && after[..index + 1] == before[..index + 1]
    ensures after[..index] == before[..index]
    ensures after[index..][0] == before[index] && after[index..][1..] == after[index + 1..]
  {
    assert after[..index + 1][..index] == before[..index + 1][..index];
    assert after[..index + 1][index] == before[..index + 1][index];
  }

  lemma NothingToBind(kinds: seq<Kind>, tokens: seq<string>, slots: seq<Slot>)
    requires kinds == [] && slots == []
    ensures AllAccepted(kinds, tokens) && AllBound(kinds, tokens, slots) && tokens[0..] == tokens
  {
  }

  lemma TooFew(kinds: seq<Kind>, tokens: seq<string>)
    requires kinds != [] && tokens == []
    ensures !AllAccepted(kinds, tokens)
  {
  }

  /** The arguments from `index` on, by recursion over the parameters (src/client/console.h:78-101): either all of them
      are there and accepted, and each goes to its own slot, or the parsing fails. `used` words have been taken. */
  method ParseArg(iter: ArgIterator, kinds: seq<Kind>, index: nat, slots: array<Slot>)
    returns (ok: bool, ghost used: nat)
    requires iter.Valid() && index <= |kinds| == slots.Length
    requires forall j | index <= j < |kinds| :: slots[j] == Default(kinds[j])
    modifies iter, slots
    ensures iter.Valid() && slots[..index] == old(slots[..index])
    ensures var tokens := Tokens(old(iter.Rest()));
      && used <= |tokens| && used <= |kinds| - index && Tokens(iter.Rest()) == tokens[used..]
      && ok == AllAccepted(kinds[index..], tokens)
      && (ok ==> used == |kinds| - index && AllBound(kinds[index..], tokens, slots[index..]))
    decreases |kinds| - index
  {
    hide Tokens, Accepts, Binds, AllAccepted, AllBound, Default, ArgIterator.Valid, ArgIterator.Rest;
    ghost var tokens := Tokens(iter.Rest());
    if index == |kinds| {
      NothingToBind(kinds[index..], tokens, slots[index..]);
      return true, 0;
    }
    var token := iter.Next();
    if token == "" {
      TooFew(kinds[index..], tokens);
      return false, 0;
    }
    FirstAccepted(kinds[index..], tokens);
    var accepted, slot := ParseValue(iter, token, kinds[index], slots[index]);
    slots[index] := slot;
    if !accepted {
      return false, 1;
    }
    assert Binds(kinds[index], tokens, 0, slot);
    ghost var before := slots[..];
    ok, used := ParseArg(iter, kinds, index + 1, slots);
    used := used + 1;
    FrontKept(before, slots[..], index);
    assert kinds[index..][1..] == kinds[index + 1..];
    if ok {
      FirstBound(kinds[index..], tokens, slots[..][index..]);
    }
  }

  /** Calls a handler with the arguments of a line (src/client/console.h:116-124): exactly when there are enough words
      and every one is accepted, and then with every argument in its place. */
  method Exec(iter: ArgIterator, kinds: seq<Kind>) returns (called: bool, args: seq<Slot>)
    requires iter.Valid()
    modifies iter
    ensures called == AllAccepted(kinds, Tokens(old(iter.Rest())))
    ensures called ==> AllBound(kinds, Tokens(old(iter.Rest())), args)
  {
    hide AllAccepted, AllBound;
    var slots := new Slot[|kinds|](i requires 0 <= i < |kinds| => Default(kinds[i]));
    var ok, _ := ParseArg(iter, kinds, 0, slots);
    assert kinds[0..] == kinds && slots[0..] == slots[..];
    called, args := ok, slots[..];
  }

  /** A word is taken for a number exactly if it is all digits, and it arrives as typed exactly if its type holds it; a
      larger one leaves the zero the argument starts with. */
  lemma NumberArrives(token: string, max: nat)
    ensures var (n, end) := FromChars(token, max, 0);
      && (Accepts(Number(max), token) <==> forall c | c in token :: '0' <= c <= '9')
      && (end == |token| <==> Accepts(Number(max), token))
      && (Accepts(Number(max), token) ==>
            && (n == Decimal(token) <==> Decimal(token) <= max)
            && (Decimal(token) > max ==> n == 0))
  {
    DigitsAreDigits(token);
    assert token[..|token|] == token;
  }

  /** How a number is written. */
  function Shown(n: nat): string {
    if n < 10 then ["0123456789"[n]] else Shown(n / 10) + ["0123456789"[n % 10]]
  }

  lemma DigitShown(d: nat)
    requires d < 10
    ensures '0' <= "0123456789"[d] <= '9' && "0123456789"[d] as int - '0' as int == d
  {
  }

  /** A number as it is written reads as that number. */
  lemma {:induction false} ShownReads(n: nat)
    ensures Shown(n) != "" && forall c | c in Shown(n) :: Digit(c)
    ensures Decimal(Shown(n)) == n
  {
    var s, d := Shown(n), n % 10;
    DigitShown(d);
    if n < 10 {
      assert s[..|s| - 1] == "";
    } else {
      ShownReads(n / 10);
      assert s[..|s| - 1] == Shown(n / 10) && s[|s| - 1] == "0123456789"[d];
    }
  }

  /** `connect` is called with the protocol, the host and the port as they were typed, and with port zero where the port
      is larger than 65535; with fewer words, or a port that is no number, it is not called. */
  lemma ConnectArguments(protocol: string, host: string, port: nat, last: string, args: seq<Slot>)
    ensures AllAccepted([Text, Text, Number(65535)], [protocol, host, Shown(port)])
    ensures AllBound([Text, Text, Number(65535)], [protocol, host, Shown(port)], args) <==>
      args == [Str(protocol), Str(host), Num(if port <= 65535 then port else 0)]
    ensures !AllAccepted([Text, Text, Number(65535)], [protocol, host])
    ensures (exists c | c in last :: c < '0' || c > '9') ==>
      !AllAccepted([Text, Text, Number(65535)], [protocol, host, last])
  {
    hide Decimal, Shown;
    ShownReads(port);
    var kinds, tokens := [Text, Text, Number(65535)], [protocol, host, Shown(port)];
    assert kinds[0] == Text && kinds[1] == Text && kinds[2] == Number(65535);
    if AllBound(kinds, tokens, args) {
      assert Binds(kinds[0], tokens, 0, args[0]) && Binds(kinds[1], tokens, 1, args[1]);
      assert Binds(kinds[2], tokens, 2, args[2]);
    }
    assert AllAccepted(kinds, [protocol, host, last]) ==> Accepts(kinds[2], [protocol, host, last][2]);
  }

  /** `connect tcp host 65536` calls the handler with port zero. */
  lemma PortTooLarge()
    ensures FromChars("65536", 65535, 0) == (0, 5)
    ensures Accepts(Number(65535), "65536") && Binds(Number(65535), ["65536"], 0, Num(0))
  {
    var s := "65536";
    NumberArrives(s, 65535);
    assert s[..4] == "6553" && s[..4][..3] == "655" && s[..4][..3][..2] == "65" && s[..4][..3][..2][..1] == "6";
    assert Decimal("65") == 65;
    assert Decimal("655") == 655;
    assert Decimal("6553") == 6553;
  }

  /** A command under its name, with the parameters it takes. */
  datatype Registration = Registration(name: string, kinds: seq<Kind>)

  /** The table after one registration upon another. */
  function Registered(rs: seq<Registration>): map<string, seq<Kind>> {
    if rs == [] then map[]
    else
      var last := rs[|rs| - 1];
      Registered(rs[..|rs| - 1])[last.name := last.kinds]
  }

  predicate Names(rs: seq<Registration>, name: string) {
    exists i :: 0 <= i < |rs| && rs[i].name == name
  }

  /** The registration at `i` is the last of its name. */
  predicate LastOfName(rs: seq<Registration>, i: nat) {
    i < |rs| && forall j | i < j < |rs| :: rs[j].name != rs[i].name
  }

  lemma FrontNames(rs: seq<Registration>, name: string)
    requires rs != []
    ensures Names(rs, name) <==> Names(rs[..|rs| - 1], name) || rs[|rs| - 1].name == name
  {
    var front := rs[..|rs| - 1];
    if Names(rs, name) {
      var i :| 0 <= i < |rs| && rs[i].name == name;
      assert i < |front| ==> front[i] == rs[i];
    }
    if Names(front, name) {
      var i :| 0 <= i < |front| && front[i].name == name;
      assert rs[i] == front[i];
    }
  }

  /** A name is known exactly if it was registered, and stands for the command registered last under it. */
  lemma {:induction false} LastRegistrationWins(rs: seq<Registration>, name: string, i: nat)
    ensures name in Registered(rs) <==> Names(rs, name)
    ensures LastOfName(rs, i) && rs[i].name == name ==> name in Registered(rs) && Registered(rs)[name] == rs[i].kinds
  {
    if rs != [] {
      var front, last := rs[..|rs| - 1], rs[|rs| - 1];
      FrontNames(rs, name);
      LastRegistrationWins(front, name, i);
      assert i < |front| ==> front[i] == rs[i];
    }
  }

  /** The commands of the client's console (src/client/clientConsole.cpp:10-16). */
  const CLIENT_COMMANDS := [
    Registration("close", []),
    Registration("connect", [Text, Text, Number(65535)]),
    Registration("download", [Text]),
    Registration("disconnect", []),
    Registration("echo", [Text]),
    Registration("time", []),
    Registration("upload", [Text])
  ]

  lemma NotBuiltIn(name: string)
    ensures name in {"help", "h", "exit", "quit", "q"} ==>
      |name| == 1 || (|name| == 4 && name[0] != 't' && name[1] != 'c')
  {
  }

  /** Their lengths and first letters set the names apart, from the built-in ones as well. */
  lemma ClientCommand(i: nat)
    requires i < |CLIENT_COMMANDS|
    ensures var name := CLIENT_COMMANDS[i].name;
      && |name| == [5, 7, 8, 10, 4, 4, 6][i] && (i == 4 ==> name[..2] == "ec") && (i == 5 ==> name[..2] == "ti")
      && name !in {"help", "h", "exit", "quit", "q"}
  {
    NotBuiltIn(CLIENT_COMMANDS[i].name);
  }

  /** None of the client's commands hides another or is hidden by a built-in one. */
  lemma ClientCommandsFound(i: nat)
    requires i < |CLIENT_COMMANDS|
    ensures var Registration(name, kinds) := CLIENT_COMMANDS[i];
      && name !in {"help", "h", "exit", "quit", "q"}
      && name in Registered(CLIENT_COMMANDS) && Registered(CLIENT_COMMANDS)[name] == kinds
  {
    assert |CLIENT_COMMANDS| == 7;
    hide CLIENT_COMMANDS, Registered;
    ClientCommand(i);
    forall j | i < j < |CLIENT_COMMANDS| ensures CLIENT_COMMANDS[j].name != CLIENT_COMMANDS[i].name {
      ClientCommand(j);
    }
    LastRegistrationWins(CLIENT_COMMANDS, CLIENT_COMMANDS[i].name, i);
  }

  class Console {
    var commands: map<string, seq<Kind>>
    var isShouldExit: bool

    constructor ()
      ensures commands == map[] && !isShouldExit
    {
      commands, isShouldExit := map[], false;
    }

    /** Adds a registration to those the table consists of. */
    method RegisterCommand(name: string, kinds: seq<Kind>)
      modifies this`commands
      ensures forall rs | old(commands) == Registered(rs) :: commands == Registered(rs + [Registration(name, kinds)])
      ensures commands == old(commands)[name := kinds]
    {
      commands := commands[name := kinds];
      assert forall rs: seq<Registration>, r :: (rs + [r])[..|rs|] == rs;
    }

    /** What the client's console registers (src/client/clientConsole.cpp:6-20). */
    method RegisterClientCommands()
      requires commands == map[]
      modifies this`commands
      ensures commands == Registered(CLIENT_COMMANDS)
      ensures commands == map["close" := [], "connect" := [Text, Text, Number(65535)], "download" := [Text],
                              "disconnect" := [], "echo" := [Text], "time" := [], "upload" := [Text]]
    {
      assert commands == Registered([]);
      RegisterCommand("close", []);
      RegisterCommand("connect", [Text, Text, Number(65535)]);
      RegisterCommand("download", [Text]);
      RegisterCommand("disconnect", []);
      RegisterCommand("echo", [Text]);
      RegisterCommand("time", []);
      RegisterCommand("upload", [Text]);
      ghost var r := CLIENT_COMMANDS;
      assert [] + [r[0]] + [r[1]] + [r[2]] + [r[3]] + [r[4]] + [r[5]] + [r[6]] == r;
    }

    /** One line: `called` says whether the handler of the command it names has been called, and `args` with what. */
    method HandleCommand(line: string) returns (handled: bool, called: bool, args: seq<Slot>)
      modifies this`isShouldExit
      ensures var tokens := Tokens(line);
        && handled == (called || (tokens != [] && tokens[0] in {"help", "h", "exit", "quit", "q"}))
        && isShouldExit == (old(isShouldExit) || (tokens != [] && tokens[0] in {"exit", "quit", "q"}))
        && called == (&& tokens != [] && tokens[0] !in {"help", "h", "exit", "quit", "q"} && tokens[0] in commands
                      && AllAccepted(commands[tokens[0]], tokens[1..]))
        && (called ==> AllBound(commands[tokens[0]], tokens[1..], args))
    {
      hide Tokens, AllAccepted, AllBound;
      handled, called, args := false, false, [];
      var iter := new ArgIterator(line);
      var command := iter.Next();
      if command == "" {
        return;
      }
      if command == "help" || command == "h" {
        handled := true;
      } else if command == "exit" || command == "quit" || command == "q" {
        isShouldExit := true;
        handled := true;
      } else if command in commands {
        called, args := Exec(iter, commands[command]);
        handled := called;
      }
    }
  }
}
