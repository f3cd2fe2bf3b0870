/**
 The argument vector built for a parsed command, and exactly which commands survive being built
 and parsed again.
 */
module TerminalArgv {
  import opened Common
  import opened TerminalParser

  /** One dash for a one-character name, two for any other. */
  function FlagToken(name: string): string {
    if |name| == 1 then ['-'] + name else ['-', '-'] + name
  }

  /** Valued flags in the given map iteration order. */
  function PairTokens(flags: map<string, string>, order: seq<string>): seq<string>
    requires forall k :: k in order ==> k in flags
  {
    if order == [] then []
    else [FlagToken(order[0]), flags[order[0]]] + PairTokens(flags, order[1..])
  }

  function BooleanTokens(booleans: seq<string>): seq<string> {
    if booleans == [] then [] else [FlagToken(booleans[0])] + BooleanTokens(booleans[1..])
  }

  function ConfigToken(option: string, path: string): string {
    ['-', '-'] + option + ['='] + path
  }

  /** `option` is the name of the configuration-file flag that is always added last. */
  function Argv(cmd: Command, order: seq<string>, option: string, path: string): seq<string>
    requires forall k :: k in order ==> k in cmd.flags
  {
    [cmd.command, cmd.subcommand] + (cmd.args
    + (PairTokens(cmd.flags, order) + (BooleanTokens(cmd.booleans) + [ConfigToken(option, path)])))
  }

  lemma {:induction false} PairTokensAppend(flags: map<string, string>, order: seq<string>, key: string)
    requires key in flags && forall k :: k in order ==> k in flags
    ensures PairTokens(flags, order + [key]) == PairTokens(flags, order) + [FlagToken(key), flags[key]]
  {
    if order == [] {
      assert [key][1..] == [];
    } else {
      assert (order + [key])[1..] == order[1..] + [key];
      PairTokensAppend(flags, order[1..], key);
    }
  }

  /** The builder: arguments, valued flags in map order, boolean flags, configuration flag. */
  method BuildArgv(cmd: Command, option: string, path: string) returns (argv: seq<string>)
    ensures exists order :: Enumerates(order, cmd.flags.Keys) && argv == Argv(cmd, order, option, path)
  {
    argv := [cmd.command, cmd.subcommand];
    argv := argv + cmd.args;
    ghost var head := argv;
    ghost var order: seq<string> := [];
    var remaining := cmd.flags.Keys;
    while remaining != {}
      invariant remaining <= cmd.flags.Keys
      invariant Enumerates(order, cmd.flags.Keys - remaining)
      invariant argv == head + PairTokens(cmd.flags, order)
    {
      var key :| key in remaining;
      remaining := remaining - {key};
      PairTokensAppend(cmd.flags, order, key);
      order := order + [key];
      if |key| == 1 {
        argv := argv + [['-'] + key];
      } else {
        argv := argv + [['-', '-'] + key];
      }
      argv := argv + [cmd.flags[key]];
    }
    assert cmd.flags.Keys - {} == cmd.flags.Keys;
    ghost var pairs := argv;
    for i := 0 to |cmd.booleans|
      invariant argv + BooleanTokens(cmd.booleans[i..]) == pairs + BooleanTokens(cmd.booleans)
    {
      var flag := cmd.booleans[i];
      assert cmd.booleans[i..][1..] == cmd.booleans[i + 1..];
      if |flag| == 1 {
        argv := argv + [['-'] + flag];
      } else {
        argv := argv + [['-', '-'] + flag];
      }
    }
    assert cmd.booleans[|cmd.booleans|..] == [] && argv == pairs + BooleanTokens(cmd.booleans);
    argv := argv + [['-', '-'] + option + ['='] + path];
    Associate(head, PairTokens(cmd.flags, order), BooleanTokens(cmd.booleans), [ConfigToken(option, path)]);
    Associate([cmd.command, cmd.subcommand], cmd.args, PairTokens(cmd.flags, order)
        + (BooleanTokens(cmd.booleans) + [ConfigToken(option, path)]), []);
    assert argv == Argv(cmd, order, option, path);
  }

  lemma Associate<T>(a: seq<T>, b: seq<T>, c: seq<T>, d: seq<T>)
    ensures (a + b) + c + d == a + (b + (c + d))
  {
  }

  // ---------------------------------------------------------------------------------------
  // Which commands survive

  /** The name is cut at its first '=' when its two-dash token is parsed. */
  predicate Cut(name: string) {
    |name| != 1 && '=' in name
  }

  predicate FaithfulName(name: string) {
    name != "-" && (|name| == 1 || '=' !in name)
  }

  predicate FaithfulArg(arg: string) {
    arg == "" || arg[0] != '-' || arg == "-"
  }

  ghost predicate FaithfulFlags(cmd: Command) {
    && (forall k :: k in cmd.flags ==> FaithfulName(k) && (cmd.flags[k] == "" || cmd.flags[k][0] != '-'))
    && (forall b :: b in cmd.booleans ==> FaithfulName(b))
  }

  ghost predicate Faithful(cmd: Command) {
    (forall a :: a in cmd.args ==> FaithfulArg(a)) && FaithfulFlags(cmd)
  }

  /** The command with only the configuration flag set. */
  function Configured(cmd: Command, option: string, path: string): Command {
    cmd.(flags := cmd.flags[option := path])
  }

  // ---------------------------------------------------------------------------------------
  // The sections of a built vector

  /** One dash before a one-character name, two before any other. */
  ghost predicate ShownAs(name: string, token: string) {
    token == (if |name| == 1 then "-" else "--") + name
  }

  /** Each name of `order` in turn, followed by its value. */
  ghost predicate PairsShown(flags: map<string, string>, order: seq<string>, tokens: seq<string>) {
    && |tokens| == 2 * |order|
    && forall i :: 0 <= i < |order| ==>
         order[i] in flags && ShownAs(order[i], tokens[2 * i]) && tokens[2 * i + 1] == flags[order[i]]
  }

  ghost predicate NamesShown(booleans: seq<string>, tokens: seq<string>) {
    |tokens| == |booleans| && forall i :: 0 <= i < |booleans| ==> ShownAs(booleans[i], tokens[i])
  }

  lemma {:induction false} PairsAreShown(flags: map<string, string>, order: seq<string>)
    requires forall k :: k in order ==> k in flags
    ensures PairsShown(flags, order, PairTokens(flags, order))
  {
    if order != [] {
      var rest := PairTokens(flags, order[1..]);
      var all := PairTokens(flags, order);
      PairsAreShown(flags, order[1..]);
      forall i | 0 <= i < |order|
        ensures ShownAs(order[i], all[2 * i]) && all[2 * i + 1] == flags[order[i]]
      {
        if i > 0 {
          assert order[i] == order[1..][i - 1] && all[2 * i] == rest[2 * (i - 1)];
          assert all[2 * i + 1] == rest[2 * (i - 1) + 1];
        }
      }
    }
  }

  lemma {:induction false} NamesAreShown(booleans: seq<string>)
    ensures NamesShown(booleans, BooleanTokens(booleans))
  {
    if booleans != [] {
      NamesAreShown(booleans[1..]);
      assert forall i :: 0 < i < |booleans| ==>
          booleans[i] == booleans[1..][i - 1] && BooleanTokens(booleans)[i] == BooleanTokens(booleans[1..])[i - 1];
    }
  }

  /** Command, subcommand and arguments as they are, then the flags, and the configuration flag last. */
  lemma ArgvSections(cmd: Command, order: seq<string>, option: string, path: string)
    returns (pairs: seq<string>, names: seq<string>)
    requires forall k :: k in order ==> k in cmd.flags
    ensures PairsShown(cmd.flags, order, pairs) && NamesShown(cmd.booleans, names)
    ensures Argv(cmd, order, option, path) ==
        [cmd.command, cmd.subcommand] + cmd.args + pairs + names + ["--" + option + "=" + path]
  {
    pairs, names := PairTokens(cmd.flags, order), BooleanTokens(cmd.booleans);
    PairsAreShown(cmd.flags, order);
    NamesAreShown(cmd.booleans);
    var config := [ConfigToken(option, path)];
    assert ConfigToken(option, path) == "--" + option + "=" + path;
    Associate([cmd.command, cmd.subcommand], cmd.args, pairs, names + config);
    Associate([cmd.command, cmd.subcommand] + cmd.args, pairs, names, config);
    assert [cmd.command, cmd.subcommand] + cmd.args + pairs + (names + config) ==
        [cmd.command, cmd.subcommand] + cmd.args + pairs + names + config;
  }

  // ---------------------------------------------------------------------------------------
  // The parser's grammar

  lemma {:induction false} EqualsAtCut(prefix: string, rest: string)
    requires '=' !in prefix
    ensures EqualsAt(prefix + ['='] + rest) == Some(|prefix|)
  {
    if prefix == "" {
      assert prefix + ['='] + rest == ['='] + rest;
    } else {
      assert (prefix + ['='] + rest)[1..] == prefix[1..] + ['='] + rest;
      EqualsAtCut(prefix[1..], rest);
    }
  }

  /** The next token, if any, is not taken as a value. */
  ghost predicate NoValue(tail: seq<string>) {
    tail == [] || (tail[0] != "" && tail[0][0] == '-')
  }

  ghost predicate IsValue(token: string) {
    token == "" || token[0] != '-'
  }

  /** A flag with two dashes and its value after the first '='. */
  lemma EmbeddedValueGrammar(cmd: Command, name: string, value: string, tail: seq<string>)
    requires '=' !in name
    ensures ParseRest(cmd, ["--" + name + "=" + value] + tail) ==
        ParseRest(cmd.(flags := cmd.flags[name := value]), tail)
  {
    var t := "--" + name + "=" + value;
    assert t[2..] == name + ['='] + value;
    EqualsAtCut(name, value);
    assert (name + ['='] + value)[..|name|] == name && (name + ['='] + value)[|name| + 1..] == value;
    assert ([t] + tail)[1..] == tail;
  }

  /** A flag with two dashes and its value in the next token. */
  lemma LongFlagGrammar(cmd: Command, name: string, value: string, tail: seq<string>)
    requires '=' !in name && IsValue(value)
    ensures ParseRest(cmd, ["--" + name, value] + tail) == ParseRest(cmd.(flags := cmd.flags[name := value]), tail)
  {
    var t := "--" + name;
    assert t[2..] == name;
    assert ([t, value] + tail)[1..] == [value] + tail && ([t, value] + tail)[2..] == tail;
  }

  lemma LongBooleanGrammar(cmd: Command, name: string, tail: seq<string>)
    requires '=' !in name && NoValue(tail)
    ensures ParseRest(cmd, ["--" + name] + tail) == ParseRest(cmd.(booleans := cmd.booleans + [name]), tail)
  {
    var t := "--" + name;
    assert t[2..] == name;
    assert ([t] + tail)[1..] == tail;
  }

  lemma ShortValueStep(cmd: Command, t: string, value: string, tail: seq<string>)
    requires IsShort(t) && IsValue(value)
    ensures ParseRest(cmd, [t, value] + tail) == ParseRest(WithFlag(cmd, t[1..], value), tail)
  {
    var tokens := [t, value] + tail;
    assert tokens[1..] == [value] + tail && tokens[2..] == tail;
  }

  /** A flag with one dash and its value in the next token; an '=' is part of its name. */
  lemma ShortFlagGrammar(cmd: Command, name: string, value: string, tail: seq<string>)
    requires name != "" && name[0] != '-' && IsValue(value)
    ensures ParseRest(cmd, ["-" + name, value] + tail) == ParseRest(cmd.(flags := cmd.flags[name := value]), tail)
  {
    var t := "-" + name;
    assert t[1..] == name && t[1] == name[0];
    ShortValueStep(cmd, t, value, tail);
  }

  lemma ShortBooleanGrammar(cmd: Command, name: string, tail: seq<string>)
    requires name != "" && name[0] != '-' && NoValue(tail)
    ensures ParseRest(cmd, ["-" + name] + tail) == ParseRest(cmd.(booleans := cmd.booleans + [name]), tail)
  {
    var t := "-" + name;
    assert t[1..] == name && t[1] == name[0];
    assert ([t] + tail)[1..] == tail;
  }

  /** Any other token, a lone dash among them, is an argument; the first two are the command and its subcommand. */
  lemma ArgumentGrammar(cmd: Command, arg: string, tail: seq<string>)
    ensures IsValue(arg) || arg == "-" ==>
        ParseRest(cmd, [arg] + tail) == ParseRest(cmd.(args := cmd.args + [arg]), tail)
    ensures ParseRest(cmd, []) == cmd
  {
    assert ([arg] + tail)[1..] == tail;
  }

  lemma CommandGrammar(command: string, subcommand: string, tail: seq<string>)
    ensures ParseTokens([]) == Err(NoTokens)
    ensures ParseTokens([command]) == Ok(Command(command, "", [], map[], []))
    ensures ParseTokens([command, subcommand] + tail) ==
        Ok(ParseRest(Command(command, subcommand, [], map[], []), tail))
  {
    assert ([command, subcommand] + tail)[2..] == tail;
  }

  // ---------------------------------------------------------------------------------------
  // Parsing the sections of a built vector

  lemma {:induction false} ArgsParsed(cmd: Command, args: seq<string>, tail: seq<string>)
    requires forall a :: a in args ==> FaithfulArg(a)
    ensures ParseRest(cmd, args + tail) == ParseRest(cmd.(args := cmd.args + args), tail)
    decreases |args|
  {
    if args == [] {
      assert args + tail == tail && cmd.args + args == cmd.args;
    } else {
      assert FaithfulArg(args[0]);
      assert (args + tail)[1..] == args[1..] + tail;
      ArgsParsed(WithArg(cmd, args[0]), args[1..], tail);
      assert (cmd.args + [args[0]]) + args[1..] == cmd.args + args;
    }
  }

  /** The name under which the token of an uncut name is parsed. */
  function NameRead(name: string): string {
    if name == "-" then "" else name
  }

  function CutFlag(name: string): LongFlag
    requires Cut(name)
  {
    ParseLongFlag(FlagToken(name))
  }

  function CutValue(name: string): string
    requires Cut(name)
  {
    match CutFlag(name).value
    case Some(v) => v
    case None => ""
  }

  lemma CutFlagShape(name: string)
    requires Cut(name)
    ensures CutFlag(name).value.Some? && '=' !in CutFlag(name).name
  {
    assert FlagToken(name)[2..] == name;
  }

  /** A lone dashed token that is not followed by a value. */
  function DashedAlone(cmd: Command, t: string): Command
    requires Dashed(t)
  {
    if IsLong(t) then
      var flag := ParseLongFlag(t);
      if flag.value.Some? then WithFlag(cmd, flag.name, flag.value.value) else WithBoolean(cmd, flag.name)
    else if IsShort(t) then WithBoolean(cmd, t[1..])
    else WithArg(cmd, t)
  }

  lemma DashedAloneParsed(cmd: Command, t: string, tail: seq<string>)
    requires Dashed(t) && tail != [] && Dashed(tail[0])
    ensures ParseRest(cmd, [t] + tail) == ParseRest(DashedAlone(cmd, t), tail)
  {
    assert ([t] + tail)[1..] == tail;
  }

  /** What the token of a flag name alone contributes. */
  function NameAlone(cmd: Command, name: string): Command {
    if Cut(name) then WithFlag(cmd, CutFlag(name).name, CutValue(name)) else WithBoolean(cmd, NameRead(name))
  }

  lemma NameAloneIs(cmd: Command, name: string)
    ensures Dashed(FlagToken(name)) && DashedAlone(cmd, FlagToken(name)) == NameAlone(cmd, name)
  {
    var t := FlagToken(name);
    if |name| == 1 {
      assert t[1..] == name;
      if name == "-" {
        assert t == "--" && t[2..] == "";
      } else {
        assert IsShort(t);
      }
    } else {
      assert t[2..] == name;
      if Cut(name) {
        CutFlagShape(name);
      }
    }
  }

  /** What a flag name and its value contribute, for any name and value. */
  function PairEffect(cmd: Command, name: string, value: string): Command {
    if !Dashed(value) then
      if Cut(name) then WithArg(NameAlone(cmd, name), value) else WithFlag(cmd, NameRead(name), value)
    else DashedAlone(NameAlone(cmd, name), value)
  }

  lemma NamedValueParsed(cmd: Command, name: string, value: string, tail: seq<string>)
    requires !Cut(name) && !Dashed(value)
    ensures ParseRest(cmd, [FlagToken(name), value] + tail) == ParseRest(WithFlag(cmd, NameRead(name), value), tail)
  {
    var t := FlagToken(name);
    var tokens := [t, value] + tail;
    assert tokens[1..] == [value] + tail && tokens[2..] == tail;
    if |name| == 1 {
      assert t[1..] == name;
      if name == "-" {
        assert t == "--" && t[2..] == "";
      } else {
        assert IsShort(t);
      }
    } else {
      assert t[2..] == name;
    }
  }

  lemma CutValueParsed(cmd: Command, name: string, value: string, tail: seq<string>)
    requires Cut(name) && !Dashed(value)
    ensures ParseRest(cmd, [FlagToken(name), value] + tail) == ParseRest(WithArg(NameAlone(cmd, name), value), tail)
  {
    var tokens := [FlagToken(name), value] + tail;
    assert tokens[1..] == [value] + tail && ([value] + tail)[1..] == tail;
    CutFlagShape(name);
    assert FlagToken(name)[2..] == name;
  }

  lemma PairParsed(cmd: Command, name: string, value: string, tail: seq<string>)
    requires tail != [] && Dashed(tail[0])
    ensures ParseRest(cmd, [FlagToken(name), value] + tail) == ParseRest(PairEffect(cmd, name, value), tail)
  {
    if Dashed(value) {
      assert [FlagToken(name), value] + tail == [FlagToken(name)] + ([value] + tail);
      NameAloneIs(cmd, name);
      DashedAloneParsed(cmd, FlagToken(name), [value] + tail);
      DashedAloneParsed(NameAlone(cmd, name), value, tail);
    } else if Cut(name) {
      CutValueParsed(cmd, name, value, tail);
    } else {
      NamedValueParsed(cmd, name, value, tail);
    }
  }

  function PairsEffect(cmd: Command, flags: map<string, string>, order: seq<string>): Command
    requires forall k :: k in order ==> k in flags
    decreases |order|
  {
    if order == [] then cmd
    else PairsEffect(PairEffect(cmd, order[0], flags[order[0]]), flags, order[1..])
  }

  lemma {:induction false} PairsParsed(cmd: Command, flags: map<string, string>, order: seq<string>, tail: seq<string>)
    requires forall k :: k in order ==> k in flags
    requires tail != [] && Dashed(tail[0])
    ensures ParseRest(cmd, PairTokens(flags, order) + tail) == ParseRest(PairsEffect(cmd, flags, order), tail)
    decreases |order|
  {
    if order == [] {
      assert PairTokens(flags, order) + tail == tail;
    } else {
      var name, rest := order[0], PairTokens(flags, order[1..]);
      assert PairTokens(flags, order) + tail == [FlagToken(name), flags[name]] + (rest + tail);
      if order[1..] != [] {
        NameAloneIs(cmd, order[1]);
        assert (rest + tail)[0] == FlagToken(order[1]);
      } else {
        assert rest + tail == tail;
      }
      PairParsed(cmd, name, flags[name], rest + tail);
      PairsParsed(PairEffect(cmd, name, flags[name]), flags, order[1..], tail);
    }
  }

  function BooleansEffect(cmd: Command, booleans: seq<string>): Command
    decreases |booleans|
  {
    if booleans == [] then cmd else BooleansEffect(NameAlone(cmd, booleans[0]), booleans[1..])
  }

  lemma {:induction false} BooleansParsed(cmd: Command, booleans: seq<string>, tail: seq<string>)
    requires tail != [] && Dashed(tail[0])
    ensures ParseRest(cmd, BooleanTokens(booleans) + tail) == ParseRest(BooleansEffect(cmd, booleans), tail)
    decreases |booleans|
  {
    if booleans == [] {
      assert BooleanTokens(booleans) + tail == tail;
    } else {
      var rest := BooleanTokens(booleans[1..]) + tail;
      assert BooleanTokens(booleans) + tail == [FlagToken(booleans[0])] + rest;
      if booleans[1..] != [] {
        NameAloneIs(cmd, booleans[1]);
        assert rest[0] == FlagToken(booleans[1]);
      } else {
        assert rest == tail;
      }
      NameAloneIs(cmd, booleans[0]);
      DashedAloneParsed(cmd, FlagToken(booleans[0]), rest);
      BooleansParsed(NameAlone(cmd, booleans[0]), booleans[1..], tail);
    }
  }

  lemma ConfigParsed(cmd: Command, option: string, path: string)
    requires '=' !in option
    ensures ParseRest(cmd, [ConfigToken(option, path)]) == Configured(cmd, option, path)
    ensures Dashed(ConfigToken(option, path))
  {
    var t := ConfigToken(option, path);
    assert t[2..] == option + ['='] + path;
    EqualsAtCut(option, path);
    assert (option + ['='] + path)[..|option|] == option;
    assert (option + ['='] + path)[|option| + 1..] == path;
    assert [t][1..] == [];
  }

  /** What the flag sections of the vector parse to, for any command with proper arguments. */
  function Reread(cmd: Command, order: seq<string>): Command
    requires forall k :: k in order ==> k in cmd.flags
  {
    var start := Bare(cmd.command, cmd.subcommand).(args := cmd.args);
    BooleansEffect(PairsEffect(start, cmd.flags, order), cmd.booleans)
  }

  lemma ArgvParsed(cmd: Command, order: seq<string>, option: string, path: string)
    requires forall k :: k in order ==> k in cmd.flags
    requires '=' !in option && forall a :: a in cmd.args ==> FaithfulArg(a)
    ensures ParseTokens(Argv(cmd, order, option, path)) == Ok(Configured(Reread(cmd, order), option, path))
  {
    var bare := Bare(cmd.command, cmd.subcommand);
    var tail := [ConfigToken(option, path)];
    var flagged := BooleanTokens(cmd.booleans) + tail;
    var argv := Argv(cmd, order, option, path);
    assert argv[2..] == cmd.args + (PairTokens(cmd.flags, order) + flagged);
    ArgsParsed(bare, cmd.args, PairTokens(cmd.flags, order) + flagged);
    assert bare.args + cmd.args == cmd.args;
    ConfigParsed(bare, option, path);
    if cmd.booleans != [] {
      NameAloneIs(bare, cmd.booleans[0]);
      assert flagged[0] == FlagToken(cmd.booleans[0]);
    } else {
      assert flagged == tail;
    }
    var start := bare.(args := cmd.args);
    PairsParsed(start, cmd.flags, order, flagged);
    BooleansParsed(PairsEffect(start, cmd.flags, order), cmd.booleans, tail);
    ConfigParsed(Reread(cmd, order), option, path);
  }

  // ---------------------------------------------------------------------------------------
  // A faithful command is read back

  function FlagsOf(flags: map<string, string>, order: seq<string>): map<string, string>
    requires forall k :: k in order ==> k in flags
  {
    map k | k in order :: flags[k]
  }

  lemma FlagsOfFirst(base: map<string, string>, flags: map<string, string>, order: seq<string>)
    requires order != [] && forall k :: k in order ==> k in flags
    ensures base[order[0] := flags[order[0]]] + FlagsOf(flags, order[1..]) == base + FlagsOf(flags, order)
  {
  }

  lemma {:induction false} FaithfulPairs(cmd: Command, flags: map<string, string>, order: seq<string>)
    requires forall k :: k in order ==> k in flags && FaithfulName(k) && !Dashed(flags[k])
    ensures PairsEffect(cmd, flags, order) == cmd.(flags := cmd.flags + FlagsOf(flags, order))
    decreases |order|
  {
    if order == [] {
      assert cmd.flags + FlagsOf(flags, order) == cmd.flags;
    } else {
      var k, rest := order[0], order[1..];
      FlagsOfFirst(cmd.flags, flags, order);
      assert PairEffect(cmd, k, flags[k]) == WithFlag(cmd, k, flags[k]);
      FaithfulPairs(WithFlag(cmd, k, flags[k]), flags, rest);
    }
  }

  function NamesRead(names: seq<string>): seq<string> {
    seq(|names|, i requires 0 <= i < |names| => NameRead(names[i]))
  }

  lemma {:induction false} UncutBooleans(cmd: Command, booleans: seq<string>)
    requires forall b :: b in booleans ==> !Cut(b)
    ensures BooleansEffect(cmd, booleans) == cmd.(booleans := cmd.booleans + NamesRead(booleans))
    decreases |booleans|
  {
    if booleans == [] {
      assert cmd.booleans + NamesRead(booleans) == cmd.booleans;
    } else {
      assert !Cut(booleans[0]);
      UncutBooleans(NameAlone(cmd, booleans[0]), booleans[1..]);
      assert (cmd.booleans + [NameRead(booleans[0])]) + NamesRead(booleans[1..]) == cmd.booleans + NamesRead(booleans);
    }
  }

  /** A faithful command comes back with only the configuration flag set, whatever the map order. */
  lemma FaithfulRoundTrip(cmd: Command, order: seq<string>, option: string, path: string)
    requires Faithful(cmd) && Enumerates(order, cmd.flags.Keys) && '=' !in option
    ensures ParseTokens(Argv(cmd, order, option, path)) == Ok(Configured(cmd, option, path))
  {
    ArgvParsed(cmd, order, option, path);
    var start := Bare(cmd.command, cmd.subcommand).(args := cmd.args);
    FaithfulPairs(start, cmd.flags, order);
    assert start.flags + FlagsOf(cmd.flags, order) == cmd.flags;
    UncutBooleans(start.(flags := cmd.flags), cmd.booleans);
    assert forall i :: 0 <= i < |cmd.booleans| ==> cmd.booleans[i] in cmd.booleans;
    assert NamesRead(cmd.booleans) == cmd.booleans;
    assert start.booleans + cmd.booleans == cmd.booleans;
    assert Reread(cmd, order) == cmd;
  }

  // ---------------------------------------------------------------------------------------
  // No other command is read back

  ghost predicate NoCutKeys(cmd: Command) {
    forall k :: k in cmd.flags ==> !Cut(k)
  }

  /** Boolean flags whose name is not cut. */
  ghost function Plain(booleans: seq<string>): nat {
    Count(b => !Cut(b), booleans)
  }

  lemma PlainAppend(booleans: seq<string>, b: string)
    ensures Plain(booleans + [b]) == Plain(booleans) + (if Cut(b) then 0 else 1)
  {
    assert (booleans + [b])[..|booleans|] == booleans;
  }

  lemma ArgStaysProper(cmd: Command, tokens: seq<string>)
    requires tokens != [] && forall a :: a in cmd.args ==> FaithfulArg(a)
    ensures forall a :: a in ParseStep(cmd, tokens).0.args ==> FaithfulArg(a)
  {
  }

  /** The parser never takes a dashed token, other than a single dash, as a positional argument. */
  lemma {:induction false} ParsedArgsProper(cmd: Command, tokens: seq<string>)
    requires forall a :: a in cmd.args ==> FaithfulArg(a)
    ensures forall a :: a in ParseRest(cmd, tokens).args ==> FaithfulArg(a)
    decreases |tokens|
  {
    if tokens != [] {
      ArgStaysProper(cmd, tokens);
      var (cmd', used) := ParseStep(cmd, tokens);
      ParsedArgsProper(cmd', tokens[used..]);
    }
  }

  lemma NameAloneEffect(cmd: Command, name: string)
    requires NoCutKeys(cmd)
    ensures NoCutKeys(NameAlone(cmd, name))
    ensures Plain(NameAlone(cmd, name).booleans) == Plain(cmd.booleans) + (if Cut(name) then 0 else 1)
    ensures |NameAlone(cmd, name).booleans| == |cmd.booleans| + (if Cut(name) then 0 else 1)
  {
    if Cut(name) {
      CutFlagShape(name);
    } else {
      PlainAppend(cmd.booleans, NameRead(name));
    }
  }

  lemma DashedAloneEffect(cmd: Command, t: string)
    requires NoCutKeys(cmd) && Dashed(t)
    ensures NoCutKeys(DashedAlone(cmd, t))
    ensures Plain(DashedAlone(cmd, t).booleans) >= Plain(cmd.booleans)
  {
    if IsLong(t) {
      PlainAppend(cmd.booleans, ParseLongFlag(t).name);
    } else {
      PlainAppend(cmd.booleans, t[1..]);
    }
  }

  /** A flag whose value starts with a dash leaves its own name behind as a boolean flag. */
  lemma PairEffectNames(cmd: Command, name: string, value: string)
    requires NoCutKeys(cmd)
    ensures var r := PairEffect(cmd, name, value);
            && NoCutKeys(r)
            && Plain(r.booleans) >= Plain(cmd.booleans) + (if Dashed(value) && !Cut(name) then 1 else 0)
  {
    NameAloneEffect(cmd, name);
    if Dashed(value) {
      DashedAloneEffect(NameAlone(cmd, name), value);
    }
  }

  lemma {:induction false} PairsEffectNames(cmd: Command, flags: map<string, string>, order: seq<string>)
    requires NoCutKeys(cmd) && forall k :: k in order ==> k in flags
    ensures var r := PairsEffect(cmd, flags, order);
            && NoCutKeys(r)
            && Plain(r.booleans) >= Plain(cmd.booleans)
            && ((exists k :: k in order && Dashed(flags[k]) && !Cut(k)) ==> Plain(r.booleans) > Plain(cmd.booleans))
    decreases |order|
  {
    if order != [] {
      PairEffectNames(cmd, order[0], flags[order[0]]);
      PairsEffectNames(PairEffect(cmd, order[0], flags[order[0]]), flags, order[1..]);
    }
  }

  lemma {:induction false} PlainFirst(booleans: seq<string>)
    requires booleans != []
    ensures Plain(booleans) == (if Cut(booleans[0]) then 0 else 1) + Plain(booleans[1..])
  {
    if |booleans| == 1 {
      assert booleans == [] + [booleans[0]];
      PlainAppend([], booleans[0]);
    } else {
      var last := |booleans| - 1;
      PlainFirst(booleans[..last]);
      assert booleans == booleans[..last] + [booleans[last]];
      PlainAppend(booleans[..last], booleans[last]);
      assert booleans[1..] == booleans[..last][1..] + [booleans[last]];
      PlainAppend(booleans[..last][1..], booleans[last]);
    }
  }

  lemma {:induction false} BooleansEffectNames(cmd: Command, booleans: seq<string>)
    requires NoCutKeys(cmd)
    ensures var r := BooleansEffect(cmd, booleans);
            && NoCutKeys(r)
            && Plain(r.booleans) == Plain(cmd.booleans) + Plain(booleans)
            && |r.booleans| == |cmd.booleans| + Plain(booleans)
    decreases |booleans|
  {
    if booleans != [] {
      NameAloneEffect(cmd, booleans[0]);
      PlainFirst(booleans);
      BooleansEffectNames(NameAlone(cmd, booleans[0]), booleans[1..]);
    }
  }

  /** With values and names that are not cut, the vector sets flags and nothing else. */
  lemma {:induction false} UncutPairs(cmd: Command, flags: map<string, string>, order: seq<string>)
    requires forall k :: k in order ==> k in flags && !Cut(k) && !Dashed(flags[k])
    ensures var r := PairsEffect(cmd, flags, order);
            && r.booleans == cmd.booleans
            && ("-" in r.flags ==> "-" in cmd.flags)
    decreases |order|
  {
    if order != [] {
      UncutPairs(PairEffect(cmd, order[0], flags[order[0]]), flags, order[1..]);
    }
  }

  lemma RoundTripNeedsArgs(cmd: Command, order: seq<string>, option: string, path: string)
    requires Enumerates(order, cmd.flags.Keys)
    requires ParseTokens(Argv(cmd, order, option, path)) == Ok(Configured(cmd, option, path))
    ensures forall a :: a in cmd.args ==> FaithfulArg(a)
  {
    ParsedArgsProper(Bare(cmd.command, cmd.subcommand), Argv(cmd, order, option, path)[2..]);
  }

  /** Counting the uncut boolean flags rules out every value that starts with a dash. */
  lemma RoundTripNeedsValues(cmd: Command, order: seq<string>, option: string)
    requires Enumerates(order, cmd.flags.Keys)
    requires Reread(cmd, order).booleans == cmd.booleans
    requires forall k :: k in cmd.flags && k != option ==> k in Reread(cmd, order).flags
    requires '=' !in option
    ensures forall k :: k in cmd.flags ==> !Cut(k) && !Dashed(cmd.flags[k])
    ensures forall b :: b in cmd.booleans ==> !Cut(b)
  {
    var start := Bare(cmd.command, cmd.subcommand).(args := cmd.args);
    var paired := PairsEffect(start, cmd.flags, order);
    PairsEffectNames(start, cmd.flags, order);
    BooleansEffectNames(paired, cmd.booleans);
    assert forall k :: k in cmd.flags ==> !Cut(k);
    assert Plain(paired.booleans) == 0;
    assert forall k :: k in order ==> !Dashed(cmd.flags[k]);
    UncutPairs(start, cmd.flags, order);
    assert |cmd.booleans| == Plain(cmd.booleans);
    CountAllOrNot(b => !Cut(b), cmd.booleans);
  }

  /** Without cut names and dashed values only the name "-" is misread. */
  lemma RoundTripNeedsNames(cmd: Command, order: seq<string>)
    requires Enumerates(order, cmd.flags.Keys)
    requires forall k :: k in cmd.flags ==> !Cut(k) && !Dashed(cmd.flags[k])
    requires forall b :: b in cmd.booleans ==> !Cut(b)
    requires Reread(cmd, order).booleans == cmd.booleans
    requires "-" in cmd.flags ==> "-" in Reread(cmd, order).flags
    ensures "-" !in cmd.flags && "-" !in cmd.booleans
  {
    var start := Bare(cmd.command, cmd.subcommand).(args := cmd.args);
    UncutPairs(start, cmd.flags, order);
    var paired := PairsEffect(start, cmd.flags, order);
    UncutBooleans(paired, cmd.booleans);
    assert cmd.booleans == paired.booleans + NamesRead(cmd.booleans);
    forall i | 0 <= i < |cmd.booleans| ensures cmd.booleans[i] != "-" {
      assert cmd.booleans[i] == NamesRead(cmd.booleans)[i];
    }
  }

  lemma SameConfigured(a: Command, b: Command, option: string, path: string)
    requires Configured(a, option, path) == Configured(b, option, path)
    ensures a.booleans == b.booleans
    ensures forall k :: k != option ==> (k in a.flags <==> k in b.flags)
  {
    assert forall k :: k != option ==> (k in Configured(a, option, path).flags <==> k in a.flags);
    assert forall k :: k != option ==> (k in Configured(b, option, path).flags <==> k in b.flags);
  }

  lemma RoundTripNeedsFaithful(cmd: Command, order: seq<string>, option: string, path: string)
    requires Enumerates(order, cmd.flags.Keys) && '=' !in option && option != "-"
    requires ParseTokens(Argv(cmd, order, option, path)) == Ok(Configured(cmd, option, path))
    ensures Faithful(cmd)
  {
    RoundTripNeedsArgs(cmd, order, option, path);
    ArgvParsed(cmd, order, option, path);
    SameConfigured(Reread(cmd, order), cmd, option, path);
    RoundTripNeedsValues(cmd, order, option);
    RoundTripNeedsNames(cmd, order);
  }

  /**
   Building and parsing again gives back the same command, with only the configuration flag set,
   exactly for the faithful commands, in every iteration order of the flag map.
   */
  lemma RoundTripIff(cmd: Command, order: seq<string>, option: string, path: string)
    requires Enumerates(order, cmd.flags.Keys) && '=' !in option && option != "-"
    ensures ParseTokens(Argv(cmd, order, option, path)) == Ok(Configured(cmd, option, path)) <==> Faithful(cmd)
  {
    if Faithful(cmd) {
      FaithfulRoundTrip(cmd, order, option, path);
    }
    if ParseTokens(Argv(cmd, order, option, path)) == Ok(Configured(cmd, option, path)) {
      RoundTripNeedsFaithful(cmd, order, option, path);
    }
  }
}
