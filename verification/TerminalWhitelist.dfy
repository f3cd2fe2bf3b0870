/** The read-only whitelist, and its verdict on a command and on the vector built for it. */
module TerminalWhitelist {
  import opened Common
  import opened TerminalParser
  import opened TerminalArgv
  import TerminalTokens

  /** The list of allowed subcommands of each command, and the list of flags that would stream. */
  datatype Policy = Policy(commands: map<string, seq<string>>, blocked: seq<string>)

  datatype Verdict = Permitted | CommandNotFound | CommandNotPermitted

  function ReadOnlySubcommands(): seq<string> {
    ["get", "describe", "logs", "top", "explain", "version", "api-resources", "api-versions", "cluster-info"]
  }

  function TerminalPolicy(): Policy {
    Policy(map["kubectl" := ReadOnlySubcommands(), "oc" := ReadOnlySubcommands()],
           ["watch", "w", "follow", "f", "watch-only"])
  }

  /** An empty subcommand is allowed: it shows the help text. */
  function ValidateCommand(policy: Policy, cmd: Command): Verdict {
    if cmd.command !in policy.commands then CommandNotFound
    else if cmd.subcommand != "" && cmd.subcommand !in policy.commands[cmd.command] then CommandNotPermitted
    else if exists f :: f in policy.blocked && (f in cmd.booleans || f in cmd.flags) then CommandNotPermitted
    else Permitted
  }

  /** Whether the flag is given, with or without a value. */
  ghost predicate Given(cmd: Command, name: string) {
    name in cmd.flags || name in cmd.booleans
  }

  lemma VerdictMeaning(policy: Policy, cmd: Command)
    ensures ValidateCommand(policy, cmd) == Permitted <==>
        && cmd.command in policy.commands
        && (cmd.subcommand == "" || cmd.subcommand in policy.commands[cmd.command])
        && forall f :: f in policy.blocked ==> !Given(cmd, f)
  {
    if f :| f in policy.blocked && Given(cmd, f) {
      assert f in policy.blocked && (f in cmd.booleans || f in cmd.flags);
    }
  }

  method IsSubcommandAllowed(policy: Policy, command: string, subcommand: string) returns (allowed: bool)
    ensures allowed <==> command in policy.commands && subcommand in policy.commands[command]
  {
    if command !in policy.commands {
      return false;
    }
    var list := policy.commands[command];
    for i := 0 to |list|
      invariant subcommand !in list[..i]
    {
      if list[i] == subcommand {
        return true;
      }
    }
    return false;
  }

  /** The search of the service: each blocked flag among the boolean flags, then among the valued ones. */
  method CheckCommand(policy: Policy, cmd: Command) returns (verdict: Verdict)
    ensures verdict == ValidateCommand(policy, cmd)
    ensures verdict == CommandNotFound <==> cmd.command !in policy.commands
    ensures verdict == Permitted <==>
        && cmd.command in policy.commands
        && (cmd.subcommand == "" || cmd.subcommand in policy.commands[cmd.command])
        && forall f :: f in policy.blocked ==> !Given(cmd, f)
  {
    if cmd.command !in policy.commands {
      return CommandNotFound;
    }
    if cmd.subcommand != "" {
      var allowed := IsSubcommandAllowed(policy, cmd.command, cmd.subcommand);
      if !allowed {
        return CommandNotPermitted;
      }
    }
    for i := 0 to |policy.blocked|
      invariant forall f :: f in policy.blocked[..i] ==> !Given(cmd, f)
    {
      var blockedFlag := policy.blocked[i];
      for j := 0 to |cmd.booleans|
        invariant blockedFlag !in cmd.booleans[..j]
      {
        if cmd.booleans[j] == blockedFlag {
          assert blockedFlag in policy.blocked && Given(cmd, blockedFlag);
          return CommandNotPermitted;
        }
      }
      if blockedFlag in cmd.flags {
        return CommandNotPermitted;
      }
    }
    assert policy.blocked[..|policy.blocked|] == policy.blocked;
    VerdictMeaning(policy, cmd);
    return Permitted;
  }

  // ---------------------------------------------------------------------------------------
  // What the verdict means for a typed text

  /** The token gives the flag: `--name`, `--name=value` or `-name`. */
  ghost predicate Names(token: string, name: string) {
    || ('=' !in name && token == "--" + name)
    || ('=' !in name && exists value :: token == "--" + name + "=" + value)
    || (name != "" && name[0] != '-' && token == "-" + name)
  }

  /** A long flag is named by its token alone up to the first '='. */
  lemma LongNames(token: string, name: string)
    requires IsLong(token)
    ensures Names(token, name) <==> ParseLongFlag(token).name == name
  {
    var flag := ParseLongFlag(token);
    assert token == "--" + token[2..];
    if flag.name == name && flag.value.Some? {
      assert token == "--" + name + "=" + flag.value.value;
    }
    if value :| '=' !in name && token == "--" + name + "=" + value {
      EmbeddedName(token, name, value);
    } else if '=' !in name && token == "--" + name {
      assert token[2..] == name;
    }
  }

  lemma EmbeddedName(token: string, name: string, value: string)
    requires '=' !in name && token == "--" + name + "=" + value
    ensures ParseLongFlag(token).name == name
  {
    assert token[2..] == name + ['='] + value;
    EqualsAtCut(name, value);
    assert (name + ['='] + value)[..|name|] == name;
  }

  lemma ShortNames(token: string, name: string)
    requires !IsLong(token)
    ensures Names(token, name) <==> IsShort(token) && token[1..] == name
  {
    if IsShort(token) && token[1..] == name {
      assert token == "-" + name;
    }
    if name != "" && token == "-" + name {
      assert token[1..] == name;
    }
  }

  /** Whatever follows the subcommand, exactly the flags named by some token are given. */
  lemma {:induction false} GivenIffNamed(cmd: Command, tokens: seq<string>, name: string)
    ensures Given(ParseRest(cmd, tokens), name) <==> Given(cmd, name) || exists t :: t in tokens && Names(t, name)
    ensures ParseRest(cmd, tokens).command == cmd.command && ParseRest(cmd, tokens).subcommand == cmd.subcommand
    decreases |tokens|
  {
    if tokens != [] {
      var (cmd', used) := ParseStep(cmd, tokens);
      GivenIffNamed(cmd', tokens[used..], name);
      assert tokens == tokens[..used] + tokens[used..];
      StepNames(cmd, tokens, name);
    }
  }

  lemma StepNames(cmd: Command, tokens: seq<string>, name: string)
    requires tokens != []
    ensures var (cmd', used) := ParseStep(cmd, tokens);
            Given(cmd', name) <==> Given(cmd, name) || exists t :: t in tokens[..used] && Names(t, name)
  {
    var (cmd', used) := ParseStep(cmd, tokens);
    if IsLong(tokens[0]) {
      LongNames(tokens[0], name);
    } else {
      ShortNames(tokens[0], name);
    }
    if used == 2 {
      ShortNames(tokens[1], name);
      assert tokens[..used] == [tokens[0], tokens[1]];
    } else {
      assert tokens[..used] == [tokens[0]];
    }
  }

  /** The token names one of the flags that would stream. */
  ghost predicate Streams(token: string) {
    exists f :: f in {"watch", "w", "follow", "f", "watch-only"} && Names(token, f)
  }

  ghost predicate ReadOnly(subcommand: string) {
    subcommand in {"get", "describe", "logs", "top", "explain", "version", "api-resources", "api-versions",
        "cluster-info"}
  }

  lemma PolicyLists(cmd: Command)
    ensures var v := ValidateCommand(TerminalPolicy(), cmd);
            && (v == CommandNotFound <==> cmd.command != "kubectl" && cmd.command != "oc")
            && (v == Permitted <==>
                 && (cmd.command == "kubectl" || cmd.command == "oc")
                 && (cmd.subcommand == "" || ReadOnly(cmd.subcommand))
                 && forall f :: f in {"watch", "w", "follow", "f", "watch-only"} ==> !Given(cmd, f))
  {
    var policy := TerminalPolicy();
    VerdictMeaning(policy, cmd);
    assert forall f :: f in policy.blocked <==> f in {"watch", "w", "follow", "f", "watch-only"};
    assert ReadOnly(cmd.subcommand) <==> cmd.subcommand in ReadOnlySubcommands();
    assert cmd.command in policy.commands ==> policy.commands[cmd.command] == ReadOnlySubcommands();
  }

  /**
   The verdict read off the tokens of the typed text: permitted exactly when the first is kubectl or oc,
   the second, if any, a read-only subcommand, and no later one names a flag that would stream; not
   found exactly when the first is neither; not permitted otherwise.
   */
  lemma TypedVerdict(text: string, tokens: seq<string>)
    requires text != "" && Tokens(text) == Some(tokens) && tokens != []
    ensures Parsed(text).Ok?
    ensures var v := ValidateCommand(TerminalPolicy(), Parsed(text).value);
            var known := tokens[0] == "kubectl" || tokens[0] == "oc";
            var allowed := (|tokens| > 1 ==> ReadOnly(tokens[1])) && forall i :: 2 <= i < |tokens| ==>
                !Streams(tokens[i]);
            && (v == CommandNotFound <==> !known)
            && (v == Permitted <==> known && allowed)
            && (v == CommandNotPermitted <==> known && !allowed)
  {
    var cmd := Parsed(text).value;
    PolicyLists(cmd);
    if |tokens| > 1 {
      var rest := tokens[2..];
      TerminalTokens.TokensKeepLiterals(text);
      GivenIffNamed(Bare(tokens[0], tokens[1]), rest, "");
      forall f ensures Given(cmd, f) <==> exists t :: t in rest && Names(t, f) {
        GivenIffNamed(Bare(tokens[0], tokens[1]), rest, f);
      }
      StreamsIffGiven(cmd, tokens, rest);
    }
  }

  lemma StreamsIffGiven(cmd: Command, tokens: seq<string>, rest: seq<string>)
    requires |tokens| > 1 && rest == tokens[2..]
    requires forall f :: Given(cmd, f) <==> exists t :: t in rest && Names(t, f)
    ensures (forall f :: f in {"watch", "w", "follow", "f", "watch-only"} ==> !Given(cmd, f)) <==>
        forall i :: 2 <= i < |tokens| ==> !Streams(tokens[i])
  {
    if i :| 2 <= i < |tokens| && Streams(tokens[i]) {
      var f :| f in {"watch", "w", "follow", "f", "watch-only"} && Names(tokens[i], f);
      assert tokens[i] == rest[i - 2];
      assert Given(cmd, f);
    } else {
      forall f | f in {"watch", "w", "follow", "f", "watch-only"} ensures !Given(cmd, f) {
        forall t | t in rest ensures !Names(t, f) {
          var j :| 0 <= j < |rest| && rest[j] == t;
          assert tokens[j + 2] == t && !Streams(tokens[j + 2]);
        }
      }
    }
  }

  /** The verdict is unchanged by setting a flag that is not blocked. */
  lemma ConfigurationKeepsVerdict(policy: Policy, cmd: Command, option: string, path: string)
    requires option !in policy.blocked
    ensures ValidateCommand(policy, Configured(cmd, option, path)) == ValidateCommand(policy, cmd)
  {
    var configured := Configured(cmd, option, path);
    assert forall f :: f in policy.blocked ==> (f in configured.flags <==> f in cmd.flags);
  }

  /** Arguments the parser produced are always read back as arguments. */
  lemma ParsedIsProper(text: string)
    requires Parsed(text).Ok?
    ensures forall a :: a in Parsed(text).value.args ==> FaithfulArg(a)
  {
    var tokens := Tokens(text).value;
    if |tokens| >= 2 {
      ParsedArgsProper(Bare(tokens[0], tokens[1]), tokens[2..]);
    }
  }

  /**
   End to end: what the user typed and what the vector says agree, up to the configuration flag,
   exactly when no flag name is cut or is a dash and no flag value starts with a dash; and then the
   whitelist decides the same on both.
   */
  lemma TypedCommandRoundTrip(policy: Policy, text: string, order: seq<string>, option: string, path: string)
    requires Parsed(text).Ok? && Enumerates(order, Parsed(text).value.flags.Keys)
    requires '=' !in option && option != "-" && option !in policy.blocked
    ensures var cmd := Parsed(text).value;
            var again := ParseTokens(Argv(cmd, order, option, path));
            && (again == Ok(Configured(cmd, option, path)) <==> FaithfulFlags(cmd))
            && (FaithfulFlags(cmd) ==>
                again.Ok? && ValidateCommand(policy, again.value) ==
                ValidateCommand(policy, cmd))
  {
    var cmd := Parsed(text).value;
    ParsedIsProper(text);
    RoundTripIff(cmd, order, option, path);
    ConfigurationKeepsVerdict(policy, cmd, option, path);
  }

  /** The configuration flag the service adds meets the conditions above. */
  lemma KubeconfigIsNotBlocked()
    ensures "kubeconfig" !in TerminalPolicy().blocked && '=' !in "kubeconfig" && "kubeconfig" != "-"
  {
    assert |"kubeconfig"| == 10 && |"watch-only"| == 10 && "kubeconfig"[0] == 'k' && "watch-only"[0] == 'w';
  }

  /** The failing family is reachable: a value embedded with '=' may start with a dash. */
  lemma EmbeddedDashIsLost(command: string, subcommand: string, name: string, rest: string, path: string)
    requires '=' !in name && name != "-"
    ensures var value := ['-'] + rest;
            var parsed := ParseTokens([command, subcommand, ConfigToken(name, value)]);
            && parsed == Ok(Command(command, subcommand, [], map[name := value], []))
            && !FaithfulFlags(parsed.value)
            && ParseTokens(Argv(parsed.value, [name], "kubeconfig", path)) != Ok(Configured(parsed.value,
                "kubeconfig", path))
  {
    var value := ['-'] + rest;
    var tokens := [command, subcommand, ConfigToken(name, value)];
    assert tokens[2..] == [ConfigToken(name, value)];
    ConfigParsed(Bare(command, subcommand), name, value);
    var cmd := Command(command, subcommand, [], map[name := value], []);
    assert Dashed(cmd.flags[name]);
    KubeconfigIsNotBlocked();
    RoundTripIff(cmd, [name], "kubeconfig", path);
  }
}
