/** The terminal's tokeniser and command parser, with the loops the service runs. */
module TerminalParser {
  import opened Common

  datatype Command = Command(
    command: string,
    subcommand: string,
    args: seq<string>,
    flags: map<string, string>,
    booleans: seq<string>)

  datatype ParseError = EmptyCommand | UnclosedQuote | NoTokens

  // ---------------------------------------------------------------------------------------
  // Tokens

  predicate IsQuote(c: char) { c == '"' || c == '\'' }

  predicate IsBlank(c: char) { c == ' ' || c == '\t' }

  /** The scanner's state: finished tokens, the token being read and the quote it is inside of. */
  datatype Scanner = Scanner(tokens: seq<string>, current: string, quote: Option<char>)

  function Flushed(s: Scanner): Scanner {
    if s.current == "" then s else s.(tokens := s.tokens + [s.current], current := "")
  }

  function ScanChar(s: Scanner, c: char): Scanner {
    if IsQuote(c) then
      if s.quote.None? then s.(quote := Some(c))
      else if s.quote.value == c then s.(quote := None)
      else s.(current := s.current + [c])
    else if IsBlank(c) then
      if s.quote.Some? then s.(current := s.current + [c]) else Flushed(s)
    else s.(current := s.current + [c])
  }

  function ScanFrom(s: Scanner, text: string): Scanner {
    if text == "" then s else ScanChar(ScanFrom(s, text[..|text| - 1]), text[|text| - 1])
  }

  const SCAN_START := Scanner([], "", None)

  function Tokens(text: string): Option<seq<string>> {
    var s := ScanFrom(SCAN_START, text);
    if s.quote.Some? then None else Some(Flushed(s).tokens)
  }

  method Tokenize(text: string) returns (r: Option<seq<string>>)
    ensures r == Tokens(text)
  {
    var tokens: seq<string>, current, inQuote, quoteChar := [], "", false, ' ';
    for i := 0 to |text|
      invariant ScanFrom(SCAN_START, text[..i]) == Scanner(tokens, current, if inQuote then Some(quoteChar) else None)
    {
      assert text[..i + 1][..i] == text[..i];
      var c := text[i];
      if c == '"' || c == '\'' {
        if !inQuote {
          inQuote, quoteChar := true, c;
        } else if c == quoteChar {
          inQuote := false;
        } else {
          current := current + [c];
        }
      } else if c == ' ' || c == '\t' {
        if inQuote {
          current := current + [c];
        } else if |current| > 0 {
          tokens := tokens + [current];
          current := "";
        }
      } else {
        current := current + [c];
      }
    }
    assert text[..|text|] == text;
    if inQuote {
      return None;
    }
    if |current| > 0 {
      tokens := tokens + [current];
    }
    return Some(tokens);
  }

  // ---------------------------------------------------------------------------------------
  // Flags and arguments

  predicate Dashed(t: string) { t != "" && t[0] == '-' }

  predicate IsLong(t: string) { |t| >= 2 && t[0] == '-' && t[1] == '-' }

  predicate IsShort(t: string) { Dashed(t) && !IsLong(t) && |t| > 1 }

  /** Position of the first '='. */
  function EqualsAt(s: string): (r: Option<nat>)
    ensures r.Some? ==> r.value < |s| && s[r.value] == '=' && '=' !in s[..r.value]
    ensures r.None? <==> '=' !in s
  {
    if s == "" then None
    else if s[0] == '=' then Some(0)
    else match EqualsAt(s[1..])
      case None => None
      case Some(i) =>
        assert s[..i + 1] == [s[0]] + s[1..][..i];
        Some(i + 1)
  }

  datatype LongFlag = LongFlag(name: string, value: Option<string>)

  /** parseLongFlag, for a token that starts with two dashes. */
  function ParseLongFlag(t: string): LongFlag
    requires IsLong(t)
  {
    match EqualsAt(t[2..])
    case None => LongFlag(t[2..], None)
    case Some(i) => LongFlag(t[2..][..i], Some(t[2..][i + 1..]))
  }

  function WithFlag(cmd: Command, name: string, value: string): Command {
    cmd.(flags := cmd.flags[name := value])
  }

  function WithBoolean(cmd: Command, name: string): Command {
    cmd.(booleans := cmd.booleans + [name])
  }

  function WithArg(cmd: Command, arg: string): Command {
    cmd.(args := cmd.args + [arg])
  }

  /** A flag name given without '=': the next token is its value unless it starts with a dash. */
  function NamedFlag(cmd: Command, name: string, next: seq<string>): (r: (Command, nat))
    ensures r.1 == 1 || (r.1 == 2 && next != [])
  {
    if next != [] && !Dashed(next[0]) then (WithFlag(cmd, name, next[0]), 2) else (WithBoolean(cmd, name), 1)
  }

  /** One turn of the parser loop: the new command and the number of tokens used. */
  function ParseStep(cmd: Command, tokens: seq<string>): (r: (Command, nat))
    requires tokens != []
    ensures 1 <= r.1 <= |tokens|
  {
    var t := tokens[0];
    if IsLong(t) then
      var flag := ParseLongFlag(t);
      if flag.value.Some? then (WithFlag(cmd, flag.name, flag.value.value), 1)
      else NamedFlag(cmd, flag.name, tokens[1..])
    else if IsShort(t) then NamedFlag(cmd, t[1..], tokens[1..])
    else (WithArg(cmd, t), 1)
  }

  function ParseRest(cmd: Command, tokens: seq<string>): Command
    decreases |tokens|
  {
    if tokens == [] then cmd
    else
      var (cmd', used) := ParseStep(cmd, tokens);
      ParseRest(cmd', tokens[used..])
  }

  function Bare(command: string, subcommand: string): Command {
    Command(command, subcommand, [], map[], [])
  }

  function ParseTokens(tokens: seq<string>): Result<Command, ParseError> {
    if tokens == [] then Err(NoTokens)
    else if |tokens| == 1 then Ok(Bare(tokens[0], ""))
    else Ok(ParseRest(Bare(tokens[0], tokens[1]), tokens[2..]))
  }

  function Parsed(text: string): Result<Command, ParseError> {
    if text == "" then Err(EmptyCommand)
    else match Tokens(text)
      case None => Err(UnclosedQuote)
      case Some(tokens) => ParseTokens(tokens)
  }

  method ParseCommand(text: string) returns (r: Result<Command, ParseError>)
    ensures r == Parsed(text)
    ensures r == Err(EmptyCommand) <==> text == ""
    ensures r == Err(UnclosedQuote) <==> text != "" && Tokens(text) == None
    ensures r == Err(NoTokens) <==> text != "" && Tokens(text) == Some([])
  {
    if text == "" {
      return Err(EmptyCommand);
    }
    var scanned := Tokenize(text);
    if scanned.None? {
      return Err(UnclosedQuote);
    }
    r := ParseTokenList(scanned.value);
  }

  /** The parser loop over an argument vector. */
  method ParseTokenList(tokens: seq<string>) returns (r: Result<Command, ParseError>)
    ensures r == ParseTokens(tokens)
  {
    if |tokens| == 0 {
      return Err(NoTokens);
    }
    var cmd := Command(tokens[0], "", [], map[], []);
    if |tokens| >= 2 {
      cmd := cmd.(subcommand := tokens[1]);
    } else {
      return Ok(cmd);
    }
    var i := 2;
    while i < |tokens|
      invariant 2 <= i <= |tokens|
      invariant ParseRest(Bare(tokens[0], tokens[1]), tokens[2..]) == ParseRest(cmd, tokens[i..])
    {
      var token := tokens[i];
      assert tokens[i..][1..] == tokens[i + 1..];
      assert i + 1 < |tokens| ==> tokens[i..][2..] == tokens[i + 2..];
      if |token| >= 2 && token[0] == '-' && token[1] == '-' {
        var flag := ParseLongFlag(token);
        if flag.value.Some? {
          cmd := cmd.(flags := cmd.flags[flag.name := flag.value.value]);
          i := i + 1;
        } else if i + 1 < |tokens| && !Dashed(tokens[i + 1]) {
          cmd := cmd.(flags := cmd.flags[flag.name := tokens[i + 1]]);
          i := i + 2;
        } else {
          cmd := cmd.(booleans := cmd.booleans + [flag.name]);
          i := i + 1;
        }
      } else if Dashed(token) && |token| > 1 {
        var flagName := token[1..];
        if i + 1 < |tokens| && !Dashed(tokens[i + 1]) {
          cmd := cmd.(flags := cmd.flags[flagName := tokens[i + 1]]);
          i := i + 2;
        } else {
          cmd := cmd.(booleans := cmd.booleans + [flagName]);
          i := i + 1;
        }
      } else {
        cmd := cmd.(args := cmd.args + [token]);
        i := i + 1;
      }
    }
    return Ok(cmd);
  }
}
