/** What the tokeniser computes, described without its loop. */
module TerminalTokens {
  import opened Common
  import opened TerminalParser

  // ---------------------------------------------------------------------------------------
  // A two-pass description: first decide the role of every character, then split into runs.

  /** The quote in force after `text`. */
  function QuoteAfter(text: string): Option<char> {
    if text == "" then None
    else
      var before, c := QuoteAfter(text[..|text| - 1]), text[|text| - 1];
      if c != '"' && c != '\'' then before
      else if before.None? then Some(c)
      else if before.value == c then None
      else before
  }

  /** `Literal` characters belong to a token, a `Gap` separates tokens. */
  datatype Mark = Literal(c: char) | Gap

  /** Roles of the characters: delimiting quotes vanish, unquoted blanks are gaps, all others are literal. */
  function Marks(text: string): seq<Mark> {
    if text == "" then []
    else
      var before, quote, c := Marks(text[..|text| - 1]), QuoteAfter(text[..|text| - 1]), text[|text| - 1];
      if (c == '"' || c == '\'') && (quote.None? || quote.value == c) then before
      else if (c == ' ' || c == '\t') && quote.None? then before + [Gap]
      else before + [Literal(c)]
  }

  /** The literal characters after the last gap. */
  function LastRun(marks: seq<Mark>): string {
    if marks == [] || marks[|marks| - 1].Gap? then ""
    else LastRun(marks[..|marks| - 1]) + [marks[|marks| - 1].c]
  }

  /** The non-empty runs that are closed by a gap. */
  function ClosedRuns(marks: seq<Mark>): seq<string> {
    if marks == [] then []
    else
      var front := marks[..|marks| - 1];
      if marks[|marks| - 1].Gap? && LastRun(front) != "" then ClosedRuns(front) + [LastRun(front)]
          else ClosedRuns(front)
  }

  /** All non-empty maximal runs of literal characters. */
  function Runs(marks: seq<Mark>): seq<string> {
    ClosedRuns(marks) + (if LastRun(marks) == "" then [] else [LastRun(marks)])
  }

  lemma {:induction false} ScanIsTwoPass(text: string)
    ensures ScanFrom(SCAN_START, text) == Scanner(ClosedRuns(Marks(text)), LastRun(Marks(text)), QuoteAfter(text))
  {
    if text != "" {
      var front := text[..|text| - 1];
      ScanIsTwoPass(front);
      var c := text[|text| - 1];
      assert (Marks(front) + [Gap])[..|Marks(front)|] == Marks(front);
      assert (Marks(front) + [Literal(c)])[..|Marks(front)|] == Marks(front);
    }
  }

  /**
   The tokeniser fails exactly on texts that end inside a quote, and otherwise yields the runs of
   literal characters.
   */
  lemma TokensAreRuns(text: string)
    ensures Tokens(text).None? <==> QuoteAfter(text).Some?
    ensures Tokens(text).Some? ==> Tokens(text).value == Runs(Marks(text))
  {
    ScanIsTwoPass(text);
  }

  function Flat(tokens: seq<string>): string {
    if tokens == [] then "" else Flat(tokens[..|tokens| - 1]) + tokens[|tokens| - 1]
  }

  /** The literal characters in order. */
  function Literals(marks: seq<Mark>): string {
    if marks == [] then ""
    else
      var front := Literals(marks[..|marks| - 1]);
      if marks[|marks| - 1].Gap? then front else front + [marks[|marks| - 1].c]
  }

  lemma {:induction false} ClosedRunsKeep(marks: seq<Mark>)
    ensures Flat(ClosedRuns(marks)) + LastRun(marks) == Literals(marks)
    ensures forall i :: 0 <= i < |ClosedRuns(marks)| ==> ClosedRuns(marks)[i] != ""
  {
    if marks != [] {
      var front := marks[..|marks| - 1];
      ClosedRunsKeep(front);
      var last := marks[|marks| - 1];
      if last.Gap? && LastRun(front) != "" {
        var runs := ClosedRuns(front) + [LastRun(front)];
        assert runs[..|runs| - 1] == ClosedRuns(front);
      }
    }
  }

  /** No token is empty, and together the tokens are the literal characters in order. */
  lemma TokensKeepLiterals(text: string)
    requires Tokens(text).Some?
    ensures forall i :: 0 <= i < |Tokens(text).value| ==> Tokens(text).value[i] != ""
    ensures Flat(Tokens(text).value) == Literals(Marks(text))
  {
    TokensAreRuns(text);
    var marks := Marks(text);
    ClosedRunsKeep(marks);
    var all := Runs(marks);
    if LastRun(marks) != "" {
      assert all[..|all| - 1] == ClosedRuns(marks);
    } else {
      assert all == ClosedRuns(marks);
      assert Flat(all) + "" == Flat(all);
    }
  }

  // ---------------------------------------------------------------------------------------
  // Quoting and joining

  /** Each token wrapped in its quote character, joined by single blanks. */
  function QuoteJoin(tokens: seq<string>, quotes: seq<char>): string
    requires |tokens| == |quotes|
  {
    if tokens == [] then ""
    else
      var n := |tokens| - 1;
      QuoteJoin(tokens[..n], quotes[..n]) + (if n == 0 then "" else " ") + [quotes[n]] + tokens[n] + [quotes[n]]
  }

  lemma {:induction false} ScanAppend(s: Scanner, a: string, b: string)
    ensures ScanFrom(s, a + b) == ScanFrom(ScanFrom(s, a), b)
  {
    if b == "" {
      assert a + b == a;
    } else {
      var front := b[..|b| - 1];
      assert (a + b)[..|a + b| - 1] == a + front;
      ScanAppend(s, a, front);
    }
  }

  lemma {:induction false} InsideQuote(s: Scanner, text: string)
    requires s.quote.Some? && s.quote.value !in text
    ensures ScanFrom(s, text) == s.(current := s.current + text)
  {
    if text == "" {
      assert s.current + text == s.current;
    } else {
      var front, c := text[..|text| - 1], text[|text| - 1];
      InsideQuote(s, front);
      assert c != s.quote.value;
      assert (s.current + front) + [c] == s.current + text;
    }
  }

  lemma ScanOne(s: Scanner, c: char)
    ensures ScanFrom(s, [c]) == ScanChar(s, c)
  {
    assert [c][..0] == "";
  }

  lemma QuotedToken(s: Scanner, token: string, q: char)
    requires s.quote.None? && IsQuote(q) && q !in token
    ensures ScanFrom(s, [q] + token + [q]) == s.(current := s.current + token)
  {
    ScanAppend(s, [q] + token, [q]);
    ScanAppend(s, [q], token);
    ScanOne(s, q);
    InsideQuote(s.(quote := Some(q)), token);
    ScanOne(s.(quote := Some(q), current := s.current + token), q);
  }

  /** A further quoted token after a blank ends the current token and becomes the new one. */
  lemma NextQuotedToken(before: string, token: string, q: char)
    requires ScanFrom(SCAN_START, before).quote.None? && IsQuote(q) && q !in token
    ensures ScanFrom(SCAN_START, (before + " ") + ([q] + token + [q]))
         == Scanner(Flushed(ScanFrom(SCAN_START, before)).tokens, token, None)
  {
    var s := ScanFrom(SCAN_START, before);
    ScanAppend(SCAN_START, before + " ", [q] + token + [q]);
    ScanAppend(SCAN_START, before, " ");
    ScanOne(s, ' ');
    QuotedToken(Flushed(s), token, q);
    assert "" + token == token;
  }

  lemma {:induction false} JoinScan(tokens: seq<string>, quotes: seq<char>)
    requires |tokens| == |quotes|
    requires forall i :: 0 <= i < |tokens| ==> tokens[i] != "" && IsQuote(quotes[i]) && quotes[i] !in tokens[i]
    ensures ScanFrom(SCAN_START, QuoteJoin(tokens, quotes))
         == if tokens == [] then SCAN_START else Scanner(tokens[..|tokens| - 1], tokens[|tokens| - 1], None)
  {
    if tokens != [] {
      var n := |tokens| - 1;
      JoinScan(tokens[..n], quotes[..n]);
      if n == 0 {
        FirstJoined(tokens, quotes);
      } else {
        assert tokens[..n][..n - 1] == tokens[..n - 1];
        JoinedIs(tokens, quotes);
        TokenFinished(QuoteJoin(tokens[..n], quotes[..n]), tokens[..n - 1], tokens[n - 1], tokens[n], quotes[n]);
        assert tokens[..n] == tokens[..n - 1] + [tokens[n - 1]];
      }
    }
  }

  lemma FirstJoined(tokens: seq<string>, quotes: seq<char>)
    requires |tokens| == |quotes| == 1 && IsQuote(quotes[0]) && quotes[0] !in tokens[0]
    ensures ScanFrom(SCAN_START, QuoteJoin(tokens, quotes)) == Scanner([], tokens[0], None)
  {
    assert QuoteJoin(tokens, quotes) == [quotes[0]] + tokens[0] + [quotes[0]];
    QuotedToken(SCAN_START, tokens[0], quotes[0]);
    assert "" + tokens[0] == tokens[0];
  }

  /** What was the current token is finished by the blank. */
  lemma TokenFinished(before: string, done: seq<string>, current: string, token: string, q: char)
    requires ScanFrom(SCAN_START, before) == Scanner(done, current, None) && current != ""
    requires IsQuote(q) && q !in token
    ensures ScanFrom(SCAN_START, (before + " ") + ([q] + token + [q])) == Scanner(done + [current], token, None)
  {
    NextQuotedToken(before, token, q);
  }

  lemma JoinedIs(tokens: seq<string>, quotes: seq<char>)
    requires |tokens| == |quotes| > 1
    ensures var n := |tokens| - 1;
            QuoteJoin(tokens, quotes) ==
              (QuoteJoin(tokens[..n], quotes[..n]) + " ") + ([quotes[n]] + tokens[n] + [quotes[n]])
  {
  }

  /** Tokenising undoes quoting and joining, for any non-empty tokens and any quote characters they do not contain. */
  lemma TokenizeUndoesJoin(tokens: seq<string>, quotes: seq<char>)
    requires |tokens| == |quotes|
    requires forall i :: 0 <= i < |tokens| ==> tokens[i] != "" && quotes[i] !in tokens[i]
    requires forall i :: 0 <= i < |tokens| ==> quotes[i] == '"' || quotes[i] == '\''
    ensures Tokens(QuoteJoin(tokens, quotes)) == Some(tokens)
  {
    JoinScan(tokens, quotes);
    var s := ScanFrom(SCAN_START, QuoteJoin(tokens, quotes));
    if tokens == [] {
      assert s == SCAN_START;
    } else {
      var n := |tokens| - 1;
      assert s == Scanner(tokens[..n], tokens[n], None) && tokens[n] != "";
      assert tokens == tokens[..n] + [tokens[n]];
    }
  }
}
