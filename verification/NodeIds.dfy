/**
 Node identifiers: how a graph node's ID becomes a Kubernetes label value and object-name
 suffix, and which graphs pass validation.

 Strings are sequences of Unicode scalar values, as Go's `range` sees them. Case folding is a
 parameter: Go lowers rune by rune, and all that is used of it is that characters which are
 already legal are left alone.
 */
module NodeIds {
  import opened Common

  const MAX_LABEL_VALUE_LENGTH := 63
  const MAX_NODE_ID_LENGTH := 253

  predicate Alphanumeric(c: char) {
    'a' <= c <= 'z' || '0' <= c <= '9'
  }

  predicate Separator(c: char) {
    c == '-' || c == '_' || c == '.'
  }

  predicate Legal(c: char) {
    Alphanumeric(c) || Separator(c)
  }

  /** What the proofs need to know about case folding. */
  ghost predicate KeepsLegal(lower: char -> char) {
    forall c :: Legal(c) ==> lower(c) == c
  }

  /** The syntax of a non-empty Kubernetes label value (lower-case letters only). */
  ghost predicate LabelValue(v: string) {
    && 1 <= |v| <= MAX_LABEL_VALUE_LENGTH
    && (forall i :: 0 <= i < |v| ==> Legal(v[i]))
    && Alphanumeric(v[0])
    && Alphanumeric(v[|v| - 1])
  }

  function LegalOr(c: char): char {
    if Legal(c) then c else '-'
  }

  function Replaced(lower: char -> char, s: string): string {
    seq(|s|, i requires 0 <= i < |s| => LegalOr(lower(s[i])))
  }

  function Truncated(s: string): string {
    if |s| > MAX_LABEL_VALUE_LENGTH then s[..MAX_LABEL_VALUE_LENGTH] else s
  }

  /** strings.TrimLeft(s, "-_.") */
  function TrimLeft(s: string): (t: string)
    ensures |t| <= |s| && forall i :: 0 <= i < |t| ==> t[i] in s
    ensures t != "" ==> !Separator(t[0])
    ensures s != "" && !Separator(s[0]) ==> t == s
  {
    if s != "" && Separator(s[0]) then TrimLeft(s[1..]) else s
  }

  /** strings.TrimRight(s, "-_.") */
  function TrimRight(s: string): (t: string)
    ensures t <= s
    ensures t != "" ==> !Separator(t[|t| - 1])
    ensures s != "" && !Separator(s[|s| - 1]) ==> t == s
    ensures s != "" && !Separator(s[0]) ==> t != ""
  {
    if s != "" && Separator(s[|s| - 1]) then TrimRight(s[..|s| - 1]) else s
  }

  function Sanitize(lower: char -> char, nodeId: string): string {
    if nodeId == "" then
      "empty"
    else
      var left := TrimLeft(Truncated(Replaced(lower, nodeId)));
      if left == "" then "node" else
      var trimmed := TrimRight(left);
      if trimmed == "" then "node" else trimmed
  }

  /** The sanitiser as the operator writes it: a builder filled rune by rune, cut, then trimmed. */
  method SanitizeNodeId(lower: char -> char, nodeId: string) returns (sanitized: string)
    ensures sanitized == Sanitize(lower, nodeId)
  {
    if nodeId == "" {
      return "empty";
    }
    var builder := "";
    for i := 0 to |nodeId|
      invariant builder == Replaced(lower, nodeId)[..i]
    {
      var r := lower(nodeId[i]);
      if ('a' <= r <= 'z') || ('0' <= r <= '9') || r == '-' || r == '_' || r == '.' {
        builder := builder + [r];
      } else {
        builder := builder + ['-'];
      }
    }
    assert builder == Replaced(lower, nodeId);
    sanitized := if |builder| > MAX_LABEL_VALUE_LENGTH then builder[..MAX_LABEL_VALUE_LENGTH] else builder;
    sanitized := TrimLeft(sanitized);
    if sanitized == "" {
      return "node";
    }
    sanitized := TrimRight(sanitized);
    if sanitized == "" {
      return "node";
    }
  }

  ghost predicate Trimmable(c: char) {
    c == '-' || c == '_' || c == '.'
  }

  /** Trimming drops separators only. */
  lemma {:induction false} TrimLeftDrops(s: string) returns (a: nat)
    ensures a <= |s| && TrimLeft(s) == s[a..]
    ensures forall i :: 0 <= i < a ==> Trimmable(s[i])
    ensures a < |s| ==> !Trimmable(s[a])
  {
    a := 0;
    if s != "" && Separator(s[0]) {
      var rest := TrimLeftDrops(s[1..]);
      a := 1 + rest;
      assert s[a..] == s[1..][rest..];
      forall i | 0 <= i < a ensures Trimmable(s[i]) {
        assert i > 0 ==> s[i] == s[1..][i - 1];
      }
    }
  }

  lemma {:induction false} TrimRightDrops(s: string) returns (b: nat)
    ensures b <= |s| && TrimRight(s) == s[..b]
    ensures forall i :: b <= i < |s| ==> Trimmable(s[i])
    ensures b > 0 ==> !Trimmable(s[b - 1])
  {
    b := |s|;
    if s != "" && Separator(s[|s| - 1]) {
      b := TrimRightDrops(s[..|s| - 1]);
      assert forall i :: b <= i < |s| - 1 ==> s[i] == s[..|s| - 1][i];
    }
  }

  /** Trimming at both ends leaves what lies between the outermost characters that are not separators. */
  lemma TrimDrops(s: string) returns (a: nat, b: nat)
    ensures a <= b <= |s| && TrimRight(TrimLeft(s)) == s[a..b]
    ensures TrimLeft(s) == "" <==> a == b
    ensures forall i :: 0 <= i < a || b <= i < |s| ==> Trimmable(s[i])
    ensures a < b ==> !Trimmable(s[a]) && !Trimmable(s[b - 1])
  {
    a := TrimLeftDrops(s);
    var left := s[a..];
    var length := TrimRightDrops(left);
    b := a + length;
    assert forall i :: b <= i < |s| ==> s[i] == left[i - a];
    assert left[..length] == s[a..b];
    if a < |s| {
      assert !Trimmable(left[0]);
    }
  }

  /**
   `c` is shown for a character: the lower-cased character where that is a lower-case letter, a digit, a
   hyphen, an underscore or a full stop, and a hyphen everywhere else.
   */
  ghost predicate ShownAs(lower: char -> char, original: char, c: char) {
    var l := lower(original);
    c == if 'a' <= l <= 'z' || '0' <= l <= '9' || l == '-' || l == '_' || l == '.' then l else '-'
  }

  /**
   The result position by position: of the first 63 characters as shown, everything between the
   separators at the two ends; if nothing else is left, a stand-in.
   */
  lemma SanitizePositions(lower: char -> char, nodeId: string) returns (shown: string, a: nat, b: nat)
    ensures |shown| == if |nodeId| < 63 then |nodeId| else 63
    ensures forall i :: 0 <= i < |shown| ==> ShownAs(lower, nodeId[i], shown[i])
    ensures a <= b <= |shown|
    ensures forall i :: 0 <= i < a || b <= i < |shown| ==> Trimmable(shown[i])
    ensures a < b ==> !Trimmable(shown[a]) && !Trimmable(shown[b - 1])
    ensures Sanitize(lower, nodeId) == if nodeId == "" then "empty" else if a == b then "node" else shown[a..b]
  {
    shown := Truncated(Replaced(lower, nodeId));
    a, b := TrimDrops(shown);
  }

  /** Whatever the input, the result is a label value of 1 to 63 characters. */
  lemma SanitizeYieldsLabelValue(lower: char -> char, nodeId: string)
    ensures LabelValue(Sanitize(lower, nodeId))
  {
    if nodeId != "" {
      var cut := Truncated(Replaced(lower, nodeId));
      assert forall i :: 0 <= i < |cut| ==> Legal(cut[i]);
      var left := TrimLeft(cut);
      var trimmed := TrimRight(left);
      assert forall i :: 0 <= i < |left| ==> left[i] in cut;
      assert forall i :: 0 <= i < |trimmed| ==> trimmed[i] == left[i];
    }
  }

  lemma LabelValueUnchanged(lower: char -> char, v: string)
    requires KeepsLegal(lower)
    requires LabelValue(v)
    ensures Sanitize(lower, v) == v
  {
    var replaced := Replaced(lower, v);
    forall i | 0 <= i < |v| ensures replaced[i] == v[i] {
      assert Legal(v[i]);
    }
    assert replaced == v && Truncated(v) == v;
    assert !Separator(v[0]) && !Separator(v[|v| - 1]);
    assert TrimLeft(v) == v && TrimRight(v) == v;
  }

  /** The sanitiser changes exactly the strings that are not label values. */
  lemma FixedPointsAreLabelValues(lower: char -> char, v: string)
    requires KeepsLegal(lower)
    ensures Sanitize(lower, v) == v <==> LabelValue(v)
  {
    SanitizeYieldsLabelValue(lower, v);
    if LabelValue(v) {
      LabelValueUnchanged(lower, v);
    }
  }

  lemma SanitizeIdempotent(lower: char -> char, nodeId: string)
    requires KeepsLegal(lower)
    ensures Sanitize(lower, Sanitize(lower, nodeId)) == Sanitize(lower, nodeId)
  {
    SanitizeYieldsLabelValue(lower, nodeId);
    FixedPointsAreLabelValues(lower, Sanitize(lower, nodeId));
  }
}
