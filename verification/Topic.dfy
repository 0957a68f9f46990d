/** Topic exchange patterns: the recursive matcher against the segment semantics of
    section 3.1.3.3 of AMQP 0-9-1, and pattern validation. */
module Topic {
  import opened Text

  const DOT: char := '.'

  // ---------------------------------------------------------------- meaning of a pattern

  /** What one pattern token may stand for: `#` any run, `*` one token, a literal itself. */
  predicate Fits(token: string, segment: seq<string>) {
    if token == "#" then true
    else if token == "*" then |segment| == 1
    else segment == [token]
  }

  function Flatten(segments: seq<seq<string>>): seq<string> {
    if segments == [] then [] else segments[0] + Flatten(segments[1..])
  }

  ghost predicate IsCut(r: seq<string>, p: seq<string>, segments: seq<seq<string>>) {
    && |segments| == |p|
    && Flatten(segments) == r
    && forall i :: 0 <= i < |p| ==> Fits(p[i], segments[i])
  }

  /** The routing key can be cut into consecutive segments, one per pattern token. */
  ghost predicate Cuttable(r: seq<string>, p: seq<string>) {
    exists segments :: IsCut(r, p, segments)
  }

  ghost predicate Matches(routingKey: string, pattern: string) {
    Cuttable(Split(routingKey, DOT), Split(pattern, DOT))
  }

  // ---------------------------------------------------------------- one token at a time

  lemma CutFirst(r: seq<string>, p: seq<string>)
    requires p != [] && Cuttable(r, p)
    ensures exists i :: 0 <= i <= |r| && Fits(p[0], r[..i]) && Cuttable(r[i..], p[1..])
  {
    var segments :| IsCut(r, p, segments);
    var i := |segments[0]|;
    assert r[..i] == segments[0] && r[i..] == Flatten(segments[1..]);
    assert IsCut(r[i..], p[1..], segments[1..]);
  }

  lemma CutCons(r: seq<string>, p: seq<string>, i: nat)
    requires p != [] && i <= |r|
    requires Fits(p[0], r[..i]) && Cuttable(r[i..], p[1..])
    ensures Cuttable(r, p)
  {
    var rest :| IsCut(r[i..], p[1..], rest);
    var segments := [r[..i]] + rest;
    assert segments[1..] == rest;
    assert r[..i] + r[i..] == r;
    assert forall j :: 1 <= j < |p| ==> p[j] == p[1..][j - 1] && segments[j] == rest[j - 1];
    assert IsCut(r, p, segments);
  }

  lemma CutNone(r: seq<string>)
    ensures Cuttable(r, []) <==> r == []
  {
    if r == [] {
      assert IsCut([], [], []);
    }
  }

  lemma {:induction false} CutEmpty(p: seq<string>)
    ensures Cuttable([], p) <==> forall i :: 0 <= i < |p| ==> p[i] == "#"
  {
    if p == [] {
      CutNone([]);
    } else {
      CutEmpty(p[1..]);
      var none: seq<string> := [];
      assert none[..0] == none[0..] == none;
      if Cuttable([], p) {
        CutFirst([], p);
        assert forall i :: 1 <= i < |p| ==> p[i] == p[1..][i - 1];
      } else if forall i :: 0 <= i < |p| ==> p[i] == "#" {
        CutCons([], p, 0);
      }
    }
  }

  /** The backtracking matcher decides exactly the segment semantics. */
  method MatchTopicTokens(r: seq<string>, p: seq<string>) returns (b: bool)
    ensures b <==> Cuttable(r, p)
    decreases |p|
  {
    if |p| == 0 {
      CutNone(r);
      return |r| == 0;
    }
    if |r| == 0 {
      CutEmpty(p);
      for k := 0 to |p|
        invariant forall i :: 0 <= i < k ==> p[i] == "#"
      {
        if p[k] != "#" {
          return false;
        }
      }
      return true;
    }
    if Cuttable(r, p) {
      CutFirst(r, p);
    }
    if p[0] == "#" {
      for i := 0 to |r| + 1
        invariant forall j :: 0 <= j < i ==> !Cuttable(r[j..], p[1..])
      {
        var found := MatchTopicTokens(r[i..], p[1..]);
        if found {
          CutCons(r, p, i);
          return true;
        }
      }
      return false;
    } else {
      if p[0] != "*" && r[0] != p[0] {
        return false;
      }
      b := MatchTopicTokens(r[1..], p[1..]);
      if b {
        assert r[..1] == [r[0]];
        CutCons(r, p, 1);
      }
    }
  }

  method MatchTopicPattern(routingKey: string, pattern: string) returns (b: bool)
    ensures b <==> Matches(routingKey, pattern)
  {
    b := MatchTopicTokens(Split(routingKey, DOT), Split(pattern, DOT));
  }

  predicate Literal(p: seq<string>) {
    forall i :: 0 <= i < |p| ==> p[i] != "*" && p[i] != "#"
  }

  /** A pattern without wildcards routes like a direct exchange: it matches its own text only. */
  lemma LiteralPatternMatchesItself(routingKey: string, pattern: string)
    requires Literal(Split(pattern, DOT))
    ensures Matches(routingKey, pattern) <==> routingKey == pattern
  {
    var r, p := Split(routingKey, DOT), Split(pattern, DOT);
    LiteralCut(r, p);
    if r == p {
      assert routingKey == Join(r, DOT) == Join(p, DOT) == pattern;
    }
  }

  lemma {:induction false} LiteralCut(r: seq<string>, p: seq<string>)
    requires Literal(p)
    ensures Cuttable(r, p) <==> r == p
  {
    if p == [] {
      CutNone(r);
    } else {
      if Cuttable(r, p) {
        CutFirst(r, p);
        var i :| 0 <= i <= |r| && Fits(p[0], r[..i]) && Cuttable(r[i..], p[1..]);
        LiteralCut(r[i..], p[1..]);
        assert r == r[..i] + r[i..] == [p[0]] + p[1..] == p;
      } else if r == p {
        LiteralCut(r[1..], p[1..]);
        assert r[..1] == [p[0]];
        CutCons(r, p, 1);
      }
    }
  }

  // ---------------------------------------------------------------- valid patterns

  predicate Alpha(c: char) { 'A' <= c <= 'Z' || 'a' <= c <= 'z' }
  predicate Alnum(c: char) { Alpha(c) || IsDigit(c) }
  predicate Dash(c: char) { c == '-' || c == '_' }

  /** The literal token expression: a letter, alphanumerics, then groups of one dash or
      underscore followed by at least one alphanumeric. */
  predicate LiteralToken(t: string) {
    t != "" && Alpha(t[0]) && LiteralTail(t[1..])
  }

  predicate LiteralTail(s: string) {
    || s == ""
    || (Alnum(s[0]) && LiteralTail(s[1..]))
    || (Dash(s[0]) && |s| > 1 && Alnum(s[1]) && LiteralTail(s[2..]))
  }

  predicate TailChar(s: string, i: nat)
    requires i < |s|
  {
    Alnum(s[i]) || (Dash(s[i]) && i + 1 < |s| && Alnum(s[i + 1]))
  }

  predicate TailShape(s: string) { forall i :: 0 <= i < |s| ==> TailChar(s, i) }

  /** The expression read as a condition on characters: a dash or underscore always stands
      right before an alphanumeric. */
  lemma {:induction false} LiteralTailShape(s: string)
    ensures LiteralTail(s) <==> TailShape(s)
  {
    if s != "" {
      var t := s[1..];
      LiteralTailShape(t);
      assert TailShape(s) <==> TailChar(s, 0) && TailShape(t) by {
        assert forall i :: 0 <= i < |t| ==> TailChar(t, i) == TailChar(s, i + 1);
        assert forall i :: 1 <= i < |s| ==> TailChar(s, i) == TailChar(t, i - 1);
      }
      if |s| > 1 {
        LiteralTailShape(s[2..]);
        assert t[1..] == s[2..];
      }
    }
  }

  predicate ValidToken(t: string) { t == "*" || t == "#" || LiteralToken(t) }

  predicate ValidPattern(pattern: string) {
    forall i :: 0 <= i < |Split(pattern, DOT)| ==> ValidToken(Split(pattern, DOT)[i])
  }

  predicate LetterOrDigit(c: char) { 'A' <= c <= 'Z' || 'a' <= c <= 'z' || '0' <= c <= '9' }

  /** A letter or digit, or a dash or underscore with a letter or digit right behind it. */
  predicate TokenChar(t: string, i: nat)
    requires i < |t|
  {
    || LetterOrDigit(t[i])
    || ((t[i] == '-' || t[i] == '_') && i + 1 < |t| && LetterOrDigit(t[i + 1]))
  }

  /** A token, character by character: a wildcard, or a letter with such characters behind it. */
  lemma ValidTokenShape(t: string)
    ensures ValidToken(t) <==>
      || t == "*" || t == "#"
      || (t != "" && ('A' <= t[0] <= 'Z' || 'a' <= t[0] <= 'z') && forall i :: 1 <= i < |t| ==> TokenChar(t, i))
  {
    if t != "" {
      var tail := t[1..];
      LiteralTailShape(tail);
      assert forall i :: 1 <= i < |t| ==> TokenChar(t, i) == TailChar(tail, i - 1);
      assert forall i :: 0 <= i < |tail| ==> TailChar(tail, i) == TokenChar(t, i + 1);
    }
  }

  /** A pattern is valid when every piece between its dots is such a token; so none is empty. */
  lemma ValidPatternShape(pattern: string)
    ensures ValidPattern(pattern) <==> forall t :: t in Split(pattern, DOT) ==> ValidToken(t)
    ensures ValidPattern(pattern) ==> pattern != "" && "" !in Split(pattern, DOT)
  {
    ValidTokenShape("");
    var tokens := Split(pattern, DOT);
    forall t | t in tokens && ValidPattern(pattern) ensures ValidToken(t) {
      var i :| 0 <= i < |tokens| && tokens[i] == t;
    }
    if pattern == "" {
      assert tokens[0] == "";
    }
  }

  method ValidateTopicPattern(pattern: string) returns (ok: bool)
    ensures ok <==> ValidPattern(pattern)
  {
    if |pattern| == 0 {
      assert Split(pattern, DOT)[0] == "";
      return false;
    }
    var tokens := Split(pattern, DOT);
    for k := 0 to |tokens|
      invariant forall i :: 0 <= i < k ==> ValidToken(tokens[i])
    {
      var token := tokens[k];
      if |token| == 0 {
        return false;
      }
      if token != "*" && token != "#" && !LiteralToken(token) {
        return false;
      }
    }
    return true;
  }
}
