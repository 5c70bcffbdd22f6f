/** Recovering a JSON object from free-form text: extractJSONObject and stripFences of internal/llmcli/llmcli.go. */
module Extraction {
  import opened Json
  import opened BraceScan

  /** Texts are sequences of characters. */
  datatype Outcome = Found(text: string) | NoBrace | NotJson | Unbalanced

  const FENCE := "```"

  predicate IsSpace(c: char) {
    '\t' <= c <= '\r' || c == ' ' || c == '\U{85}' || c == '\U{A0}' || c == '\U{1680}' || '\U{2000}' <= c <= '\U{200A}'
    || c == '\U{2028}' || c == '\U{2029}' || c == '\U{202F}' || c == '\U{205F}' || c == '\U{3000}'
  }

  function TrimLeft(s: string): string {
    if s != "" && IsSpace(s[0]) then TrimLeft(s[1..]) else s
  }

  function TrimRight(s: string): string {
    if s != "" && IsSpace(s[|s| - 1]) then TrimRight(s[..|s| - 1]) else s
  }

  function TrimSpace(s: string): string {
    TrimRight(TrimLeft(s))
  }

  /** The first position of c, or the length. */
  function IndexOf(s: string, c: char): (i: nat)
    ensures i <= |s| && (forall k :: 0 <= k < i ==> s[k] != c) && (i < |s| ==> s[i] == c)
  {
    if s == "" || s[0] == c then 0 else 1 + IndexOf(s[1..], c)
  }

  predicate FenceAt(s: string, i: int) {
    0 <= i && i + 3 <= |s| && s[i] == '`' && s[i + 1] == '`' && s[i + 2] == '`'
  }

  /** The last fence at or before position i, or -1. */
  function LastFence(s: string, i: int): (k: int)
    ensures -1 <= k && (k >= 0 ==> FenceAt(s, k))
    ensures forall j {:trigger FenceAt(s, j)} :: k < j <= i ==> !FenceAt(s, j)
    decreases i + 1
  {
    if i < 0 then -1 else if FenceAt(s, i) then i else LastFence(s, i - 1)
  }

  predicate Fenced(s: string) {
    FenceAt(TrimSpace(s), 0)
  }

  /** What is left of a fenced text without its opening line. */
  function Unopened(t: string): string {
    if IndexOf(t, '\n') < |t| then t[IndexOf(t, '\n') + 1..] else t
  }

  function Unclosed(t: string): string {
    if LastFence(t, |t|) >= 0 then t[..LastFence(t, |t|)] else t
  }

  function StripFences(s: string): string {
    if Fenced(s) then Unclosed(Unopened(TrimSpace(s))) else s
  }

  /** The number of characters up to and including the brace that closes the object. */
  function CloseAt(s: string, st: State): (n: nat)
    requires st != Done && Run(s, st) == Done
    ensures ClosesAt(s, st, n) && n > 0
  {
    var next := Feed(st, s[0]);
    var n := if next == Done then 0 else CloseAt(s[1..], next);
    ClosesNext(s, st, n);
    n + 1
  }

  lemma ClosesNext(s: string, st: State, n: nat)
    requires s != "" && st != Done && ClosesAt(s[1..], Feed(st, s[0]), n)
    ensures ClosesAt(s, st, n + 1)
  {
    forall m | 0 < m <= |s| ensures Run(s[..m], st) == Run(s[1..][..m - 1], Feed(st, s[0])) {
      assert s[..m][1..] == s[1..][..m - 1];
    }
  }

  /** The scan of a trimmed text from its first opening brace. */
  function ScanFrom(valid: string -> bool, s: string): Outcome {
    if Run(s, Outside(0)) != Done then Unbalanced
    else
      var candidate := s[..CloseAt(s, Outside(0))];
      if valid(candidate) then Found(candidate) else NotJson
  }

  function ExtractTrimmed(valid: string -> bool, t: string): Outcome {
    if t != "" && t[0] == '{' && valid(t) then Found(t)
    else if IndexOf(t, '{') == |t| then NoBrace
    else ScanFrom(valid, t[IndexOf(t, '{')..])
  }

  function Extract(valid: string -> bool, s: string): Outcome {
    ExtractTrimmed(valid, TrimSpace(StripFences(s)))
  }

  /** The validator accepts JSON only; it may refuse some, as a nesting limit does. */
  ghost predicate Sound(valid: string -> bool) {
    forall s :: valid(s) ==> IsJson(s)
  }

  /** o is an accepted object that begins at the first opening brace of s. */
  ghost predicate BeginsAtFirstBrace(valid: string -> bool, s: string, o: string) {
    IsObject(o) && valid(o) && exists p, q :: Around(s, p, o, q)
  }

  ghost predicate Around(s: string, p: string, o: string, q: string) {
    s == p + o + q && '{' !in p
  }

  // ----- the methods

  /** The scanner loop, with the three variables of the source. */
  method Scan(valid: string -> bool, t: string, start: nat) returns (r: Outcome)
    requires start < |t| && t[start] == '{'
    ensures r == ScanFrom(valid, t[start..])
  {
    ghost var s := t[start..];
    var depth: int, inStr, esc := 0, false, false;
    var i := start;
    while i < |t|
      invariant start <= i <= |t| && depth >= 0 && (esc ==> inStr)
      invariant Run(s[..i - start], Outside(0)) ==
        if esc then Escaped(depth) else if inStr then InString(depth) else Outside(depth)
      invariant if i > start then depth > 0 else !inStr
      invariant forall m :: 0 <= m <= i - start ==> Run(s[..m], Outside(0)) != Done
    {
      var ch := t[i];
      ghost var n := i - start;
      RunSnoc(s, n, Outside(0));
      if inStr {
        if esc {
          esc := false;
        } else if ch == '\\' {
          esc := true;
        } else if ch == '\"' {
          inStr := false;
        }
        i := i + 1;
        continue;
      }
      if ch == '\"' {
        inStr := true;
      } else if ch == '{' {
        depth := depth + 1;
      } else if ch == '}' {
        depth := depth - 1;
        if depth == 0 {
          RunsToDone(s, Outside(0), n + 1);
          ClosesOnce(s, Outside(0), n + 1, CloseAt(s, Outside(0)));
          var candidate := t[start..i + 1];
          assert candidate == s[..n + 1];
          if valid(candidate) {
            return Found(candidate);
          }
          return NotJson;
        }
      }
      i := i + 1;
    }
    assert s[..|t| - start] == s;
    return Unbalanced;
  }

  method StripFencesOf(s: string) returns (t: string)
    ensures t == StripFences(s)
  {
    t := TrimSpace(s);
    if !FenceAt(t, 0) {
      return s;
    }
    var nl := IndexOf(t, '\n');
    if nl < |t| {
      t := t[nl + 1..];
    }
    var i := LastFence(t, |t|);
    if i >= 0 {
      t := t[..i];
    }
  }

  method ExtractJSONObject(valid: string -> bool, s: string) returns (r: Outcome)
    ensures r == Extract(valid, s)
  {
    var stripped := StripFencesOf(s);
    var trimmed := TrimSpace(stripped);
    if valid(trimmed) && trimmed != "" && trimmed[0] == '{' {
      return Found(trimmed);
    }
    var start := IndexOf(trimmed, '{');
    if start == |trimmed| {
      return NoBrace;
    }
    r := Scan(valid, trimmed, start);
  }
}
