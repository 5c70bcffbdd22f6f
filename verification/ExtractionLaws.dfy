/** Exactly when an embedded object is recovered, with and without a code fence around it. */
module ExtractionLaws {
  import opened Common
  import opened Json
  import opened BraceScan
  import opened Extraction

  // ----- trimming

  predicate Spaces(s: string) {
    forall i :: 0 <= i < |s| ==> IsSpace(s[i])
  }

  /** A text that trimming leaves alone. */
  predicate Firm(s: string) {
    s != "" && !IsSpace(s[0]) && !IsSpace(s[|s| - 1])
  }

  lemma {:induction false} TrimLeftAround(p: string, x: string)
    requires x != "" && !IsSpace(x[0])
    ensures TrimLeft(p + x) == TrimLeft(p) + x
  {
    if p == "" {
      assert p + x == x;
    } else if IsSpace(p[0]) {
      assert (p + x)[1..] == p[1..] + x;
      TrimLeftAround(p[1..], x);
    }
  }

  lemma {:induction false} TrimRightAround(x: string, q: string)
    requires x != "" && !IsSpace(x[|x| - 1])
    ensures TrimRight(x + q) == x + TrimRight(q)
  {
    if q == "" {
      assert x + q == x;
    } else if IsSpace(q[|q| - 1]) {
      assert (x + q)[..|x + q| - 1] == x + q[..|q| - 1];
      TrimRightAround(x, q[..|q| - 1]);
    }
  }

  lemma TrimAround(p: string, o: string, q: string)
    requires Firm(o)
    ensures TrimSpace(p + o + q) == TrimLeft(p) + o + TrimRight(q)
  {
    assert p + o + q == p + (o + q) && (o + q)[0] == o[0];
    TrimLeftAround(p, o + q);
    assert TrimLeft(p) + (o + q) == (TrimLeft(p) + o) + q;
    assert (TrimLeft(p) + o)[|TrimLeft(p) + o| - 1] == o[|o| - 1];
    TrimRightAround(TrimLeft(p) + o, q);
  }

  lemma {:induction false} TrimLeftSplits(s: string) returns (l: string)
    ensures s == l + TrimLeft(s) && Spaces(l)
  {
    l := "";
    if s != "" && IsSpace(s[0]) {
      l := TrimLeftSplits(s[1..]);
      l := [s[0]] + l;
    }
  }

  lemma {:induction false} TrimRightSplits(s: string) returns (r: string)
    ensures s == TrimRight(s) + r && Spaces(r)
    ensures TrimRight(s) != "" ==> !IsSpace(TrimRight(s)[|TrimRight(s)| - 1])
  {
    r := "";
    if s != "" && IsSpace(s[|s| - 1]) {
      r := TrimRightSplits(s[..|s| - 1]);
      r := r + [s[|s| - 1]];
    }
  }

  lemma TrimSplits(s: string) returns (l: string, r: string)
    ensures s == l + TrimSpace(s) + r && Spaces(l) && Spaces(r)
    ensures TrimSpace(s) != "" ==> !IsSpace(TrimSpace(s)[|TrimSpace(s)| - 1])
  {
    l := TrimLeftSplits(s);
    r := TrimRightSplits(TrimLeft(s));
  }

  lemma {:induction false} TrimLeftSpaces(s: string)
    requires Spaces(s)
    ensures TrimLeft(s) == ""
  {
    if s != "" {
      TrimLeftSpaces(s[1..]);
    }
  }

  // ----- plain text

  lemma FirstIndex(p: string, x: string, c: char)
    requires c !in p && x != "" && x[0] == c
    ensures IndexOf(p + x, c) == |p|
  {
    var i := IndexOf(p + x, c);
    assert (p + x)[|p|] == c;
    assert forall k :: 0 <= k < |p| ==> (p + x)[k] == p[k];
  }

  lemma ObjectIsFirm(o: string)
    requires IsObject(o)
    ensures Firm(o) && o[0] == '{' && o[|o| - 1] == '}'
  {
  }

  lemma ClosingBrace(s: string, st: State, n: nat)
    requires ClosesAt(s, st, n) && n > 0
    ensures s[n - 1] == '}'
  {
    RunSnoc(s, n - 1, st);
    assert Run(s[..n - 1], st) != Done;
  }

  /** An accepted text between braces is an object. */
  lemma AcceptedIsObject(valid: string -> bool, s: string)
    requires Sound(valid) && valid(s) && s != "" && s[0] == '{' && !IsSpace(s[|s| - 1])
    ensures IsObject(s)
  {
    BareObject(s);
  }

  /** What the scan yields is an object that the text begins with. */
  lemma ScanFoundIsPrefix(valid: string -> bool, s: string, o: string) returns (q: string)
    requires Sound(valid) && s != "" && s[0] == '{' && ScanFrom(valid, s) == Found(o)
    ensures IsObject(o) && valid(o) && s == o + q
  {
    var n := CloseAt(s, Outside(0));
    ClosingBrace(s, Outside(0), n);
    AcceptedIsObject(valid, o);
    q := s[n..];
  }

  /** A text that begins with an accepted object makes the scan yield it. */
  lemma PrefixIsScanned(valid: string -> bool, o: string, q: string)
    requires IsObject(o) && valid(o)
    ensures ScanFrom(valid, o + q) == Found(o)
  {
    ObjectClosesAtItsEnd(o, q);
    RunsToDone(o + q, Outside(0), |o|);
    ClosesOnce(o + q, Outside(0), |o|, CloseAt(o + q, Outside(0)));
  }

  lemma FoundInTrimmed(valid: string -> bool, u: string, o: string) returns (p: string, q: string)
    requires Sound(valid) && (u != "" ==> !IsSpace(u[|u| - 1])) && ExtractTrimmed(valid, u) == Found(o)
    ensures IsObject(o) && valid(o) && Around(u, p, o, q)
  {
    if u[0] == '{' && valid(u) {
      AcceptedIsObject(valid, u);
      p, q := "", "";
    } else {
      var i := IndexOf(u, '{');
      p := u[..i];
      q := ScanFoundIsPrefix(valid, u[i..], o);
      assert u == p + u[i..];
      ConcatAssociative(p, o, q);
    }
  }

  /** If an object with a suffix is accepted as a whole, the suffix is empty. */
  lemma WholeIsObject(valid: string -> bool, o: string, q: string)
    requires Sound(valid) && IsObject(o) && valid(o + q) && (q != "" ==> !IsSpace(q[|q| - 1]))
    ensures o + q == o
  {
    ObjectIsFirm(o);
    var u := o + q;
    assert u[|u| - 1] == if q == "" then o[|o| - 1] else q[|q| - 1];
    AcceptedIsObject(valid, u);
    ObjectsArePrefixFree(o, u, q, "");
  }

  lemma TrimmedIsFound(valid: string -> bool, p: string, o: string, q: string)
    requires Sound(valid) && IsObject(o) && valid(o) && '{' !in p && (q != "" ==> !IsSpace(q[|q| - 1]))
    ensures ExtractTrimmed(valid, p + (o + q)) == Found(o)
  {
    ObjectIsFirm(o);
    FirstIndex(p, o + q, '{');
    PrefixIsScanned(valid, o, q);
    if p == "" {
      assert p + (o + q) == o + q;
      if valid(o + q) {
        WholeIsObject(valid, o, q);
      }
    } else {
      assert (p + (o + q))[0] == p[0];
      assert (p + (o + q))[|p|..] == o + q;
    }
  }

  lemma AroundWidens(u: string, l: string, p: string, o: string, q: string, r: string)
    requires Around(u, p, o, q) && Spaces(l)
    ensures Around(l + u + r, l + p, o, q + r)
  {
    ConcatAssociative(l, p, o + q);
    ConcatAssociative(p, o, q);
    ConcatAssociative(l + p, o, q);
    ConcatAssociative(l + p + o, q, r);
  }

  /** Whatever comes out is an object that begins at the first brace of the text. */
  lemma FoundIsFirst(valid: string -> bool, t: string, o: string)
    requires Sound(valid) && ExtractTrimmed(valid, TrimSpace(t)) == Found(o)
    ensures BeginsAtFirstBrace(valid, t, o)
  {
    var l, r := TrimSplits(t);
    var p, q := FoundInTrimmed(valid, TrimSpace(t), o);
    AroundWidens(TrimSpace(t), l, p, o, q, r);
  }

  lemma TrimLeftKeeps(p: string, c: char)
    requires c !in p
    ensures c !in TrimLeft(p)
  {
    var l := TrimLeftSplits(p);
    assert forall k :: 0 <= k < |TrimLeft(p)| ==> TrimLeft(p)[k] == p[|l| + k];
  }

  /** An accepted object that begins at the first brace comes out, whatever follows it. */
  lemma FirstIsFound(valid: string -> bool, t: string, o: string)
    requires Sound(valid) && BeginsAtFirstBrace(valid, t, o)
    ensures ExtractTrimmed(valid, TrimSpace(t)) == Found(o)
  {
    var p, q :| Around(t, p, o, q);
    ObjectIsFirm(o);
    TrimAround(p, o, q);
    TrimLeftKeeps(p, '{');
    var _ := TrimRightSplits(q);
    TrimmedIsFound(valid, TrimLeft(p), o, TrimRight(q));
    ConcatAssociative(TrimLeft(p), o, TrimRight(q));
  }

  /**
   The whole truth about extraction: it yields o exactly when, in the text without
   its fence, an accepted object o begins at the first opening brace.
   */
  lemma ExtractsExactlyTheFirst(valid: string -> bool, s: string, o: string)
    requires Sound(valid)
    ensures Extract(valid, s) == Found(o) <==> BeginsAtFirstBrace(valid, StripFences(s), o)
  {
    var t := StripFences(s);
    if Extract(valid, s) == Found(o) {
      FoundIsFirst(valid, t, o);
    }
    if BeginsAtFirstBrace(valid, t, o) {
      FirstIsFound(valid, t, o);
    }
  }

  /** An object in unfenced prose without an opening brace before it is recovered, with any suffix. */
  lemma RecoversFromProse(valid: string -> bool, prose: string, o: string, suffix: string)
    requires Sound(valid) && IsObject(o) && valid(o)
    requires '{' !in prose && !Fenced(prose + o + suffix)
    ensures Extract(valid, prose + o + suffix) == Found(o)
  {
    assert Around(prose + o + suffix, prose, o, suffix);
    ExtractsExactlyTheFirst(valid, prose + o + suffix, o);
  }

  /**
   With an opening brace in the prose, nothing that begins later is ever considered:
   extraction succeeds if and only if an accepted object begins at that earlier brace.
   */
  lemma EarlierBraceDecides(valid: string -> bool, before: string, rest: string)
    requires Sound(valid) && '{' !in before && rest != "" && rest[0] == '{' && !Fenced(before + rest)
    ensures Extract(valid, before + rest).Found? <==> exists o, q :: Starts(valid, rest, o, q)
  {
    var s := before + rest;
    var r := Extract(valid, s);
    if r.Found? {
      ExtractsExactlyTheFirst(valid, s, r.text);
      var p, q :| Around(s, p, r.text, q);
      ObjectIsFirm(r.text);
      ConcatAssociative(p, r.text, q);
      SameFirst(before, rest, p, r.text + q);
      assert Starts(valid, rest, r.text, q);
    }
    if o, q :| Starts(valid, rest, o, q) {
      ConcatAssociative(before, o, q);
      RecoversFromProse(valid, before, o, q);
    }
  }

  ghost predicate Starts(valid: string -> bool, s: string, o: string, q: string) {
    IsObject(o) && valid(o) && s == o + q
  }

  lemma SameFirst(p: string, x: string, q: string, y: string)
    requires '{' !in p && '{' !in q && p + x == q + y
    requires x != "" && y != "" && x[0] == '{' && y[0] == '{'
    ensures p == q && x == y
  {
    FirstIndex(p, x, '{');
    FirstIndex(q, y, '{');
    assert p == (p + x)[..|p|] && q == (q + y)[..|q|];
    assert x == (p + x)[|p|..] && y == (q + y)[|q|..];
  }

  /** So the first complete object is not always recovered: here it follows a lone brace. */
  lemma LoneBraceHidesObject(valid: string -> bool)
    requires Sound(valid)
    ensures IsObject("{}") && !Extract(valid, "open { " + "{}").Found?
  {
    assert Text(Obj("", NoMembers)) == "{}";
    var s, rest := "open { " + "{}", "{ {}";
    assert s == "open " + rest && Firm(s) && s == "" + s + "";
    TrimAround("", s, "");
    forall o, q ensures !Starts(valid, rest, o, q) {
      if IsObject(o) && rest == o + q {
        ObjectClosesAtItsEnd(o, q);
        RunsToDone(rest, Outside(0), |o|);
        assert false by {
          LoneBraceStaysOpen();
        }
      }
    }
    EarlierBraceDecides(valid, "open ", rest);
  }

  lemma LoneBraceStaysOpen()
    ensures Run("{ {}", Outside(0)) == Outside(1)
  {
    assert "{ {}" == "{" + (" " + ("{" + "}"));
    RunAppend("{", " " + ("{" + "}"), Outside(0));
    RunAppend(" ", "{" + "}", Outside(1));
    RunAppend("{", "}", Outside(1));
  }

  // ----- fences

  lemma LastFenceAt(x: string, r: string)
    requires '`' !in r
    ensures LastFence(x + FENCE + r, |x + FENCE + r|) == |x|
  {
    var t := x + FENCE + r;
    assert FenceAt(t, |x|);
    forall j | |x| < j <= |t| ensures !FenceAt(t, j) {
      if j + 3 <= |t| {
        assert t[j + 2] == r[j + 2 - |x + FENCE|];
      }
    }
  }

  lemma UnopenedAfter(line: string, body: string)
    requires '\n' !in line
    ensures Unopened(line + ("\n" + body)) == body
  {
    FirstIndex(line, "\n" + body, '\n');
  }

  /** The opening line and the closing fence go, whatever the body holds. */
  lemma StripsTheFence(lead: string, tag: string, body: string, tail: string)
    requires Spaces(lead) && '\n' !in tag && '`' !in tail
    ensures StripFences(lead + (FENCE + tag + "\n" + body + FENCE) + tail) == body
  {
    var o, r := FENCE + tag + "\n" + body + FENCE, TrimRight(tail);
    assert Firm(o);
    TrimAround(lead, o, tail);
    TrimLeftSpaces(lead);
    var dropped := TrimRightSplits(tail);
    assert tail == r + dropped;
    var t := "" + o + r;
    assert t == (FENCE + tag) + ("\n" + (body + FENCE + r));
    assert FenceAt(t, 0);
    UnopenedAfter(FENCE + tag, body + FENCE + r);
    LastFenceAt(body, r);
  }

  /** An object inside a fence is recovered, with brace-free text before it and anything after it. */
  lemma RecoversFromFence(valid: string -> bool, lead: string, tag: string, prose: string, o: string, suffix: string,
                          tail: string)
    requires Sound(valid) && IsObject(o) && valid(o)
    requires Spaces(lead) && '\n' !in tag && '{' !in prose && '`' !in tail
    ensures Extract(valid, lead + (FENCE + tag + "\n" + (prose + o + suffix) + FENCE) + tail) == Found(o)
  {
    var body := prose + o + suffix;
    StripsTheFence(lead, tag, body, tail);
    assert Around(body, prose, o, suffix);
    ExtractsExactlyTheFirst(valid, lead + (FENCE + tag + "\n" + body + FENCE) + tail, o);
  }

  // ----- fences that are not closed

  lemma OpenedText(lead: string, tag: string, x: string, r: string)
    requires Spaces(lead) && '\n' !in tag && x != "" && !IsSpace(x[|x| - 1])
    ensures StripFences(lead + (FENCE + tag + "\n" + x) + r) == Unclosed(x + TrimRight(r))
  {
    var line, rest := FENCE + tag, TrimRight(r);
    var y := line + "\n" + x;
    assert y[|y| - 1] == x[|x| - 1] && y[0] == '`' && Firm(y);
    TrimAround(lead, y, r);
    TrimLeftSpaces(lead);
    var t := "" + y + rest;
    FenceLine(tag, x, rest, t);
  }

  lemma FenceLine(tag: string, x: string, rest: string, t: string)
    requires '\n' !in tag && t == "" + (FENCE + tag + "\n" + x) + rest
    ensures FenceAt(t, 0) && Unopened(t) == x + rest
  {
    var line := FENCE + tag;
    ConcatAssociative(line, "\n", x);
    ConcatAssociative(line, "\n" + x, rest);
    ConcatAssociative("\n", x, rest);
    assert t == line + ("\n" + (x + rest));
    assert t[0] == line[0] && t[1] == line[1] && t[2] == line[2];
    UnopenedAfter(line, x + rest);
  }

  ghost predicate HasFence(s: string) {
    exists i :: FenceAt(s, i)
  }

  /** A fence in the text around an object is in one of the three parts. */
  lemma FenceInParts(p: string, o: string, q: string, i: int)
    requires Firm(o) && o[0] == '{' && o[|o| - 1] == '}' && FenceAt(p + o + q, i)
    ensures FenceAt(p, i) || FenceAt(o, i - |p|) || FenceAt(q, i - |p| - |o|)
  {
    var s := p + o + q;
    assert s[|p|] == o[0] && s[|p| + |o| - 1] == o[|o| - 1];
    assert forall k :: 0 <= k < |p| ==> s[k] == p[k];
    assert forall k :: 0 <= k < |o| ==> s[|p| + k] == o[k];
    assert forall k :: 0 <= k < |q| ==> s[|p| + |o| + k] == q[k];
  }

  lemma FenceOfObject(p: string, o: string, q: string, i: int)
    requires FenceAt(o, i)
    ensures FenceAt(p + o + q, |p| + i)
  {
    assert forall k :: 0 <= k < |o| ==> (p + o + q)[|p| + k] == o[k];
  }

  lemma UnclosedText(p: string, o: string, q: string)
    requires Firm(o) && o[0] == '{' && o[|o| - 1] == '}' && !HasFence(p) && !HasFence(q)
    ensures var s := p + o + q;
      if HasFence(o) then exists k :: 0 <= k < |p| + |o| && Unclosed(s) == s[..k] else Unclosed(s) == s
  {
    var s := p + o + q;
    var k := LastFence(s, |s|);
    if k >= 0 {
      FenceInParts(p, o, q, k);
    }
    if HasFence(o) {
      var i :| FenceAt(o, i);
      FenceOfObject(p, o, q, i);
      assert FenceAt(s, |p| + i) && 0 <= k < |p| + |o|;
      assert Unclosed(s) == s[..k];
    }
  }

  lemma TrimmedHasNoFence(q: string)
    requires !HasFence(q)
    ensures !HasFence(TrimRight(q))
  {
    var r := TrimRight(q);
    var _ := TrimRightSplits(q);
    forall i ensures !FenceAt(r, i) {
      assert FenceAt(r, i) ==> FenceAt(q, i);
    }
  }

  /**
   A fence that is opened and never closed loses its opening line only: the object is
   recovered exactly when it does not itself contain a fence, at which it would be cut.
   */
  lemma UnclosedFenceRecovers(valid: string -> bool, lead: string, tag: string, prose: string, o: string,
                              suffix: string)
    requires Sound(valid) && IsObject(o) && valid(o) && Spaces(lead) && '\n' !in tag && '{' !in prose
    requires !HasFence(prose) && !HasFence(suffix)
    ensures Extract(valid, lead + (FENCE + tag + "\n" + (prose + o)) + suffix) == Found(o) <==> !HasFence(o)
  {
    var s, q := lead + (FENCE + tag + "\n" + (prose + o)) + suffix, TrimRight(suffix);
    ObjectIsFirm(o);
    assert (prose + o)[|prose + o| - 1] == o[|o| - 1];
    OpenedText(lead, tag, prose + o, suffix);
    TrimmedHasNoFence(suffix);
    UnclosedText(prose, o, q);
    ExtractsExactlyTheFirst(valid, s, o);
    if HasFence(o) {
      var k :| 0 <= k < |prose| + |o| && StripFences(s) == (prose + o + q)[..k];
      ObjectBeginsLater(valid, StripFences(s), o, |prose|);
    } else {
      assert Around(StripFences(s), prose, o, q);
    }
  }

  lemma ObjectBeginsLater(valid: string -> bool, u: string, o: string, n: nat)
    requires forall i :: 0 <= i < n && i < |u| ==> u[i] != '{'
    ensures BeginsAtFirstBrace(valid, u, o) ==> |u| >= n + |o|
  {
    if BeginsAtFirstBrace(valid, u, o) {
      var p, r :| Around(u, p, o, r);
      ObjectIsFirm(o);
      assert u[|p|] == o[0];
    }
  }

  /** No brace is reported exactly when the text without its fence has no opening brace. */
  lemma NoBraceExactly(valid: string -> bool, s: string)
    ensures Extract(valid, s) == NoBrace <==> '{' !in StripFences(s)
  {
    var t := StripFences(s);
    var l, r := TrimSplits(t);
    assert t == l + TrimSpace(t) + r;
    assert forall i :: 0 <= i < |l| ==> l[i] != '{';
    assert forall i :: 0 <= i < |r| ==> r[i] != '{';
    assert '{' in t <==> '{' in TrimSpace(t);
    var i := IndexOf(TrimSpace(t), '{');
  }

  lemma LastFenceEnds(x: string)
    ensures LastFence(x + FENCE, |x + FENCE|) == |x|
  {
    assert x + FENCE + "" == x + FENCE;
    LastFenceAt(x, "");
  }

  lemma FencedWhole(x: string)
    ensures TrimSpace(FENCE + x + FENCE) == FENCE + x + FENCE && Fenced(FENCE + x + FENCE)
  {
    var s := FENCE + x + FENCE;
    assert Firm(s) && s == "" + s + "" && FenceAt(s, 0);
    TrimAround("", s, "");
  }

  lemma OneLineStripped(o: string)
    requires '\n' !in o
    ensures StripFences(FENCE + o + FENCE) == FENCE + o
  {
    FencedWhole(o);
    assert forall k :: 0 <= k < |FENCE + o + FENCE| ==> (FENCE + o + FENCE)[k] != '\n';
    LastFenceEnds(FENCE + o);
  }

  lemma FirstLineLost(a: string, b: string)
    requires '\n' !in a
    ensures StripFences(FENCE + (a + ("\n" + b)) + FENCE) == b
  {
    FencedWhole(a + ("\n" + b));
    ConcatAssociative(FENCE, a, "\n" + b);
    ConcatAssociative(FENCE + a, "\n" + b, FENCE);
    ConcatAssociative("\n", b, FENCE);
    UnopenedAfter(FENCE + a, b + FENCE);
    LastFenceEnds(b);
  }

  lemma ObjectFits(valid: string -> bool, s: string, o: string)
    requires BeginsAtFirstBrace(valid, s, o)
    ensures |o| <= |s|
  {
    var p, q :| Around(s, p, o, q);
    assert |s| == |p| + |o| + |q|;
  }

  /**
   An object that shares its line with the opening fence is recovered exactly when it
   has no line break, because the opening line is dropped.
   */
  lemma SharedLineRecovers(valid: string -> bool, o: string)
    requires Sound(valid) && IsObject(o) && valid(o)
    ensures Extract(valid, FENCE + o + FENCE) == Found(o) <==> '\n' !in o
  {
    var s := FENCE + o + FENCE;
    ExtractsExactlyTheFirst(valid, s, o);
    if '\n' !in o {
      OneLineStripped(o);
      assert FENCE + o == FENCE + o + "";
      assert Around(StripFences(s), FENCE, o, "");
    } else {
      var b := FirstLineGone(o);
      if BeginsAtFirstBrace(valid, b, o) {
        ObjectFits(valid, b, o);
      }
    }
  }

  lemma FirstLineGone(o: string) returns (b: string)
    requires '\n' in o
    ensures StripFences(FENCE + o + FENCE) == b && |b| < |o|
  {
    var i := IndexOf(o, '\n');
    b := o[i + 1..];
    assert o == o[..i] + ("\n" + b);
    FirstLineLost(o[..i], b);
  }
}
