/** Why the string-aware brace scanner of internal/llmcli/llmcli.go stops exactly at the end of a JSON object. */
module BraceScan {
  import opened Json

  /** The scanner's `depth`, `inStr` and `esc`; Done once a closing brace brings the depth to zero. */
  datatype State = Outside(depth: nat) | InString(depth: nat) | Escaped(depth: nat) | Done

  function Feed(st: State, c: char): State {
    match st
    case Done => Done
    case Escaped(d) => InString(d)
    case InString(d) => if c == '\\' then Escaped(d) else if c == '\"' then Outside(d) else st
    case Outside(d) =>
      if c == '\"' then InString(d)
      else if c == '{' then Outside(d + 1)
      else if c == '}' then (if d <= 1 then Done else Outside(d - 1))
      else st
  }

  function Run(s: string, st: State): State {
    if s == "" then st else Run(s[1..], Feed(st, s[0]))
  }

  lemma {:induction false} RunAppend(a: string, b: string, st: State)
    ensures Run(a + b, st) == Run(b, Run(a, st))
  {
    if a == "" {
      assert a + b == b;
    } else {
      assert (a + b)[0] == a[0] && (a + b)[1..] == a[1..] + b;
      RunAppend(a[1..], b, Feed(st, a[0]));
    }
  }

  lemma RunSnoc(s: string, i: nat, st: State)
    requires i < |s|
    ensures Run(s[..i + 1], st) == Feed(Run(s[..i], st), s[i])
  {
    assert s[..i + 1] == s[..i] + [s[i]];
    RunAppend(s[..i], [s[i]], st);
  }

  lemma {:induction false} DoneStays(s: string)
    ensures Run(s, Done) == Done
  {
    if s != "" {
      DoneStays(s[1..]);
    }
  }

  /** How many characters the scanner reads before it is done. */
  ghost predicate ClosesAt(s: string, st: State, n: nat) {
    n <= |s| && Run(s[..n], st) == Done && forall m :: 0 <= m < n ==> Run(s[..m], st) != Done
  }

  lemma ClosesOnce(s: string, st: State, n: nat, m: nat)
    requires ClosesAt(s, st, n) && ClosesAt(s, st, m)
    ensures n == m
  {
  }

  lemma RunsToDone(s: string, st: State, n: nat)
    requires ClosesAt(s, st, n)
    ensures Run(s, st) == Done
  {
    assert s == s[..n] + s[n..];
    RunAppend(s[..n], s[n..], st);
    DoneStays(s[n..]);
  }

  /** Inside any object the text leaves the scanner where it found it. */
  ghost predicate Calm(s: string) {
    forall d: nat :: d >= 1 ==> Run(s, Outside(d)) == Outside(d)
  }

  lemma CalmAppend(a: string, b: string)
    requires Calm(a) && Calm(b)
    ensures Calm(a + b)
  {
    forall d: nat | d >= 1 ensures Run(a + b, Outside(d)) == Outside(d) {
      RunAppend(a, b, Outside(d));
    }
  }

  lemma {:induction false} UnmarkedIsCalm(s: string)
    requires forall i :: 0 <= i < |s| ==> s[i] !in "\"{}"
    ensures Calm(s)
  {
    if s != "" {
      UnmarkedIsCalm(s[1..]);
    }
  }

  /** Whatever the pieces of a string are, they neither end it nor move the depth. */
  lemma {:induction false} PiecesStayInside(ps: seq<Piece>, d: nat)
    requires PiecesOk(ps)
    ensures Run(PiecesText(ps), InString(d)) == InString(d)
  {
    if ps != [] {
      RunAppend(ps[0].Text(), PiecesText(ps[1..]), InString(d));
      PieceStaysInside(ps[0], d);
      PiecesStayInside(ps[1..], d);
    }
  }

  lemma PieceStaysInside(p: Piece, d: nat)
    requires p.Ok()
    ensures Run(p.Text(), InString(d)) == InString(d)
  {
    if p.Plain? {
      PlainStaysInside(p.Text(), d);
    } else {
      var rest := if p.Short? then "" else p.digits;
      var start := ['\\', if p.Short? then p.c else 'u'];
      assert p.Text() == start + rest;
      TwoCharacters(start[0], start[1], InString(d));
      RunAppend(start, rest, InString(d));
      PlainStaysInside(rest, d);
    }
  }

  lemma TwoCharacters(a: char, b: char, st: State)
    ensures Run([a, b], st) == Feed(Feed(st, a), b)
  {
    var s := [a, b];
    assert s[..1] == [a] && s[..2] == s;
    RunSnoc(s, 0, st);
    RunSnoc(s, 1, st);
  }

  lemma {:induction false} PlainStaysInside(s: string, d: nat)
    requires forall i :: 0 <= i < |s| ==> s[i] != '\"' && s[i] != '\\'
    ensures Run(s, InString(d)) == InString(d)
  {
    if s != "" {
      PlainStaysInside(s[1..], d);
    }
  }

  lemma QuotedIsCalm(ps: seq<Piece>)
    requires PiecesOk(ps)
    ensures Calm(Quoted(ps))
  {
    forall d: nat | d >= 1 ensures Run(Quoted(ps), Outside(d)) == Outside(d) {
      var t := PiecesText(ps);
      RunAppend("\"" + t, "\"", Outside(d));
      RunAppend("\"", t, Outside(d));
      PiecesStayInside(ps, d);
    }
  }

  lemma RunOne(c: char, st: State)
    ensures Run([c], st) == Feed(st, c)
  {
    assert [c][1..] == "";
  }

  /** A text between braces is calm when its inside is. */
  lemma BracedIsCalm(inner: string)
    requires Calm(inner)
    ensures Calm("{" + inner + "}")
  {
    forall d: nat | d >= 1 ensures Run("{" + inner + "}", Outside(d)) == Outside(d) {
      RunOne('{', Outside(d));
      RunAppend("{", inner, Outside(d));
      assert Run("{" + inner, Outside(d)) == Outside(d + 1);
      RunOne('}', Outside(d + 1));
      RunAppend("{" + inner, "}", Outside(d));
    }
  }

  lemma NumberIsCalm(n: Number)
    requires n.Ok()
    ensures Calm(n.Text())
  {
    UnmarkedIsCalm(if n.minus then "-" else "");
    UnmarkedIsCalm(n.whole);
    CalmAppend(if n.minus then "-" else "", n.whole);
    LedDigitsAreCalm(n.frac, 1);
    CalmAppend((if n.minus then "-" else "") + n.whole, n.frac);
    LedDigitsAreCalm(n.exp, if n.exp != "" && n.exp[1] in "+-" then 2 else 1);
    CalmAppend((if n.minus then "-" else "") + n.whole + n.frac, n.exp);
  }

  /** Digits after at most two leading marks. */
  lemma LedDigitsAreCalm(s: string, k: nat)
    requires s != "" ==> 1 <= k <= 2 && k <= |s| && AllDigits(s[k..]) && s[0] !in "\"{}" && s[k - 1] !in "\"{}"
    ensures Calm(s)
  {
    if s != "" {
      UnmarkedIsCalm(s[..k]);
      UnmarkedIsCalm(s[k..]);
      CalmAppend(s[..k], s[k..]);
      assert s == s[..k] + s[k..];
    }
  }

  lemma {:induction false} ValueIsCalm(v: Value)
    requires Ok(v)
    ensures Calm(Text(v))
    decreases v
  {
    match v
    case Word(t) => UnmarkedIsCalm(t);
    case Num(n) => NumberIsCalm(n);
    case Str(ps) => QuotedIsCalm(ps);
    case Arr(gap, items) =>
      InsideArrayIsCalm(gap, items);
      UnmarkedIsCalm("[");
      UnmarkedIsCalm("]");
      var inner := if items.NoItems? then gap else ItemsText(items);
      CalmAppend("[", inner);
      CalmAppend("[" + inner, "]");
    case Obj(gap, members) =>
      InsideObjectIsCalm(gap, members);
      BracedIsCalm(if members.NoMembers? then gap else MembersText(members));
  }

  lemma {:induction false} InsideArrayIsCalm(gap: string, items: Items)
    requires Blank(gap) && ItemsOk(items)
    ensures Calm(if items.NoItems? then gap else ItemsText(items))
    decreases items, 1
  {
    if items.NoItems? {
      UnmarkedIsCalm(gap);
    } else {
      ItemsAreCalm(items);
    }
  }

  lemma {:induction false} InsideObjectIsCalm(gap: string, members: Members)
    requires Blank(gap) && MembersOk(members)
    ensures Calm(if members.NoMembers? then gap else MembersText(members))
    decreases members, 1
  {
    if members.NoMembers? {
      UnmarkedIsCalm(gap);
    } else {
      MembersAreCalm(members);
    }
  }

  lemma {:induction false} ItemsAreCalm(it: Items)
    requires ItemsOk(it)
    ensures Calm(ItemsText(it))
    decreases it, 0
  {
    if it.Item? {
      UnmarkedIsCalm(it.before);
      ValueIsCalm(it.value);
      UnmarkedIsCalm(it.after);
      ItemsAreCalm(it.rest);
      var tail := if it.rest.NoItems? then "" else "," + ItemsText(it.rest);
      CalmTail(ItemsText(it.rest), it.rest.NoItems?, tail);
      CalmAppend(it.before, Text(it.value));
      CalmAppend(it.before + Text(it.value), it.after);
      CalmAppend(it.before + Text(it.value) + it.after, tail);
    }
  }

  lemma CalmTail(rest: string, last: bool, tail: string)
    requires Calm(rest) && tail == if last then "" else "," + rest
    ensures Calm(tail)
  {
    UnmarkedIsCalm(",");
    UnmarkedIsCalm("");
    CalmAppend(",", rest);
  }

  lemma {:induction false} MembersAreCalm(ms: Members)
    requires MembersOk(ms)
    ensures Calm(MembersText(ms))
    decreases ms, 0
  {
    if ms.Member? {
      ValueIsCalm(ms.value);
      MembersAreCalm(ms.rest);
      var tail := if ms.rest.NoMembers? then "" else "," + MembersText(ms.rest);
      CalmTail(MembersText(ms.rest), ms.rest.NoMembers?, tail);
      MemberIsCalm(ms.before, ms.name, ms.mid, ms.next, Text(ms.value), ms.after, tail);
    }
  }

  lemma MemberIsCalm(before: string, name: seq<Piece>, mid: string, next: string, value: string, after: string,
                     tail: string)
    requires Blank(before) && PiecesOk(name) && Blank(mid) && Blank(next) && Calm(value) && Blank(after) && Calm(tail)
    ensures Calm(before + Quoted(name) + mid + ":" + next + value + after + tail)
  {
    UnmarkedIsCalm(before);
    QuotedIsCalm(name);
    CalmAppend(before, Quoted(name));
    UnmarkedIsCalm(mid);
    CalmAppend(before + Quoted(name), mid);
    UnmarkedIsCalm(":");
    CalmAppend(before + Quoted(name) + mid, ":");
    UnmarkedIsCalm(next);
    CalmAppend(before + Quoted(name) + mid + ":", next);
    CalmAppend(before + Quoted(name) + mid + ":" + next, value);
    UnmarkedIsCalm(after);
    CalmAppend(before + Quoted(name) + mid + ":" + next + value, after);
    CalmAppend(before + Quoted(name) + mid + ":" + next + value + after, tail);
  }

  /** However deep its nesting and whatever its strings hold, the scanner ends an object at its last brace. */
  lemma ObjectClosesAtItsEnd(o: string, suffix: string)
    requires IsObject(o)
    ensures ClosesAt(o + suffix, Outside(0), |o|)
  {
    var v: Value :| v.Obj? && Ok(v) && o == Text(v);
    var inner := if v.members.NoMembers? then v.gap else MembersText(v.members);
    var open := "{" + inner;
    InsideObjectIsCalm(v.gap, v.members);
    RunAppend("{", inner, Outside(0));
    assert Run(open, Outside(0)) == Outside(1);
    RunAppend(open, "}", Outside(0));
    assert o == open + "}" && (o + suffix)[..|o|] == o;
    forall m | 0 <= m < |o| ensures Run((o + suffix)[..m], Outside(0)) != Done {
      assert open == open[..m] + open[m..] && (o + suffix)[..m] == open[..m];
      RunAppend(open[..m], open[m..], Outside(0));
      DoneStays(open[m..]);
    }
  }

  /** No object is a proper prefix of another. */
  lemma ObjectsArePrefixFree(o: string, p: string, afterO: string, afterP: string)
    requires IsObject(o) && IsObject(p) && o + afterO == p + afterP
    ensures o == p
  {
    ObjectClosesAtItsEnd(o, afterO);
    ObjectClosesAtItsEnd(p, afterP);
    ClosesOnce(o + afterO, Outside(0), |o|, |p|);
    assert (o + afterO)[..|o|] == o && (p + afterP)[..|p|] == p;
  }
}
