/**
 JSON texts as RFC 8259 defines them (sections 2 to 7), as concrete syntax trees that
 keep every character: whitespace, escapes and the spelling of numbers. A text is JSON
 when some tree spells it out.
 */
module Json {

  predicate HexDigit(c: char) {
    '0' <= c <= '9' || 'a' <= c <= 'f' || 'A' <= c <= 'F'
  }

  /** One character of a string (section 7). */
  datatype Piece = Plain(c: char) | Short(c: char) | Hex(digits: string)
  {
    predicate Ok() {
      match this
      case Plain(c) => c >= ' ' && c != '\"' && c != '\\'
      case Short(c) => c in "\"\\/bfnrt"
      case Hex(ds) => |ds| == 4 && forall i :: 0 <= i < 4 ==> HexDigit(ds[i])
    }

    function Text(): string {
      match this
      case Plain(c) => [c]
      case Short(c) => ['\\', c]
      case Hex(ds) => "\\u" + ds
    }
  }

  predicate AllDigits(s: string) {
    forall i :: 0 <= i < |s| ==> '0' <= s[i] <= '9'
  }

  /** Section 6: [ minus ] int [ frac ] [ exp ], each optional part empty or spelled out. */
  datatype Number = Number(minus: bool, whole: string, frac: string, exp: string)
  {
    predicate Ok() {
      && whole != "" && AllDigits(whole) && (|whole| > 1 ==> whole[0] != '0')
      && (frac != "" ==> |frac| > 1 && frac[0] == '.' && AllDigits(frac[1..]))
      && (exp != "" ==> ExpOk(exp))
    }

    static predicate ExpOk(e: string) {
      |e| > 1 && e[0] in "eE" && var ds := if e[1] in "+-" then e[2..] else e[1..]; ds != "" && AllDigits(ds)
    }

    function Text(): string {
      (if minus then "-" else "") + whole + frac + exp
    }
  }

  /** The insignificant whitespace of section 2. */
  predicate Blank(s: string) {
    forall i :: 0 <= i < |s| ==> s[i] in " \t\n\r"
  }

  datatype Value =
    | Word(text: string)
    | Num(number: Number)
    | Str(pieces: seq<Piece>)
    | Arr(gap: string, items: Items)
    | Obj(gap: string, members: Members)

  /** Elements with the whitespace around each; `gap` fills an empty array or object. */
  datatype Items = NoItems | Item(before: string, value: Value, after: string, rest: Items)

  datatype Members =
    | NoMembers
    | Member(before: string, name: seq<Piece>, mid: string, next: string, value: Value, after: string, rest: Members)

  predicate PiecesOk(ps: seq<Piece>) {
    forall i :: 0 <= i < |ps| ==> ps[i].Ok()
  }

  predicate Ok(v: Value) {
    match v
    case Word(t) => t == "null" || t == "true" || t == "false"
    case Num(n) => n.Ok()
    case Str(ps) => PiecesOk(ps)
    case Arr(gap, items) => Blank(gap) && ItemsOk(items)
    case Obj(gap, members) => Blank(gap) && MembersOk(members)
  }

  predicate ItemsOk(it: Items) {
    match it
    case NoItems => true
    case Item(b, v, a, rest) => Blank(b) && Ok(v) && Blank(a) && ItemsOk(rest)
  }

  predicate MembersOk(ms: Members) {
    match ms
    case NoMembers => true
    case Member(b, name, mid, next, v, a, rest) =>
      Blank(b) && PiecesOk(name) && Blank(mid) && Blank(next) && Ok(v) && Blank(a) && MembersOk(rest)
  }

  function PiecesText(ps: seq<Piece>): string {
    if ps == [] then "" else ps[0].Text() + PiecesText(ps[1..])
  }

  function Quoted(ps: seq<Piece>): string {
    "\"" + PiecesText(ps) + "\""
  }

  function Text(v: Value): string {
    match v
    case Word(t) => t
    case Num(n) => n.Text()
    case Str(ps) => Quoted(ps)
    case Arr(gap, items) => "[" + (if items.NoItems? then gap else ItemsText(items)) + "]"
    case Obj(gap, members) => "{" + (if members.NoMembers? then gap else MembersText(members)) + "}"
  }

  function ItemsText(it: Items): string {
    match it
    case NoItems => ""
    case Item(b, v, a, rest) => b + Text(v) + a + (if rest.NoItems? then "" else "," + ItemsText(rest))
  }

  function MembersText(ms: Members): string {
    match ms
    case NoMembers => ""
    case Member(b, name, mid, next, v, a, rest) =>
      b + Quoted(name) + mid + ":" + next + Text(v) + a + (if rest.NoMembers? then "" else "," + MembersText(rest))
  }

  ghost predicate Spells(s: string, pre: string, v: Value, post: string) {
    Blank(pre) && Ok(v) && Blank(post) && s == pre + Text(v) + post
  }

  ghost predicate IsJson(s: string) {
    exists pre, v, post :: Spells(s, pre, v, post)
  }

  ghost predicate IsObject(s: string) {
    exists v: Value :: v.Obj? && Ok(v) && s == Text(v)
  }

  /** A value is an object exactly when its text begins with a brace. */
  lemma FirstChar(v: Value)
    requires Ok(v)
    ensures Text(v) != "" && (Text(v)[0] == '{' <==> v.Obj?)
  {
    if v.Num? {
      var n := v.number;
      assert Text(v)[0] == if n.minus then '-' else n.whole[0];
    }
  }

  lemma Ends(pre: string, mid: string, post: string)
    requires mid != ""
    ensures (pre + mid + post)[0] == (if pre == "" then mid else pre)[0]
    ensures post != "" ==> (pre + mid + post)[|pre + mid + post| - 1] in post
  {
    var s := pre + mid + post;
    assert post != "" ==> s[|s| - 1] == post[|post| - 1];
  }

  /** A JSON text with nothing around its braces is an object. */
  lemma BareObject(s: string)
    requires IsJson(s) && s != "" && s[0] == '{' && s[|s| - 1] !in " \t\n\r"
    ensures IsObject(s)
  {
    var pre, v, post :| Spells(s, pre, v, post);
    FirstChar(v);
    Ends(pre, Text(v), post);
    assert s == Text(v);
  }
}
