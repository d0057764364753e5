// The statement lexer of tools/migrate.py as functions over the text still to be read.
// SplitStatements.dfy holds the loop that computes the same thing with an index and two buffers.
module Lexer {
  import opened Wrappers
  import opened Chars

  datatype LexError = OpenComment | OpenText | OpenName | OpenDollar | Backslash

  datatype Result<+T> = Ok(value: T) | Err(error: LexError)

  /** One statement: its trimmed text, and the same text with comments and quoted text blanked. */
  datatype Statement = Statement(text: string, code: string)

  /** What the two characters before a position say: may a $ start a quote here, does a ' open an E-string. */
  datatype Glue = Glue(ident: bool, escape: bool)

  const CLEAN := Glue(false, false)

  predicate IdentChar(c: char) { IsAlnum(c) || c == '_' || c == '$' }

  /** The glue after more text, of which at least one character is known. */
  function After(g: Glue, read: string): Glue
    requires read != ""
  {
    var last := read[|read| - 1];
    var before := if |read| > 1 then IdentChar(read[|read| - 2]) else g.ident;
    Glue(IdentChar(last), (last == 'e' || last == 'E') && !before)
  }

  // ---- where one token ends

  datatype Kind = LineComment | BlockComment | Text | Name | Dollar | Other

  datatype Token = Semicolon | Bad(error: LexError) | Token(kind: Kind, len: nat)

  /** The end of a comment whose nesting is depth at j. */
  function CommentEnd(s: string, j: nat, depth: nat): (e: Option<nat>)
    ensures e.Some? && depth > 0 ==> j + 2 <= e.value <= |s| && s[e.value - 1] == '/'
    ensures e.Some? && depth == 0 ==> e.value == j
    decreases |s| - j
  {
    if depth == 0 then Some(j)
    else if j >= |s| then None
    else if StartsAt(s, j, "/*") then CommentEnd(s, j + 2, depth + 1)
    else if StartsAt(s, j, "*/") then CommentEnd(s, j + 2, depth - 1)
    else CommentEnd(s, j + 1, depth)
  }

  /** The end of a text between q characters, from inside it at j; a doubled q does not close it. */
  function QuoteEnd(s: string, j: nat, q: char, escapes: bool): (e: Option<nat>)
    ensures e.Some? ==> j < e.value <= |s| && s[e.value - 1] == q && (e.value == |s| || s[e.value] != q)
    decreases |s| - j
  {
    if j >= |s| then None
    else if escapes && s[j] == '\\' then QuoteEnd(s, j + 2, q, escapes)
    else if s[j] == q then
      if j + 1 < |s| && s[j + 1] == q then QuoteEnd(s, j + 2, q, escapes) else Some(j + 1)
    else QuoteEnd(s, j + 1, q, escapes)
  }

  predicate TagChar(c: char) { IsLetter(c) || IsDigit(c) || c == '_' }

  function TagRun(s: string, j: nat): (e: nat)
    requires j <= |s|
    ensures j <= e <= |s| && (e < |s| ==> !TagChar(s[e]))
    ensures forall k :: j <= k < e ==> TagChar(s[k])
    decreases |s| - j
  {
    if j < |s| && TagChar(s[j]) then TagRun(s, j + 1) else j
  }

  /** The length of the dollar-quote opener at the start of s, if there is one: $$ or $tag$. */
  function Tag(s: string): (n: Option<nat>)
    requires s != "" && s[0] == '$'
    ensures n.Some? ==> 2 <= n.value <= |s| && s[n.value - 1] == '$'
  {
    var j := TagRun(s, 1);
    if j < |s| && s[j] == '$' && (j == 1 || !IsDigit(s[1])) then Some(j + 1) else None
  }

  /** The first token of a text, given what stands before it. */
  function Scan(g: Glue, s: string): (t: Token)
    requires s != ""
    ensures t.Token? ==> 1 <= t.len <= |s|
    ensures t.Semicolon? <==> s[0] == ';'
  {
    if StartsAt(s, 0, "--") then
      assert s[0] == s[0..2][0] == '-';
      Token(LineComment, Find(s, "\n", 0))
    else if StartsAt(s, 0, "/*") then
      match CommentEnd(s, 2, 1) case None => Bad(OpenComment) case Some(e) => Token(BlockComment, e)
    else if s[0] == '\'' then
      match QuoteEnd(s, 1, '\'', g.escape) case None => Bad(OpenText) case Some(e) => Token(Text, e)
    else if s[0] == '"' then
      match QuoteEnd(s, 1, '"', false) case None => Bad(OpenName) case Some(e) => Token(Name, e)
    else if s[0] == '$' && !g.ident && Tag(s).Some? then
      var n := Tag(s).value;
      var e := Find(s, s[..n], n);
      if e == |s| then Bad(OpenDollar) else Token(Dollar, e + n)
    else if s[0] == ';' then Semicolon
    else if s[0] == '\\' then Bad(Backslash)
    else Token(Other, 1)
  }

  // ---- statements

  /** The body of a dollar-quoted token. */
  function Body(piece: string): (b: string)
    requires IsDollarQuote(piece)
    ensures |b| < |piece|
  {
    var n := Tag(piece).value;
    piece[n..|piece| - n]
  }

  predicate IsDollarQuote(piece: string) {
    piece != "" && piece[0] == '$' && Tag(piece).Some? && 2 * Tag(piece).value <= |piece|
  }

  /** The words inside a dollar-quoted body, with its own comments and quoted text blanked. */
  function InnerCode(body: string): string
    decreases |body|, 3
  {
    match Split(body)
    case Ok(statements) => Join("; ", Codes(statements))
    case Err(_) => " "
  }

  /** How a token is shown to the keyword checks. */
  function Shown(kind: Kind, piece: string): string
    requires piece != ""
    decreases |piece|, 0
  {
    match kind
    case LineComment => Spaces(|piece|)
    case BlockComment => Spaces(|piece|)
    case Text => if |piece| < 2 then piece else "'" + Spaces(|piece| - 2) + "'"
    case Name => if |piece| < 2 then piece else "\"" + Spaces(|piece| - 2) + "\""
    case Dollar =>
      if !IsDollarQuote(piece) then piece
      else
        var tag := piece[..Tag(piece).value];
        tag + " " + InnerCode(Body(piece)) + " " + tag
    case Other => piece
  }

  datatype Segment = Stop(len: nat, code: string) | Fail(error: LexError)

  /** Everything up to the next semicolon outside quotes and comments, or to the end. */
  function Seg(g: Glue, s: string): (r: Segment)
    ensures r.Stop? ==> r.len <= |s| && (r.len == |s| || s[r.len] == ';')
    decreases |s|, 1
  {
    if s == "" then Stop(0, "")
    else
      match Scan(g, s)
      case Semicolon => Stop(0, "")
      case Bad(e) => Fail(e)
      case Token(kind, n) =>
        match Seg(After(g, s[..n]), s[n..])
        case Fail(e) => Fail(e)
        case Stop(m, code) => Stop(n + m, Shown(kind, s[..n]) + code)
  }

  /** The statements of a text: its segments, without the ones that hold only comments and space. */
  function Split(s: string): Result<seq<Statement>>
    decreases |s|, 2
  {
    match Seg(CLEAN, s)
    case Fail(e) => Err(e)
    case Stop(n, code) =>
      var rest := if n == |s| then Ok([]) else Split(s[n + 1..]);
      match rest
      case Err(e) => Err(e)
      case Ok(more) => Ok(Kept(s[..n], code) + more)
  }

  function Codes(statements: seq<Statement>): seq<string> {
    seq(|statements|, k requires 0 <= k < |statements| => statements[k].code)
  }

  function Kept(raw: string, code: string): seq<Statement> {
    if Strip(code) == "" then [] else [Statement(Strip(raw), code)]
  }
}
