// split_sql of app/admin_panel/database.py, the smaller lexer, and where it agrees with the one of
// tools/migrate.py.
module SplitSql {
  import opened Wrappers
  import opened Chars
  import opened Lexer
  import opened Locality
  import opened Resplit

  // ---- the small lexer over the text still to be read

  datatype Mode = Plain | Quoted(q: char) | Dollars(tag: string)

  /** What is read up to the next cut: its length, and what is kept of it. */
  datatype Chunk = Chunk(len: nat, text: string)

  function SqlRun(s: string, j: nat): (e: nat)
    requires j <= |s|
    ensures j <= e <= |s| && (e < |s| ==> !IsLetter(s[e]) && s[e] != '_')
    ensures forall k :: j <= k < e ==> IsLetter(s[k]) || s[k] == '_'
    decreases |s| - j
  {
    if j < |s| && (IsLetter(s[j]) || s[j] == '_') then SqlRun(s, j + 1) else j
  }

  /** The dollar-quote opener as this lexer knows it: no digit in the tag. */
  function SqlTag(s: string): (n: Option<nat>)
    requires s != "" && s[0] == '$'
    ensures n.Some? ==> 2 <= n.value <= |s|
  {
    var j := SqlRun(s, 1);
    if j < |s| && s[j] == '$' then Some(j + 1) else None
  }

  function Push(n: nat, text: string, next: Chunk): Chunk { Chunk(n + next.len, text + next.text) }

  function ScanSql(m: Mode, s: string): (c: Chunk)
    ensures c.len <= |s| && (c.len == |s| || s[c.len] == ';')
    decreases |s|
  {
    hide Find, StartsAt, SqlTag;
    if s == "" then Chunk(0, "")
    else
      match m
      case Dollars(tag) =>
        if tag != "" && StartsAt(s, 0, tag) then Push(|tag|, tag, ScanSql(Plain, s[|tag|..]))
        else Push(1, s[..1], ScanSql(m, s[1..]))
      case Quoted(q) => Push(1, s[..1], ScanSql(if s[0] == q then Plain else m, s[1..]))
      case Plain =>
        if s[0] == '\'' || s[0] == '"' then Push(1, s[..1], ScanSql(Quoted(s[0]), s[1..]))
        else if StartsAt(s, 0, "--") && Find(s, "\n", 0) > 0 then
          Push(Find(s, "\n", 0), "", ScanSql(Plain, s[Find(s, "\n", 0)..]))
        else if s[0] == '$' && SqlTag(s).Some? then
          var n := SqlTag(s).value;
          Push(n, s[..n], ScanSql(Dollars(s[..n]), s[n..]))
        else if s[0] == ';' then Chunk(0, "")
        else Push(1, s[..1], ScanSql(Plain, s[1..]))
  }

  function SqlKept(text: string): seq<string> {
    if Strip(text) == "" then [] else [Strip(text)]
  }

  function SqlSplit(s: string): seq<string>
    decreases |s|
  {
    var c := ScanSql(Plain, s);
    SqlKept(c.text) + if c.len == |s| then [] else SqlSplit(s[c.len + 1..])
  }

  // ---- the loop as it is written

  ghost function Going(m: Mode, rest: string, cur: string): seq<string> {
    var c := ScanSql(m, rest);
    SqlKept(cur + c.text) + if c.len == |rest| then [] else SqlSplit(rest[c.len + 1..])
  }

  lemma GoOn(m: Mode, m': Mode, rest: string, cur: string, n: nat, text: string)
    requires n <= |rest| && ScanSql(m, rest) == Push(n, text, ScanSql(m', rest[n..]))
    ensures Going(m, rest, cur) == Going(m', rest[n..], cur + text)
  {
    hide ScanSql, SqlSplit, SqlKept;
    var c := ScanSql(m', rest[n..]);
    assert cur + (text + c.text) == (cur + text) + c.text;
    if n + c.len < |rest| { assert rest[n + c.len + 1..] == rest[n..][c.len + 1..]; }
  }

  lemma CutHere(rest: string, cur: string)
    requires rest != "" && rest[0] == ';'
    ensures Going(Plain, rest, cur) == SqlKept(cur) + Going(Plain, rest[1..], "")
  {
    hide SqlKept, ScanSql, SqlSplit;
    SemicolonStops(rest);
    assert cur + "" == cur;
    RestSplits(rest[1..], "");
  }

  lemma RestSplits(rest: string, cur: string)
    requires cur == ""
    ensures SqlSplit(rest) == Going(Plain, rest, cur)
  {
    hide ScanSql, SqlKept, SqlSplit, Going;
    var c := ScanSql(Plain, rest);
    assert cur + c.text == c.text;
    SqlSplitStep(rest, c.len, c.text);
    GoingIs(Plain, rest, cur, c, c.text);
  }

  lemma GoingIs(m: Mode, rest: string, cur: string, c: Chunk, all: string)
    requires ScanSql(m, rest) == c && all == cur + c.text
    ensures Going(m, rest, cur) == SqlKept(all) + if c.len == |rest| then [] else SqlSplit(rest[c.len + 1..])
  {
    hide ScanSql, SqlKept, SqlSplit;
  }

  lemma SemicolonStops(rest: string)
    requires rest != "" && rest[0] == ';'
    ensures ScanSql(Plain, rest) == Chunk(0, "")
  {
    hide Find;
    DashHead(rest);
  }

  lemma GoOnAt(text: string, i: nat, m: Mode, m': Mode, cur: string, n: nat, added: string)
    requires i + n <= |text| && ScanSql(m, text[i..]) == Push(n, added, ScanSql(m', text[i..][n..]))
    ensures Going(m, text[i..], cur) == Going(m', text[i + n..], cur + added)
  {
    hide ScanSql, Going;
    GoOn(m, m', text[i..], cur, n, added);
    assert text[i..][n..] == text[i + n..];
  }

  lemma CutAt(text: string, i: nat, out: seq<string>, cur: string)
    requires i < |text| && text[i] == ';'
    ensures out + Going(Plain, text[i..], cur)
         == (if Strip(cur) != "" then out + [Strip(cur)] else out) + Going(Plain, text[i + 1..], "")
  {
    hide Going, Strip;
    CutHere(text[i..], cur);
    assert text[i..][1..] == text[i + 1..];
    assert out + [] == out;
    var later := Going(Plain, text[i + 1..], "");
    assert out + (SqlKept(cur) + later) == (out + SqlKept(cur)) + later;
  }

  lemma DashHead(s: string)
    requires s != ""
    ensures StartsAt(s, 0, "--") ==> s[0] == '-' && Find(s, "\n", 0) > 0
  {
    assert 2 <= |s| ==> s[0..2][0] == s[0];
    assert s[0..1] == s[..1];
  }

  lemma DollarRest(tag: string, rest: string)
    requires rest != ""
    ensures tag != "" && StartsAt(rest, 0, tag) ==>
              ScanSql(Dollars(tag), rest) == Push(|tag|, tag, ScanSql(Plain, rest[|tag|..]))
    ensures !(tag != "" && StartsAt(rest, 0, tag)) ==>
              ScanSql(Dollars(tag), rest) == Push(1, rest[..1], ScanSql(Dollars(tag), rest[1..]))
  {
  }

  lemma QuoteRest(q: char, rest: string)
    requires rest != ""
    ensures ScanSql(Quoted(q), rest)
            == Push(1, rest[..1], ScanSql(if rest[0] == q then Plain else Quoted(q), rest[1..]))
  {
  }

  /** What one turn of the loop reads: the new mode, how far, and what is added to cur; None at a semicolon. */
  method Turn(text: string, i: nat, m: Mode) returns (r: Option<(Mode, nat, string)>)
    requires i < |text|
    ensures r.Some? ==> var (m', n, added) := r.value;
              1 <= n <= |text| - i && ScanSql(m, text[i..]) == Push(n, added, ScanSql(m', text[i..][n..]))
    ensures r.None? <==> m == Plain && text[i] == ';'
  {
    ghost var rest := text[i..];
    var ch := text[i];
    assert rest[0] == ch && rest[..1] == [ch];
    DashHead(rest);
    match m {
      case Dollars(tag) =>
        DollarRest(tag, rest);
        assert i + |tag| <= |text| ==> text[i..i + |tag|] == rest[0..|tag|];
        if tag != "" && StartsAt(text, i, tag) {
          return Some((Plain, |tag|, tag));
        }
      case Quoted(q) =>
        QuoteRest(q, rest);
        if ch == q {
          return Some((Plain, 1, [ch]));
        }
      case Plain =>
        if ch == '\'' || ch == '"' {
          return Some((Quoted(ch), 1, [ch]));
        }
        assert i + 2 <= |text| ==> text[i..i + 2] == rest[0..2];
        if ch == '-' && StartsAt(text, i, "--") {
          var j := Find(text[i..], "\n", 0);
          return Some((Plain, j, ""));
        }
        if ch == '$' {
          var t := SqlTag(text[i..]);
          if t.Some? {
            return Some((Dollars(text[i..][..t.value]), t.value, text[i..][..t.value]));
          }
        }
        if ch == ';' {
          return None;
        }
    }
    r := Some((m, 1, [ch]));
  }

  /** Statements, split on semicolons outside quotes and $$ bodies, with line comments dropped. */
  method SplitText(text: string) returns (out: seq<string>)
    ensures out == SqlSplit(text)
  {
    hide ScanSql, SqlSplit, Strip, Going;
    out := [];
    var cur, i, m := "", 0, Plain;
    Start(text);
    while i < |text|
      invariant 0 <= i <= |text|
      invariant SqlSplit(text) == out + Going(m, text[i..], cur)
      decreases |text| - i
    {
      var turn := Turn(text, i, m);
      match turn {
        case Some((m', n, added)) =>
          GoOnAt(text, i, m, m', cur, n, added);
          m, i, cur := m', i + n, cur + added;
        case None =>
          CutAt(text, i, out, cur);
          if Strip(cur) != "" { out := out + [Strip(cur)]; }
          cur, i := "", i + 1;
      }
    }
    assert text[i..] == "" && out + [] == out;
    Finish(m, "", cur);
    if Strip(cur) != "" { out := out + [Strip(cur)]; }
  }

  lemma Start(text: string)
    ensures SqlSplit(text) == [] + Going(Plain, text[0..], "")
  {
    hide ScanSql, SqlSplit, Going;
    assert text[0..] == text;
    RestSplits(text, "");
  }

  lemma Finish(m: Mode, rest: string, cur: string)
    requires rest == ""
    ensures Going(m, rest, cur) == SqlKept(cur)
  {
    assert cur + "" == cur;
  }

  // ---- agreement with the lexer of tools/migrate.py

  /** The texts both lexers are meant for: well closed, with no block comment, no backslash in a quoted text,
      no digit in a dollar tag and no dollar sign right after an identifier character. */
  predicate Common(g: Glue, s: string)
    decreases |s|
  {
    s == "" ||
    match Scan(g, s)
    case Bad(_) => false
    case Semicolon => Common(CLEAN, s[1..])
    case Token(kind, n) =>
      && kind != BlockComment
      && (s[0] == '$' ==> !g.ident)
      && (kind == Text ==> '\\' !in s[..n])
      && (kind == Dollar ==> forall k | 0 <= k < Tag(s).value :: !IsDigit(s[k]))
      && Common(After(g, s[..n]), s[n..])
  }

  /** A segment without its line comments. */
  function Bare(g: Glue, s: string): string
    decreases |s|
  {
    if s == "" || !Scan(g, s).Token? then ""
    else
      var t := Scan(g, s);
      (if t.kind == LineComment then "" else s[..t.len]) + Bare(After(g, s[..t.len]), s[t.len..])
  }

  /** Inside quotes: both lexers come out at the same place. */
  lemma {:induction false} QuotedSame(s: string, j: nat, q: char, escapes: bool)
    requires j <= |s| && QuoteEnd(s, j, q, escapes).Some? && (q == '\'' || q == '"')
    requires forall k | j <= k < QuoteEnd(s, j, q, escapes).value :: escapes ==> s[k] != '\\'
    ensures var e := QuoteEnd(s, j, q, escapes).value;
            ScanSql(Quoted(q), s[j..]) == Push(e - j, s[j..e], ScanSql(Plain, s[e..]))
    decreases |s| - j
  {
    hide ScanSql, Push, QuoteEnd;
    var e := QuoteEnd(s, j, q, escapes).value;
    QuoteGoes(s, j, q, escapes);
    if s[j] != q {
      QuotedSame(s, j + 1, q, escapes);
      QuotedOn(s, j, q, e, ScanSql(Plain, s[e..]));
    } else if e > j + 1 {
      QuotedSame(s, j + 2, q, escapes);
      QuoteDoubled(s, j, q, e, ScanSql(Plain, s[e..]));
    } else {
      QuoteRest(q, s[j..]);
      Slices(s, j);
    }
  }

  /** One character on between quotes. */
  lemma QuotedOn(s: string, j: nat, q: char, e: nat, c: Chunk)
    requires j < e <= |s| && s[j] != q && ScanSql(Quoted(q), s[j + 1..]) == Push(e - (j + 1), s[j + 1..e], c)
    ensures ScanSql(Quoted(q), s[j..]) == Push(e - j, s[j..e], c)
  {
    hide ScanSql, Push;
    QuoteRest(q, s[j..]);
    Slices(s, j);
    PushSlices(s, j, j + 1, e, c);
  }

  /** A doubled quote closes the text for the small lexer and opens it again. */
  lemma QuoteDoubled(s: string, j: nat, q: char, e: nat, c: Chunk)
    requires j + 2 <= e <= |s| && s[j] == s[j + 1] == q && (q == '\'' || q == '"')
    requires ScanSql(Quoted(q), s[j + 2..]) == Push(e - (j + 2), s[j + 2..e], c)
    ensures ScanSql(Quoted(q), s[j..]) == Push(e - j, s[j..e], c)
  {
    hide ScanSql, Push;
    QuoteRest(q, s[j..]);
    Slices(s, j);
    OpenQuote(q, s[j + 1..]);
    Slices(s, j + 1);
    PushSlices(s, j + 1, j + 2, e, c);
    PushSlices(s, j, j + 1, e, c);
  }

  lemma QuoteGoes(s: string, j: nat, q: char, escapes: bool)
    requires j <= |s| && QuoteEnd(s, j, q, escapes).Some?
    requires j < |s| && escapes ==> s[j] != '\\'
    ensures j < |s|
    ensures s[j] != q ==> QuoteEnd(s, j + 1, q, escapes) == QuoteEnd(s, j, q, escapes)
    ensures s[j] == q && QuoteEnd(s, j, q, escapes).value > j + 1 ==>
              j + 1 < |s| && s[j + 1] == q && QuoteEnd(s, j + 2, q, escapes) == QuoteEnd(s, j, q, escapes)
  {
  }

  lemma Slices(s: string, j: nat)
    requires j < |s|
    ensures s[j..][..1] == s[j..j + 1] && s[j..][1..] == s[j + 1..] && s[j..][0] == s[j]
  {
  }

  lemma PushSlices(s: string, j: nat, m: nat, e: nat, c: Chunk)
    requires j <= m <= e <= |s|
    ensures Push(m - j, s[j..m], Push(e - m, s[m..e], c)) == Push(e - j, s[j..e], c)
  {
    assert s[j..m] + (s[m..e] + c.text) == s[j..e] + c.text;
  }

  lemma OpenQuote(q: char, s: string)
    requires s != "" && s[0] == q && (q == '\'' || q == '"')
    ensures ScanSql(Plain, s) == Push(1, s[..1], ScanSql(Quoted(q), s[1..]))
  {
  }

  /** Inside a dollar-quoted body: both lexers come out at the same place. */
  lemma {:induction false} DollarSame(s: string, j: nat, tag: string, e: nat)
    requires j <= |s| && tag != "" && Find(s, tag, j) == e && e + |tag| <= |s|
    requires e < |s|
    ensures ScanSql(Dollars(tag), s[j..]) == Push(e + |tag| - j, s[j..e + |tag|], ScanSql(Plain, s[e + |tag|..]))
    decreases |s| - j
  {
    hide ScanSql, Push, StartsAt;
    if j == e {
      DollarCloses(s, j, tag);
    } else {
      FindMoves(s, j, tag, e);
      DollarOn(s, j, tag);
      DollarSame(s, j + 1, tag, e);
      PushSlices(s, j, j + 1, e + |tag|, ScanSql(Plain, s[e + |tag|..]));
    }
  }

  lemma FindMoves(s: string, j: nat, tag: string, e: nat)
    requires tag != "" && j < e < |s| && Find(s, tag, j) == e
    ensures !StartsAt(s, j, tag) && Find(s, tag, j + 1) == e
  {
    hide StartsAt;
  }

  /** The tag is not here: one character on. */
  lemma DollarOn(s: string, j: nat, tag: string)
    requires j < |s| && !StartsAt(s, j, tag)
    ensures ScanSql(Dollars(tag), s[j..]) == Push(1, s[j..j + 1], ScanSql(Dollars(tag), s[j + 1..]))
  {
    hide ScanSql, Push;
    DollarRest(tag, s[j..]);
    assert j + |tag| <= |s| ==> s[j..][0..|tag|] == s[j..j + |tag|];
    Slices(s, j);
  }

  /** The tag is here: the body ends. */
  lemma DollarCloses(s: string, j: nat, tag: string)
    requires j < |s| && tag != "" && StartsAt(s, j, tag)
    ensures var e := j + |tag|;
            e <= |s| && ScanSql(Dollars(tag), s[j..]) == Push(|tag|, s[j..e], ScanSql(Plain, s[e..]))
  {
    hide ScanSql, Push;
    DollarRest(tag, s[j..]);
    var n := |tag|;
    assert s[j..][0..n] == s[j..j + n];
    assert s[j..][n..] == s[j + n..] && s[j..j + n] == tag;
  }

  lemma {:induction false} RunsSame(s: string, j: nat)
    requires j <= |s|
    ensures SqlRun(s, j) <= TagRun(s, j)
    ensures (forall k | j <= k < TagRun(s, j) :: !IsDigit(s[k])) ==> SqlRun(s, j) == TagRun(s, j)
    decreases |s| - j
  {
    if j < |s| && TagChar(s[j]) { RunsSame(s, j + 1); }
  }

  lemma TagsSame(s: string)
    requires s != "" && s[0] == '$'
    ensures Tag(s).None? ==> SqlTag(s).None?
    ensures Tag(s).Some? && (forall k | 0 <= k < Tag(s).value :: !IsDigit(s[k])) ==> SqlTag(s) == Tag(s)
  {
    RunsSame(s, 1);
    var j, m := SqlRun(s, 1), TagRun(s, 1);
    if j < m { assert TagChar(s[j]); }
    if j == m && j > 1 { assert IsLetter(s[1]) || s[1] == '_'; }
  }

  /** One token: both lexers read the same text, and the small one drops it when it is a line comment. */
  lemma TokenSame(g: Glue, s: string)
    requires s != "" && Common(g, s) && Scan(g, s).Token?
    ensures var t := Scan(g, s);
            ScanSql(Plain, s) ==
              Push(t.len, if t.kind == LineComment then "" else s[..t.len], ScanSql(Plain, s[t.len..]))
  {
    hide Common, ScanSql, QuoteEnd, CommentEnd, Find, Tag, SqlTag, After, StartsAt;
    var t := Scan(g, s);
    CommonHere(g, s);
    DashHead(s);
    if StartsAt(s, 0, "--") {
      DashStep(s);
    } else if s[0] == '\'' || s[0] == '"' {
      QuoteStep(g, s);
    } else if s[0] == '$' && Tag(s).Some? {
      DollarStep(g, s);
    } else {
      if s[0] == '$' { TagsSame(s); }
      OtherStep(s);
    }
  }

  lemma CommonHere(g: Glue, s: string)
    requires s != "" && Common(g, s) && Scan(g, s).Token?
    ensures var t := Scan(g, s);
            && t.kind != BlockComment && (s[0] == '$' ==> !g.ident) && (t.kind == Text ==> '\\' !in s[..t.len])
            && (t.kind == Dollar ==> Tag(s).Some? && forall k | 0 <= k < Tag(s).value :: !IsDigit(s[k]))
            && Common(After(g, s[..t.len]), s[t.len..])
  {
    hide QuoteEnd, CommentEnd, Find, Tag, After;
  }

  lemma DashStep(s: string)
    requires s != "" && StartsAt(s, 0, "--") && Find(s, "\n", 0) > 0 && s[0] == '-'
    ensures ScanSql(Plain, s) == Push(Find(s, "\n", 0), "", ScanSql(Plain, s[Find(s, "\n", 0)..]))
  {
    hide Find, SqlTag;
  }

  lemma OtherStep(s: string)
    requires s != "" && !StartsAt(s, 0, "--") && s[0] !in "'\";" && (s[0] == '$' ==> SqlTag(s).None?)
    ensures ScanSql(Plain, s) == Push(1, s[..1], ScanSql(Plain, s[1..]))
  {
    hide Find, SqlTag;
  }

  lemma QuoteStep(g: Glue, s: string)
    requires s != "" && (s[0] == '\'' || s[0] == '"') && Scan(g, s).Token?
    requires Scan(g, s).kind == Text ==> '\\' !in s[..Scan(g, s).len]
    ensures var n := Scan(g, s).len;
            Scan(g, s).kind != LineComment && ScanSql(Plain, s) == Push(n, s[..n], ScanSql(Plain, s[n..]))
  {
    hide ScanSql, Scan, QuoteEnd, Push;
    QuoteIs(g, s);
    var n, q := Scan(g, s).len, s[0];
    var escapes := q == '\'' && g.escape;
    if q == '\'' { assert forall k | 1 <= k < n :: s[k] in s[..n]; }
    QuotedSame(s, 1, q, escapes);
    OpenQuote(q, s);
    PushSlices(s, 0, 1, n, ScanSql(Plain, s[n..]));
    assert s[0..1] == s[..1] && s[0..n] == s[..n];
  }

  lemma QuoteIs(g: Glue, s: string)
    requires s != "" && (s[0] == '\'' || s[0] == '"') && Scan(g, s).Token?
    ensures QuoteEnd(s, 1, s[0], s[0] == '\'' && g.escape) == Some(Scan(g, s).len)
    ensures Scan(g, s).kind == if s[0] == '\'' then Text else Name
  {
    hide QuoteEnd, CommentEnd, Find;
    assert 2 <= |s| ==> s[0..2][0] == s[0];
  }

  lemma DollarStep(g: Glue, s: string)
    requires s != "" && s[0] == '$' && !g.ident && Tag(s).Some? && Scan(g, s).Token?
    requires Scan(g, s).kind == Dollar ==> forall k | 0 <= k < Tag(s).value :: !IsDigit(s[k])
    ensures var n := Scan(g, s).len;
            Scan(g, s).kind == Dollar && ScanSql(Plain, s) == Push(n, s[..n], ScanSql(Plain, s[n..]))
  {
    hide ScanSql, Scan, Find, Tag, SqlTag, Push;
    DollarIs(g, s);
    var t := Tag(s).value;
    var tag := s[..t];
    var e := Find(s, tag, t);
    TagsSame(s);
    DollarOpen(s, t);
    DollarSame(s, t, tag, e);
    assert s[0..t] == tag && s[0..e + t] == s[..e + t];
    PushSlices(s, 0, t, e + t, ScanSql(Plain, s[e + t..]));
  }

  lemma DollarIs(g: Glue, s: string)
    requires s != "" && s[0] == '$' && !g.ident && Tag(s).Some? && Scan(g, s).Token?
    ensures var t := Tag(s).value;
            var e := Find(s, s[..t], t);
            e < |s| && e + t <= |s| && Scan(g, s) == Token(Dollar, e + t)
  {
    hide QuoteEnd, CommentEnd, Tag;
    assert 2 <= |s| ==> s[0..2][0] == s[0];
  }

  lemma DollarOpen(s: string, t: nat)
    requires s != "" && s[0] == '$' && SqlTag(s) == Some(t)
    ensures ScanSql(Plain, s) == Push(t, s[..t], ScanSql(Dollars(s[..t]), s[t..]))
  {
    hide SqlTag, Find;
    DashHead(s);
  }

  /** One segment: the same cut, and the small lexer keeps the segment without its line comments. */
  lemma {:induction false} SegmentSame(g: Glue, s: string)
    requires Common(g, s)
    ensures Seg(g, s).Stop? && ScanSql(Plain, s) == Chunk(Seg(g, s).len, Bare(g, s))
    ensures Blank(Bare(g, s)) <==> Blank(Seg(g, s).code)
    decreases |s|
  {
    hide ScanSql, Scan, Shown, After, Blank, Common;
    if s == "" {
      assert ScanSql(Plain, s) == Chunk(0, "") by { SqlEmpty(); }
    } else if s[0] == ';' {
      CutStep(g, s);
    } else {
      CommonToken(g, s);
      var t := Scan(g, s);
      CommonHere(g, s);
      TokenSame(g, s);
      SegStep(g, s, t.kind, t.len);
      SegmentSame(After(g, s[..t.len]), s[t.len..]);
      BlankTogether(g, s, t, Bare(After(g, s[..t.len]), s[t.len..]), Seg(After(g, s[..t.len]), s[t.len..]).code);
    }
  }

  lemma SqlEmpty()
    ensures ScanSql(Plain, "") == Chunk(0, "")
  {
  }

  lemma CutStep(g: Glue, s: string)
    requires s != "" && s[0] == ';'
    ensures ScanSql(Plain, s) == Chunk(0, "") && Seg(g, s) == Stop(0, "") && Bare(g, s) == ""
  {
    hide Shown, After;
    DashHead(s);
  }

  lemma CommonToken(g: Glue, s: string)
    requires s != "" && s[0] != ';' && Common(g, s)
    ensures Scan(g, s).Token?
  {
    hide Find, QuoteEnd, CommentEnd, Tag, After;
  }

  lemma BlankTogether(g: Glue, s: string, t: Token, bare: string, code: string)
    requires s != "" && t == Scan(g, s) && t.Token? && t.kind != BlockComment && (Blank(bare) <==> Blank(code))
    ensures Blank((if t.kind == LineComment then "" else s[..t.len]) + bare)
            <==> Blank(Shown(t.kind, s[..t.len]) + code)
  {
    hide Scan, Shown;
    var piece := if t.kind == LineComment then "" else s[..t.len];
    BlankAppend(piece, bare);
    BlankAppend(Shown(t.kind, s[..t.len]), code);
    ShownInk(g, s);
  }

  lemma BlankAppend(a: string, b: string)
    ensures Blank(a + b) <==> Blank(a) && Blank(b)
  {
    forall k | 0 <= k < |b| ensures (a + b)[|a| + k] == b[k] {}
    forall k | 0 <= k < |a| ensures (a + b)[k] == a[k] {}
    if Blank(a + b) {
      forall k | 0 <= k < |b| ensures IsSpace(b[k]) { assert (a + b)[|a| + k] == b[k]; }
    }
  }

  lemma ShownInk(g: Glue, s: string)
    requires s != "" && Scan(g, s).Token? && Scan(g, s).kind != BlockComment
    ensures var t := Scan(g, s);
            Blank(if t.kind == LineComment then "" else s[..t.len]) <==> Blank(Shown(t.kind, s[..t.len]))
  {
    hide Find, QuoteEnd, CommentEnd, Tag, InnerCode, Body, TagRun;
    var t := Scan(g, s);
    var piece := s[..t.len];
    assert 2 <= |s| ==> s[0..2][0] == s[0];
    assert piece[0] == s[0];
    if t.kind == Text || t.kind == Name || t.kind == Dollar {
      assert !IsSpace(piece[0]) && Shown(t.kind, piece)[0] == piece[0];
    }
  }

  // ---- whole texts

  /** Where the two lexers cut, and what each keeps between two cuts. */
  function Cuts(s: string, at: nat): seq<nat>
    decreases |s|
  {
    match Seg(CLEAN, s)
    case Fail(_) => []
    case Stop(n, _) => if n == |s| then [] else [at + n] + Cuts(s[n + 1..], at + n + 1)
  }

  function SqlCuts(s: string, at: nat): seq<nat>
    decreases |s|
  {
    var n := ScanSql(Plain, s).len;
    if n == |s| then [] else [at + n] + SqlCuts(s[n + 1..], at + n + 1)
  }

  datatype Piece = Piece(raw: string, code: string, bare: string)

  /** The segments split_statements keeps. */
  function Pieces(s: string): seq<Piece>
    decreases |s|
  {
    match Seg(CLEAN, s)
    case Fail(_) => []
    case Stop(n, code) =>
      FirstPiece(s, n, code) + if n == |s| then [] else Pieces(s[n + 1..])
  }

  function FirstPiece(s: string, n: nat, code: string): seq<Piece>
    requires n <= |s|
  {
    if Strip(code) == "" then [] else [Piece(s[..n], code, Bare(CLEAN, s))]
  }

  function BareTexts(pieces: seq<Piece>): seq<string> {
    seq(|pieces|, k requires 0 <= k < |pieces| => Strip(pieces[k].bare))
  }

  function Stated(pieces: seq<Piece>): seq<Statement> {
    seq(|pieces|, k requires 0 <= k < |pieces| => Statement(Strip(pieces[k].raw), pieces[k].code))
  }

  lemma PiecesStep(s: string, n: nat)
    requires Seg(CLEAN, s).Stop? && Seg(CLEAN, s).len == n
    ensures var code := Seg(CLEAN, s).code;
            Pieces(s) == FirstPiece(s, n, code) + if n == |s| then [] else Pieces(s[n + 1..])
  {
    hide Seg, FirstPiece;
  }

  lemma Mapped(first: seq<Piece>, more: seq<Piece>)
    ensures BareTexts(first + more) == BareTexts(first) + BareTexts(more)
    ensures Stated(first + more) == Stated(first) + Stated(more)
  {
    hide Strip;
  }

  /** What SplittersAgree says of the rest after the first segment, carried over to the whole. */
  lemma AgreeHere(s: string, n: nat, later: seq<Piece>)
    requires Seg(CLEAN, s).Stop? && Seg(CLEAN, s).len == n && ScanSql(Plain, s) == Chunk(n, Bare(CLEAN, s))
    requires Blank(Bare(CLEAN, s)) <==> Blank(Seg(CLEAN, s).code)
    requires later == if n == |s| then [] else Pieces(s[n + 1..])
    requires n < |s| ==> SqlSplit(s[n + 1..]) == BareTexts(later) && Split(s[n + 1..]) == Ok(Stated(later))
    ensures SqlSplit(s) == BareTexts(Pieces(s))
    ensures Split(s) == Ok(Stated(Pieces(s)))
  {
    hide ScanSql, Seg, Strip, Split, Bare, Pieces, SqlSplit;
    var code, bare := Seg(CLEAN, s).code, Bare(CLEAN, s);
    BlankStrip(bare);
    BlankStrip(code);
    PiecesStep(s, n);
    var first := FirstPiece(s, n, code);
    assert BareTexts(first) == SqlKept(bare);
    assert Stated(first) == Kept(s[..n], code);
    assert n == |s| ==> s[..n] == s && first + [] == first;
    Mapped(first, later);
    SqlSplitStep(s, n, bare);
    SplitStep(s, n);
    assert SqlKept(bare) + [] == SqlKept(bare);
  }

  /** On a common text they cut at the same semicolons. */
  lemma {:induction false} CutsAgree(s: string, at: nat)
    requires Common(CLEAN, s)
    ensures SqlCuts(s, at) == Cuts(s, at)
    decreases |s|
  {
    hide ScanSql, Seg, Common, Bare, Blank, SqlCuts, Cuts;
    SegmentSame(CLEAN, s);
    var n := Seg(CLEAN, s).len;
    CutsStep(s, at, n);
    if n < |s| {
      CommonRest(CLEAN, s);
      CutsAgree(s[n + 1..], at + n + 1);
    }
  }

  lemma CutsStep(s: string, at: nat, n: nat)
    requires Seg(CLEAN, s).Stop? && Seg(CLEAN, s).len == n && ScanSql(Plain, s).len == n
    ensures Cuts(s, at) == if n == |s| then [] else [at + n] + Cuts(s[n + 1..], at + n + 1)
    ensures SqlCuts(s, at) == if n == |s| then [] else [at + n] + SqlCuts(s[n + 1..], at + n + 1)
  {
    hide Seg, ScanSql;
  }

  /** The two lexers agree: on a common text they cut at the same semicolons and keep the same segments; the
      small one writes down each segment without its line comments. */
  lemma {:induction false} SplittersAgree(s: string, at: nat)
    requires Common(CLEAN, s)
    ensures SqlCuts(s, at) == Cuts(s, at)
    ensures SqlSplit(s) == BareTexts(Pieces(s))
    ensures Split(s) == Ok(Stated(Pieces(s)))
    decreases |s|
  {
    hide ScanSql, Seg, Strip, Split, Common, Bare, Pieces, BareTexts, Stated, Blank, SqlSplit, SqlCuts, Cuts;
    CutsAgree(s, at);
    SegmentSame(CLEAN, s);
    var n := Seg(CLEAN, s).len;
    if n < |s| {
      CommonRest(CLEAN, s);
      SplittersAgree(s[n + 1..], at + n + 1);
      AgreeHere(s, n, Pieces(s[n + 1..]));
    } else {
      AgreeHere(s, n, []);
    }
  }

  lemma SqlSplitStep(s: string, n: nat, bare: string)
    requires ScanSql(Plain, s) == Chunk(n, bare)
    ensures SqlSplit(s) == SqlKept(bare) + if n == |s| then [] else SqlSplit(s[n + 1..])
  {
    hide ScanSql, SqlKept;
  }

  /** The rest of a common text after a cut is common. */
  lemma {:induction false} CommonRest(g: Glue, s: string)
    requires Common(g, s) && Seg(g, s).Stop? && Seg(g, s).len < |s|
    ensures Common(CLEAN, s[Seg(g, s).len + 1..])
    decreases |s|
  {
    hide Scan, Shown, After, Common, Seg;
    if s[0] == ';' {
      SemiCommon(g, s);
      SemiStop(g, s);
    } else {
      CommonToken(g, s);
      var n := Scan(g, s).len;
      CommonHere(g, s);
      SegStep(g, s, Scan(g, s).kind, n);
      CommonRest(After(g, s[..n]), s[n..]);
      var m := Seg(After(g, s[..n]), s[n..]).len;
      assert s[n..][m + 1..] == s[n + m + 1..];
    }
  }

  lemma SemiCommon(g: Glue, s: string)
    requires s != "" && s[0] == ';' && Common(g, s)
    ensures Common(CLEAN, s[1..])
  {
    hide After;
  }

  // ---- why the texts have to be common: one text for each condition

  lemma CutsAre(s: string, at: nat)
    requires Seg(CLEAN, s).Stop?
    ensures var n := Seg(CLEAN, s).len; Cuts(s, at) == if n == |s| then [] else [at + n] + Cuts(s[n + 1..], at + n + 1)
  {
    hide Seg;
  }

  lemma SqlCutsAre(s: string, at: nat)
    ensures var n := ScanSql(Plain, s).len;
            SqlCuts(s, at) == if n == |s| then [] else [at + n] + SqlCuts(s[n + 1..], at + n + 1)
  {
    hide ScanSql;
  }

  /** How far the small lexer reads from i, one character at a time. */
  function SqlLen(m: Mode, s: string, i: nat): nat
    requires i <= |s|
  {
    ScanSql(m, s[i..]).len
  }

  lemma LenEnd(m: Mode, s: string)
    ensures SqlLen(m, s, |s|) == 0
  {
    assert s[|s|..] == "";
  }

  lemma LenSemi(s: string, i: nat)
    requires i < |s| && s[i] == ';'
    ensures SqlLen(Plain, s, i) == 0
  {
    SemiSql(s[i..]);
  }

  lemma LenOther(s: string, i: nat)
    requires i < |s| && s[i] !in "'\"-$;"
    ensures SqlLen(Plain, s, i) == 1 + SqlLen(Plain, s, i + 1)
  {
    hide ScanSql;
    Slices(s, i);
    assert |s[i..]| >= 2 ==> s[i..][0..2][0] == s[i];
    OtherStep(s[i..]);
  }

  lemma LenDollar(s: string, i: nat)
    requires i < |s| && s[i] == '$' && SqlTag(s[i..]).None?
    ensures SqlLen(Plain, s, i) == 1 + SqlLen(Plain, s, i + 1)
  {
    hide ScanSql, SqlTag;
    Slices(s, i);
    assert |s[i..]| >= 2 ==> s[i..][0..2][0] == s[i];
    OtherStep(s[i..]);
  }

  lemma LenOpen(s: string, i: nat)
    requires i < |s| && s[i] == '\''
    ensures SqlLen(Plain, s, i) == 1 + SqlLen(Quoted('\''), s, i + 1)
  {
    hide ScanSql;
    Slices(s, i);
    OpenQuote('\'', s[i..]);
  }

  lemma LenQuoted(s: string, i: nat)
    requires i < |s|
    ensures SqlLen(Quoted('\''), s, i) == 1 + SqlLen(if s[i] == '\'' then Plain else Quoted('\''), s, i + 1)
  {
    hide ScanSql;
    Slices(s, i);
    QuoteRest('\'', s[i..]);
  }

  lemma {:induction false} BlockCommentsDiffer()
    ensures Cuts("/*;*/", 0) == [] && SqlCuts("/*;*/", 0) == [2]
  {
    hide Cuts, SqlCuts;
    BlockDiffers("/*;*/");
  }

  lemma BlockDiffers(s: string)
    requires |s| == 5 && s[0] == '/' && s[1] == '*' && s[2] == ';' && s[3] == '*' && s[4] == '/'
    ensures Cuts(s, 0) == [] && SqlCuts(s, 0) == [2]
  {
    hide Cuts, SqlCuts, ScanSql, Seg, Scan;
    BlockWhole(s);
    SegStep(CLEAN, s, BlockComment, 5);
    SegNothing(After(CLEAN, s[..5]));
    assert s[5..] == "" && s[0..] == s;
    CutsAre(s, 0);
    LenOther(s, 0);
    LenOther(s, 1);
    LenSemi(s, 2);
    SqlCutsAre(s, 0);
    var r := s[3..];
    assert r[0] == s[3] && r[1] == s[4] && r[0..] == r;
    LenOther(r, 0);
    LenOther(r, 1);
    LenEnd(Plain, r);
    SqlCutsAre(r, 3);
  }

  lemma SegNothing(g: Glue)
    ensures Seg(g, "") == Stop(0, "")
  {
  }

  lemma BlockWhole(s: string)
    requires |s| == 5 && s[0] == '/' && s[1] == '*' && s[2] == ';' && s[3] == '*' && s[4] == '/'
    ensures Scan(CLEAN, s) == Token(BlockComment, 5)
  {
    assert s[0..2] == "/*" && s[2..4] == ";*" && s[3..5] == "*/";
    assert s[0..2][0] == '/' && s[2..4][0] == ';' && s[3..5][0] == '*';
    assert CommentEnd(s, 5, 0) == Some(5);
    assert CommentEnd(s, 3, 1) == Some(5);
  }

  lemma {:induction false} EscapesDiffer()
    ensures Cuts("E'\\';'", 0) == [] && SqlCuts("E'\\';'", 0) == [4]
  {
    hide Cuts, SqlCuts;
    EscapeDiffers("E'\\';'");
  }

  lemma EscapeDiffers(s: string)
    requires |s| == 6 && s[0] == 'E' && s[1] == '\'' && s[2] == '\\' && s[3] == '\'' && s[4] == ';' && s[5] == '\''
    ensures Cuts(s, 0) == [] && SqlCuts(s, 0) == [4]
  {
    hide Cuts, SqlCuts, ScanSql, Seg, Scan, After;
    EscapeWhole(s);
    var q := s[1..];
    SegStep(CLEAN, s, Other, 1);
    SegStep(Glue(true, true), q, Text, 5);
    SegNothing(After(Glue(true, true), q[..5]));
    assert q[5..] == "" && s[0..] == s;
    CutsAre(s, 0);
    LenOther(s, 0);
    LenOpen(s, 1);
    LenQuoted(s, 2);
    LenQuoted(s, 3);
    LenSemi(s, 4);
    SqlCutsAre(s, 0);
    var r := s[5..];
    assert r[0] == s[5] && r[0..] == r;
    LenOpen(r, 0);
    LenEnd(Quoted('\''), r);
    SqlCutsAre(r, 5);
  }

  lemma EscapeWhole(s: string)
    requires |s| == 6 && s[0] == 'E' && s[1] == '\'' && s[2] == '\\' && s[3] == '\'' && s[4] == ';' && s[5] == '\''
    ensures Scan(CLEAN, s) == Token(Other, 1) && After(CLEAN, s[..1]) == Glue(true, true)
    ensures Scan(Glue(true, true), s[1..]) == Token(Text, 5)
  {
    hide Find, CommentEnd, Tag;
    var q := s[1..];
    assert s[0..2][0] == 'E' && q[0..2][0] == '\'';
    assert q[0] == s[1] && q[1] == s[2] && q[2] == s[3] && q[3] == s[4] && q[4] == s[5];
    assert QuoteEnd(q, 4, '\'', true) == Some(5);
    assert QuoteEnd(q, 3, '\'', true) == Some(5);
    assert QuoteEnd(q, 1, '\'', true) == Some(5);
  }

  lemma {:induction false} DigitsInTagsDiffer()
    ensures Cuts("$a1$;$a1$", 0) == [] && SqlCuts("$a1$;$a1$", 0) != [] && SqlCuts("$a1$;$a1$", 0)[0] == 4
  {
    hide Cuts, SqlCuts;
    DigitsDiffer("$a1$;$a1$");
  }

  predicate DigitTags(s: string) {
    |s| == 9 && s[0] == s[3] == s[5] == s[8] == '$' && s[1] == s[6] == 'a' && s[2] == s[7] == '1' && s[4] == ';'
  }

  lemma DigitsDiffer(s: string)
    requires DigitTags(s)
    ensures Cuts(s, 0) == [] && SqlCuts(s, 0) != [] && SqlCuts(s, 0)[0] == 4
  {
    hide Cuts, SqlCuts, ScanSql, Seg, Scan, SqlTag;
    DigitTagWhole(s);
    SegStep(CLEAN, s, Dollar, 9);
    SegNothing(After(CLEAN, s[..9]));
    assert s[9..] == "" && s[0..] == s;
    CutsAre(s, 0);
    NoTag(s, 2);
    assert s[3..][0] == s[3] && s[3..][1] == s[4];
    NoTag(s[3..], 1);
    LenDollar(s, 0);
    LenOther(s, 1);
    LenOther(s, 2);
    LenDollar(s, 3);
    LenSemi(s, 4);
    SqlCutsAre(s, 0);
  }

  lemma DigitTagWhole(s: string)
    requires DigitTags(s)
    ensures Scan(CLEAN, s) == Token(Dollar, 9)
  {
    hide CommentEnd, QuoteEnd, Find;
    assert TagRun(s, 3) == 3;
    assert TagRun(s, 2) == 3;
    assert TagRun(s, 1) == 3;
    assert s[0..2][0] == '$';
    DigitTagFound(s);
  }

  lemma DigitTagFound(s: string)
    requires DigitTags(s)
    ensures Find(s, s[..4], 4) == 5
  {
    hide Find;
    assert s[4..8][0] == s[4] && s[..4][0] == s[0];
    assert s[5..9] == s[..4];
    FindIs(s, s[..4], 4, 5);
  }

  lemma NoTag(s: string, e: nat)
    requires s != "" && s[0] == '$' && 1 <= e < |s| && !IsLetter(s[e]) && s[e] != '_' && s[e] != '$'
    requires forall k | 1 <= k < e :: IsLetter(s[k]) || s[k] == '_'
    ensures SqlTag(s).None?
  {
    RunTo(s, 1, e);
  }

  lemma {:induction false} RunTo(s: string, j: nat, e: nat)
    requires j <= e < |s| && !IsLetter(s[e]) && s[e] != '_' && forall k | j <= k < e :: IsLetter(s[k]) || s[k] == '_'
    ensures SqlRun(s, j) == e
    decreases e - j
  {
    if j < e { RunTo(s, j + 1, e); }
  }

  lemma SemiSql(s: string)
    requires s != "" && s[0] == ';'
    ensures ScanSql(Plain, s) == Chunk(0, "")
  {
    DashHead(s);
  }

  lemma {:induction false} DollarAfterNameDiffers()
    ensures Cuts("a$$;b", 0) == [3] && SqlCuts("a$$;b", 0) == []
  {
    hide Cuts, SqlCuts;
    NameDiffers("a$$;b");
  }

  predicate NameDollars(s: string) { |s| == 5 && s[0] == 'a' && s[1] == s[2] == '$' && s[3] == ';' && s[4] == 'b' }

  lemma NameDiffers(s: string)
    requires NameDollars(s)
    ensures Cuts(s, 0) == [3] && SqlCuts(s, 0) == []
  {
    hide Cuts, SqlCuts, ScanSql, Seg, Scan, After, SqlTag;
    NameTokens(s);
    var g := Glue(true, false);
    SegStep(CLEAN, s, Other, 1);
    SegStep(g, s[1..], Other, 1);
    SegStep(g, s[2..], Other, 1);
    assert s[1..][1..] == s[2..] && s[2..][1..] == s[3..] && s[0..] == s;
    SemiStop(g, s[3..]);
    CutsAre(s, 0);
    var b := s[4..];
    assert b[0] == s[4] && b[1..] == "";
    SegStep(CLEAN, b, Other, 1);
    SegNothing(After(CLEAN, b[..1]));
    CutsAre(b, 4);
    LenOther(s, 0);
    NameOpens(s);
    SqlCutsAre(s, 0);
  }

  lemma NameTokens(s: string)
    requires NameDollars(s)
    ensures Scan(CLEAN, s) == Token(Other, 1) && After(CLEAN, s[..1]) == Glue(true, false)
    ensures Scan(Glue(true, false), s[1..]) == Token(Other, 1)
            && After(Glue(true, false), s[1..][..1]) == Glue(true, false)
    ensures Scan(Glue(true, false), s[2..]) == Token(Other, 1)
            && After(Glue(true, false), s[2..][..1]) == Glue(true, false)
    ensures Scan(CLEAN, s[4..]) == Token(Other, 1)
  {
    hide Find, CommentEnd, QuoteEnd, Tag;
    assert s[0..2][0] == 'a' && s[1..][0..2][0] == '$' && s[2..][0..2][0] == '$';
  }

  /** The small lexer opens a quote here and never closes it. */
  lemma NameOpens(s: string)
    requires NameDollars(s)
    ensures SqlLen(Plain, s, 1) == 4
  {
    hide ScanSql, SqlTag;
    var d, r := s[1..], s[3..];
    assert d[..2] == "$$" && d[2..] == r && r[1..] == s[4..] && s[4..][1..] == "";
    PairTag(d);
    DollarOpen(d, 2);
    assert r[0] == ';' && s[4..][0] == 'b';
    assert r[0..2][0] == ';';
    DollarRest("$$", r);
    DollarRest("$$", s[4..]);
    NothingLeft("$$");
  }

  lemma PairTag(d: string)
    requires |d| >= 2 && d[0] == d[1] == '$'
    ensures SqlTag(d) == Some(2)
  {
  }

  lemma NothingLeft(tag: string)
    ensures ScanSql(Dollars(tag), "") == Chunk(0, "")
  {
  }

  // ---- texts one can tell by looking

  /** A whole tag stands here, $name$ without a digit, with no identifier character or dollar sign before it. */
  predicate OpensTag(w: string, a: nat) {
    && a < |w| && w[a] == '$' && (a > 0 ==> !IdentChar(w[a - 1]))
    && Tag(w[a..]).Some?
    && (forall k | a < k < a + Tag(w[a..]).value - 1 :: !IsDigit(w[k]))
  }

  /** A dollar sign that no tag begins with, as in $1, with no identifier character or dollar sign before it. */
  predicate LoneDollar(w: string, a: nat) {
    a < |w| && w[a] == '$' && (a > 0 ==> !IdentChar(w[a - 1])) && Tag(w[a..]).None?
  }

  predicate ClosesTag(w: string, i: nat) { exists a | 0 <= a < i :: OpensTag(w, a) && a + Tag(w[a..]).value == i + 1 }

  /** No block comment, no backslash, and no dollar sign but in whole tags and alone, none of them after a name. */
  predicate PlainText(w: string) {
    && (forall i | 0 <= i < |w| - 1 :: !(w[i] == '/' && w[i + 1] == '*'))
    && '\\' !in w
    && (forall i | 0 <= i < |w| && w[i] == '$' :: OpensTag(w, i) || ClosesTag(w, i) || LoneDollar(w, i))
  }

  /** No tag begins before a place and ends after it. */
  ghost predicate Clear(w: string, p: nat) {
    forall a | 0 <= a < p && OpensTag(w, a) :: a + Tag(w[a..]).value <= p
  }

  /** The text can be read to its end. */
  predicate Reads(g: Glue, s: string)
    decreases |s|
  {
    s == "" ||
    match Scan(g, s)
    case Bad(_) => false
    case Semicolon => Reads(CLEAN, s[1..])
    case Token(_, n) => Reads(After(g, s[..n]), s[n..])
  }

  lemma {:induction false} SegReads(g: Glue, s: string)
    requires Seg(g, s).Stop? && (Seg(g, s).len < |s| ==> Reads(CLEAN, s[Seg(g, s).len + 1..]))
    ensures Reads(g, s)
    decreases |s|
  {
    hide Scan, After, Shown;
    if s != "" {
      match Scan(g, s) {
        case Semicolon =>
        case Bad(_) =>
        case Token(kind, n) =>
          SegStep(g, s, kind, n);
          var m := Seg(After(g, s[..n]), s[n..]).len;
          assert n + m < |s| ==> s[n..][m + 1..] == s[n + m + 1..];
          SegReads(After(g, s[..n]), s[n..]);
      }
    }
  }

  lemma {:induction false} SplitReads(s: string)
    requires Split(s).Ok?
    ensures Reads(CLEAN, s)
    decreases |s|
  {
    hide Seg, Split, Reads;
    SplitStops(s);
    var n := Seg(CLEAN, s).len;
    if n < |s| { SplitReads(s[n + 1..]); }
    SegReads(CLEAN, s);
  }

  /** A tag has no other characters than its own. */
  lemma TagOnly(w: string, a: nat, k: nat)
    requires OpensTag(w, a) && a <= k < a + Tag(w[a..]).value
    ensures k == a || k == a + Tag(w[a..]).value - 1 || TagChar(w[k])
  {
    hide TagChar;
    assert w[a..][k - a] == w[k];
  }

  /** A tag does not reach over a character that is none of its own. */
  lemma EndsBefore(w: string, a: nat, q: nat)
    requires OpensTag(w, a) && a < q <= |w|
    requires w[q - 1] in "'\";" || (q < |w| && w[q] == '\n') || q == |w|
    ensures a + Tag(w[a..]).value <= q
  {
    hide Tag;
    var n := Tag(w[a..]).value;
    assert w[a] == w[a..][0] && w[a + n - 1] == w[a..][n - 1] == '$';
    if a + n > q {
      TagOnly(w, a, q - 1);
      TagOnly(w, a, q);
    }
  }

  /** Nor over the end of another. */
  lemma EndsBeforeDollar(w: string, a: nat, q: nat)
    requires OpensTag(w, a) && 0 < a < q <= |w| && w[q - 1] == '$' && IdentChar(w[q - 2])
    ensures a + Tag(w[a..]).value <= q
  {
    hide Tag;
    if a + Tag(w[a..]).value > q { TagOnly(w, a, q - 1); }
  }

  lemma ClearAtEnd(w: string, p: nat, q: nat)
    requires p < q <= |w| && (w[q - 1] in "'\";" || (q < |w| && w[q] == '\n') || q == |w|)
    ensures forall a | p <= a < q && OpensTag(w, a) :: a + Tag(w[a..]).value <= q
  {
    forall a | p <= a < q && OpensTag(w, a) ensures a + Tag(w[a..]).value <= q { EndsBefore(w, a, q); }
  }

  /** The end of a dollar quote: its last dollar sign belongs to the tag that closes it. */
  lemma ClearAtDollar(w: string, p: nat, q: nat)
    requires p + 2 < q <= |w| && w[q - 1] == '$' && IdentChar(w[q - 2])
    ensures forall a | p < a < q && OpensTag(w, a) :: a + Tag(w[a..]).value <= q
  {
    forall a | p < a < q && OpensTag(w, a) ensures a + Tag(w[a..]).value <= q { EndsBeforeDollar(w, a, q); }
  }

  predicate GlueAtPlace(g: Glue, w: string, p: nat)
    requires p <= |w|
  {
    g.ident <==> p > 0 && IdentChar(w[p - 1])
  }

  /** What a token of each kind looks like. */
  lemma TokenLooks(g: Glue, s: string)
    requires s != "" && Scan(g, s).Token?
    ensures var t := Scan(g, s);
            && (t.kind == LineComment ==> s[0] == '-' && (t.len < |s| ==> s[t.len] == '\n'))
            && (t.kind == BlockComment ==> |s| >= 2 && s[0] == '/' && s[1] == '*')
            && (t.kind == Text || t.kind == Name ==> s[0] != '$' && s[t.len - 1] in "'\"")
            && (t.kind == Dollar ==> s[0] == '$' && !g.ident && Tag(s).Some? && 2 * Tag(s).value <= t.len
                                     && s[t.len - Tag(s).value..t.len] == s[..Tag(s).value])
            && (t.kind == Other ==> t.len == 1 && !(s[0] == '$' && !g.ident && Tag(s).Some?))
  {
    hide CommentEnd, QuoteEnd, Tag, Find;
    assert |s| >= 2 ==> s[0..2][0] == s[0] && s[0..2][1] == s[1];
    var t := Scan(g, s);
    if t.kind == LineComment && t.len < |s| { assert s[t.len..t.len + 1][0] == s[t.len]; }
  }

  lemma DollarOpens(w: string, p: nat)
    requires PlainText(w) && p < |w| && Clear(w, p) && w[p] == '$'
    ensures OpensTag(w, p) || LoneDollar(w, p)
  {
    hide OpensTag, LoneDollar;
  }

  lemma DollarEndClear(w: string, p: nat, q: nat, n: nat)
    requires p < q <= |w| && w[p] == '$' && Tag(w[p..]) == Some(n) && 2 * n <= q - p
    requires w[p..][q - p - n..q - p] == w[p..][..n]
    ensures forall a | p <= a < q && OpensTag(w, a) :: a + Tag(w[a..]).value <= q
  {
    var s := w[p..];
    var tail := s[q - p - n..q - p];
    assert tail[n - 1] == w[q - 1] && tail[n - 2] == w[q - 2];
    assert s[..n][n - 1] == s[n - 1] && s[..n][n - 2] == s[n - 2];
    assert n > 2 ==> TagChar(s[n - 2]);
    ClearAtDollar(w, p, q);
  }

  /** A token of a plain text is one both lexers are meant for, and no tag reaches over its end. */
  lemma PlainToken(g: Glue, w: string, p: nat)
    requires PlainText(w) && p < |w| && Clear(w, p) && GlueAtPlace(g, w, p) && Scan(g, w[p..]).Token?
    ensures var s := w[p..]; var t := Scan(g, s);
            && t.kind != BlockComment && (s[0] == '$' ==> !g.ident) && (t.kind == Text ==> '\\' !in s[..t.len])
            && (t.kind == Dollar ==> forall k | 0 <= k < Tag(s).value :: !IsDigit(s[k]))
            && Clear(w, p + t.len) && GlueAtPlace(After(g, s[..t.len]), w, p + t.len)
  {
    hide Scan, Tag, OpensTag, LoneDollar, PlainText;
    var s := w[p..];
    var t := Scan(g, s);
    var q := p + t.len;
    TokenLooks(g, s);
    assert s[..t.len][t.len - 1] == w[q - 1] && s[0] == w[p] && s[t.len - 1] == w[q - 1];
    if w[p] == '$' {
      DollarOpens(w, p);
      if OpensTag(w, p) { OpensIs(w, p); } else { LoneIs(w, p); }
    }
    PlainChars(w, p, t.len);
    TokenClear(g, w, p);
  }

  lemma OpensIs(w: string, p: nat)
    requires OpensTag(w, p)
    ensures w[p] == '$' && Tag(w[p..]).Some? && (p > 0 ==> !IdentChar(w[p - 1]))
    ensures forall k | 0 <= k < Tag(w[p..]).value :: !IsDigit(w[p..][k])
  {
    var s := w[p..];
    forall k | 0 <= k < Tag(s).value ensures !IsDigit(s[k]) { assert s[k] == w[p + k]; }
  }

  lemma LoneIs(w: string, p: nat)
    requires LoneDollar(w, p)
    ensures w[p..][0] == '$' && Tag(w[p..]).None? && (p > 0 ==> !IdentChar(w[p - 1]))
  {
    hide Tag;
  }

  lemma PlainChars(w: string, p: nat, n: nat)
    requires PlainText(w) && p + n <= |w|
    ensures '\\' !in w[p..][..n]
    ensures p + 1 < |w| ==> !(w[p..][0] == '/' && w[p..][1] == '*')
  {
    assert forall c | c in w[p..][..n] :: c in w;
  }

  lemma TokenClear(g: Glue, w: string, p: nat)
    requires p < |w| && Clear(w, p) && Scan(g, w[p..]).Token? && Scan(g, w[p..]).kind != BlockComment
    requires GlueAtPlace(g, w, p)
    ensures Clear(w, p + Scan(g, w[p..]).len)
  {
    hide Scan, Tag, OpensTag;
    var s := w[p..];
    var t := Scan(g, s);
    var q := p + t.len;
    TokenLooks(g, s);
    assert s[0] == w[p] && s[t.len - 1] == w[q - 1];
    if t.kind == Other {
      if OpensTag(w, p) { OpensIs(w, p); }
    } else if t.kind == Dollar {
      DollarEndClear(w, p, q, Tag(s).value);
    } else {
      assert q < |w| ==> s[t.len] == w[q];
      ClearAtEnd(w, p, q);
    }
    ClearOn(w, p, q);
  }

  lemma ClearOn(w: string, p: nat, q: nat)
    requires Clear(w, p) && p < q && forall a | p <= a < q && OpensTag(w, a) :: a + Tag(w[a..]).value <= q
    ensures Clear(w, q)
  {
  }

  lemma {:induction false} PlainCommon(g: Glue, w: string, p: nat)
    requires PlainText(w) && p <= |w| && Clear(w, p) && GlueAtPlace(g, w, p) && Reads(g, w[p..])
    ensures Common(g, w[p..])
    decreases |w| - p
  {
    hide Scan, After, Tag, PlainText, Clear, GlueAtPlace;
    if p < |w| {
      var s := w[p..];
      if s[0] == ';' {
        SemiClear(w, p);
        assert s[1..] == w[p + 1..];
        PlainCommon(CLEAN, w, p + 1);
      } else {
        PlainToken(g, w, p);
        var n := Scan(g, s).len;
        assert s[n..] == w[p + n..];
        PlainCommon(After(g, s[..n]), w, p + n);
      }
    }
  }

  lemma SemiClear(w: string, p: nat)
    requires p < |w| && w[p] == ';' && Clear(w, p)
    ensures Clear(w, p + 1) && GlueAtPlace(CLEAN, w, p + 1)
  {
    ClearAtEnd(w, p, p + 1);
  }

  /** What anyone can tell by looking is enough: a text that splits, with no block comment, no backslash, no digit in
      a tag, and every tag and every other dollar sign after something that is no identifier character. */
  lemma PlainTextsAreCommon(w: string)
    requires Split(w).Ok? && PlainText(w)
    ensures Common(CLEAN, w)
  {
    SplitReads(w);
    hide Split, Reads, PlainText, Common;
    assert w[0..] == w;
    PlainCommon(CLEAN, w, 0);
  }
}
