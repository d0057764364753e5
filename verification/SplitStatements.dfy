// split_statements of tools/migrate.py as it is written: one index, two buffers, one loop for each
// kind of quote. It is proved to compute Lexer.Split.
module SplitStatements {
  import opened Wrappers
  import opened Chars
  import opened Lexer

  /** The glue at a position of the whole text. */
  function GlueAt(sql: string, i: nat): Glue
    requires i <= |sql|
  {
    var prev := if i > 0 then sql[i - 1] else ' ';
    var before := i > 1 && IdentChar(sql[i - 2]);
    Glue(i > 0 && IdentChar(prev), (prev == 'e' || prev == 'E') && !before)
  }

  /** What is still to come: the rest of the statement being read, then the statements after it. */
  ghost function Resume(g: Glue, rest: string, raw: string, code: string): Result<seq<Statement>> {
    match Seg(g, rest)
    case Fail(e) => Err(e)
    case Stop(n, more) => Put(raw + rest[..n], code + more, Later(rest, n))
  }

  ghost function Later(rest: string, n: nat): Result<seq<Statement>>
    requires n <= |rest|
  {
    if n == |rest| then Ok([]) else Split(rest[n + 1..])
  }

  ghost function Put(raw: string, code: string, later: Result<seq<Statement>>): Result<seq<Statement>> {
    Prepend(Kept(raw, code), later)
  }

  ghost function Prepend(out: seq<Statement>, r: Result<seq<Statement>>): Result<seq<Statement>> {
    match r case Err(e) => Err(e) case Ok(later) => Ok(out + later)
  }

  lemma AfterGlue(sql: string, i: nat, e: nat)
    requires i < e <= |sql|
    ensures After(GlueAt(sql, i), sql[i..e]) == GlueAt(sql, e)
  {
  }

  lemma LaterShift(rest: string, n: nat, m: nat)
    requires n + m <= |rest|
    ensures Later(rest, n + m) == Later(rest[n..], m)
  {
    if n + m < |rest| { assert rest[n + m + 1..] == rest[n..][m + 1..]; }
  }

  /** Reading one token moves it from the rest into the two buffers. */
  lemma TakeStep(g: Glue, rest: string, raw: string, code: string, kind: Kind, n: nat)
    requires rest != "" && Scan(g, rest) == Token(kind, n)
    ensures Resume(g, rest, raw, code)
         == Resume(After(g, rest[..n]), rest[n..], raw + rest[..n], code + Shown(kind, rest[..n]))
  {
    hide Shown, Scan, Split, Put, Later, After;
    var piece, shown := rest[..n], Shown(kind, rest[..n]);
    var next := Seg(After(g, piece), rest[n..]);
    if next.Stop? {
      LaterShift(rest, n, next.len);
      assert raw + rest[..n + next.len] == (raw + piece) + rest[n..][..next.len];
      assert code + (shown + next.code) == (code + shown) + next.code;
    }
  }

  /** TakeStep at a position of the whole text. */
  lemma TakeAt(sql: string, i: nat, raw: string, code: string, kind: Kind, n: nat)
    requires i < |sql| && Scan(GlueAt(sql, i), sql[i..]) == Token(kind, n)
    ensures Resume(GlueAt(sql, i), sql[i..], raw, code)
         == Resume(GlueAt(sql, i + n), sql[i + n..], raw + sql[i..i + n], code + Shown(kind, sql[i..i + n]))
  {
    hide Shown, Scan, Resume;
    TakeStep(GlueAt(sql, i), sql[i..], raw, code, kind, n);
    AfterGlue(sql, i, i + n);
    Slice(sql, i, 0, n);
  }

  lemma FlushStep(sql: string, i: nat, raw: string, code: string)
    requires i < |sql| && sql[i] == ';'
    ensures Resume(GlueAt(sql, i), sql[i..], raw, code)
         == Prepend(Kept(raw, code), Resume(GlueAt(sql, i + 1), sql[i + 1..], "", ""))
  {
    var rest := sql[i..];
    assert rest[1..] == sql[i + 1..];
    assert raw + rest[..0] == raw && code + "" == code;
    SplitIsResume(sql[i + 1..]);
    assert Seg(GlueAt(sql, i), rest) == Stop(0, "");
    assert Later(rest, 0) == Split(sql[i + 1..]);
    assert GlueAt(sql, i + 1) == CLEAN;
  }

  lemma SplitIsResume(s: string)
    ensures Split(s) == Resume(CLEAN, s, "", "")
  {
    var r := Seg(CLEAN, s);
    if r.Stop? {
      assert "" + s[..r.len] == s[..r.len] && "" + r.code == r.code;
      assert Split(s) == Put(s[..r.len], r.code, Later(s, r.len));
    }
  }

  lemma FindShift(sql: string, i: nat, part: string, from: nat)
    requires part != "" && i <= from <= |sql|
    ensures Find(sql, part, from) == i + Find(sql[i..], part, from - i)
  {
    var f := Find(sql[i..], part, from - i);
    forall k | from - i <= k <= |sql| - i ensures StartsAt(sql[i..], k, part) == StartsAt(sql, i + k, part) {
      if k + |part| <= |sql| - i { assert sql[i..][k..k + |part|] == sql[i + k..i + k + |part|]; }
    }
    forall k | from <= k < i + f ensures !StartsAt(sql, k, part) {
      assert !StartsAt(sql[i..], k - i, part);
    }
    FindIs(sql, part, from, i + f);
  }

  /** The words of a $$ body. */
  method InnerCodeOf(body: string) returns (code: string)
    ensures code == InnerCode(body)
    decreases |body|, 2
  {
    var r := SplitStatements(body);
    match r {
      case Ok(statements) =>
        code := Join("; ", Codes(statements));
      case Err(_) => code := " ";
    }
  }

  /** Where a text between q characters that opened at i ends, or None. */
  method QuoteLoop(sql: string, i: nat, q: char, escapes: bool) returns (e: Option<nat>)
    requires i < |sql|
    ensures e == match QuoteEnd(sql[i..], 1, q, escapes) case None => None case Some(k) => Some(i + k)
  {
    ghost var rest := sql[i..];
    var j := i + 1;
    while true
      invariant i < j
      invariant QuoteEnd(rest, j - i, q, escapes) == QuoteEnd(rest, 1, q, escapes)
      decreases |sql| - j
    {
      if j >= |sql| {
        return None;
      }
      if escapes && sql[j] == '\\' {
        j := j + 2;
      } else if sql[j] == q {
        if j + 1 < |sql| && sql[j + 1] == q {
          j := j + 2;
        } else {
          return Some(j + 1);
        }
      } else {
        j := j + 1;
      }
    }
  }

  /** Where a comment that opened at i ends, or None. */
  method CommentLoop(sql: string, i: nat) returns (e: Option<nat>)
    requires i + 2 <= |sql|
    ensures e == match CommentEnd(sql[i..], 2, 1) case None => None case Some(k) => Some(i + k)
  {
    hide CommentEnd, StartsAt;
    ghost var rest := sql[i..];
    var depth, j := 1, i + 2;
    while j < |sql| && depth > 0
      invariant i + 2 <= j && depth >= 0
      invariant CommentEnd(rest, j - i, depth) == CommentEnd(rest, 2, 1)
    {
      CommentStep(sql, i, j, depth);
      if StartsAt(sql, j, "/*") {
        depth, j := depth + 1, j + 2;
      } else if StartsAt(sql, j, "*/") {
        depth, j := depth - 1, j + 2;
      } else {
        j := j + 1;
      }
    }
    CommentStop(rest, j - i, depth);
    e := if depth > 0 then None else Some(j);
  }

  lemma CommentStep(sql: string, i: nat, j: nat, depth: nat)
    requires i <= j < |sql| && depth > 0
    ensures CommentEnd(sql[i..], j - i, depth)
         == if StartsAt(sql, j, "/*") then CommentEnd(sql[i..], j + 2 - i, depth + 1)
            else if StartsAt(sql, j, "*/") then CommentEnd(sql[i..], j + 2 - i, depth - 1)
            else CommentEnd(sql[i..], j + 1 - i, depth)
  {
    hide StartsAt;
    StartsShift(sql, i, j, "/*");
    StartsShift(sql, i, j, "*/");
  }

  lemma CommentStop(rest: string, j: nat, depth: nat)
    requires j >= |rest| || depth == 0
    ensures CommentEnd(rest, j, depth) == if depth > 0 then None else Some(j)
  {
  }

  lemma StartsShift(sql: string, i: nat, j: nat, part: string)
    requires i <= j && i <= |sql|
    ensures StartsAt(sql, j, part) == StartsAt(sql[i..], j - i, part)
  {
    if j + |part| <= |sql| { assert sql[j..j + |part|] == sql[i..][j - i..j - i + |part|]; }
  }

  /** A dollar-quoted token: its opener is t long and its body ends at e. */
  lemma ScanDollar(g: Glue, s: string, t: nat)
    requires s != "" && s[0] == '$' && !g.ident && Tag(s) == Some(t)
    ensures var e := Find(s, s[..t], t);
            Scan(g, s) == if e == |s| then Bad(OpenDollar) else Token(Dollar, e + t)
  {
    assert 2 <= |s| ==> s[0..2][0] == '$';
  }

  lemma ShownDollar(s: string, t: nat, e: nat)
    requires s != "" && s[0] == '$' && Tag(s) == Some(t) && t <= e && e + t <= |s|
    ensures Shown(Dollar, s[..e + t]) == s[..t] + " " + InnerCode(s[t..e]) + " " + s[..t]
  {
    var piece := s[..e + t];
    TagOfPiece(s, t, e + t);
    assert piece[..t] == s[..t];
    assert Body(piece) == s[t..e];
  }

  /** ScanDollar at a position of the whole text. */
  lemma ScanDollarAt(sql: string, i: nat, t: nat, close: nat)
    requires i < |sql| && sql[i] == '$' && !GlueAt(sql, i).ident && Tag(sql[i..]) == Some(t)
    requires close == Find(sql, sql[i..i + t], i + t)
    ensures Scan(GlueAt(sql, i), sql[i..])
         == if close == |sql| then Bad(OpenDollar) else Token(Dollar, close - i + t)
  {
    hide Scan, Tag, Find, StartsAt, GlueAt;
    Slice(sql, i, 0, t);
    FindShift(sql, i, sql[i..i + t], i + t);
    ScanDollar(GlueAt(sql, i), sql[i..], t);
  }

  /** ShownDollar at a position of the whole text. */
  lemma ShownDollarAt(sql: string, i: nat, t: nat, close: nat)
    requires i < |sql| && sql[i] == '$' && Tag(sql[i..]) == Some(t) && i + t <= close && close + t <= |sql|
    ensures Shown(Dollar, sql[i..close + t])
         == sql[i..i + t] + " " + InnerCode(sql[i + t..close]) + " " + sql[i..i + t]
  {
    hide Shown, Tag, InnerCode;
    ShownDollar(sql[i..], t, close - i);
    Slice(sql, i, 0, t);
    Slice(sql, i, t, close - i);
    Slice(sql, i, 0, close - i + t);
  }

  lemma Slice(sql: string, i: nat, a: nat, b: nat)
    requires a <= b && i + b <= |sql|
    ensures sql[i..][a..b] == sql[i + a..i + b]
    ensures sql[i..][b..] == sql[i + b..]
  {
  }

  lemma FindRoom(s: string, part: string, from: nat)
    requires part != "" && from <= |s|
    ensures Find(s, part, from) < |s| ==> Find(s, part, from) + |part| <= |s|
  {
  }

  /** The dollar-quoted text that opens at i, of which the opener is t long. */
  method DollarToken(sql: string, i: nat, t: nat) returns (r: Token, shown: string)
    requires i < |sql| && sql[i] == '$' && !GlueAt(sql, i).ident && Tag(sql[i..]) == Some(t)
    ensures r == Scan(GlueAt(sql, i), sql[i..])
    ensures r.Token? ==> shown == Shown(r.kind, sql[i..i + r.len])
    decreases |sql|, 0, 0
  {
    hide Shown, Scan, Tag, InnerCode, Find, StartsAt, GlueAt;
    var tag := sql[i..i + t];
    var close := Find(sql, tag, i + t);
    ScanDollarAt(sql, i, t, close);
    FindRoom(sql, tag, i + t);
    if close == |sql| {
      return Bad(OpenDollar), "";
    }
    ShownDollarAt(sql, i, t, close);
    var inner := InnerCodeOf(sql[i + t..close]);
    r, shown := Token(Dollar, close - i + t), tag + " " + inner + " " + tag;
  }

  /** The quoted text or quoted name that opens at i. */
  method QuotedToken(sql: string, i: nat) returns (r: Token, shown: string)
    requires i < |sql| && (sql[i] == '\'' || sql[i] == '"')
    ensures r == Scan(GlueAt(sql, i), sql[i..])
    ensures r.Token? ==> shown == Shown(r.kind, sql[i..i + r.len])
  {
    hide QuoteEnd, CommentEnd, Find, IdentChar;
    ghost var rest := sql[i..];
    assert 2 <= |rest| ==> rest[0..2][0] == sql[i];
    if sql[i] == '\'' {
      var escapes := i > 0 && (sql[i - 1] == 'e' || sql[i - 1] == 'E') && !(i > 1 && IdentChar(sql[i - 2]));
      var e := QuoteLoop(sql, i, '\'', escapes);
      if e.None? { return Bad(OpenText), ""; }
      r := Token(Text, e.value - i);
      shown := "'" + Spaces(r.len - 2) + "'";
    } else {
      var e := QuoteLoop(sql, i, '"', false);
      if e.None? { return Bad(OpenName), ""; }
      r := Token(Name, e.value - i);
      shown := "\"" + Spaces(r.len - 2) + "\"";
    }
  }

  /** The token at i and how it is shown: the chain of branches inside the reading loop. */
  method ReadToken(sql: string, i: nat) returns (r: Token, shown: string)
    requires i < |sql|
    ensures r == Scan(GlueAt(sql, i), sql[i..])
    ensures r.Token? ==> shown == Shown(r.kind, sql[i..i + r.len])
    decreases |sql|, 0, 1
  {
    hide CommentEnd, QuoteEnd, Find, Tag, InnerCode, Body, Spaces;
    shown := "";
    var ch := sql[i];
    StartsShift(sql, i, i, "--");
    StartsShift(sql, i, i, "/*");
    if StartsAt(sql, i, "--") {
      FindShift(sql, i, "\n", i);
      r := Token(LineComment, Find(sql, "\n", i) - i);
      shown := Spaces(r.len);
    } else if StartsAt(sql, i, "/*") {
      var e := CommentLoop(sql, i);
      if e.None? { return Bad(OpenComment), ""; }
      r := Token(BlockComment, e.value - i);
      shown := Spaces(r.len);
    } else if ch == '\'' || ch == '"' {
      r, shown := QuotedToken(sql, i);
    } else if ch == '$' && !(i > 0 && IdentChar(sql[i - 1])) {
      var t := Tag(sql[i..]);
      if t.None? {
        r, shown := Token(Other, 1), [ch];
      } else {
        r, shown := DollarToken(sql, i, t.value);
      }
    } else if ch == ';' {
      r := Semicolon;
    } else if ch == '\\' {
      r := Bad(Backslash);
    } else {
      r, shown := Token(Other, 1), [ch];
    }
  }

  /** The statements of a text, or the first thing wrong with it. */
  method SplitStatements(sql: string) returns (r: Result<seq<Statement>>)
    ensures r == Split(sql)
    decreases |sql|, 1
  {
    var out, raw, code := [], "", "";
    var n, i := |sql|, 0;
    Begin(sql);
    hide Split, Seg, Scan, Shown, Resume, Strip, GlueAt, Prepend;
    while i < n
      invariant 0 <= i <= n
      invariant Split(sql) == Prepend(out, Resume(GlueAt(sql, i), sql[i..], raw, code))
      decreases n - i
    {
      var t, shown := ReadToken(sql, i);
      match t {
        case Bad(e) =>
          StopStep(out, GlueAt(sql, i), sql[i..], raw, code);
          return Err(e);
        case Semicolon =>
          FlushStep(sql, i, raw, code);
          PrependTwice(out, Kept(raw, code), Resume(GlueAt(sql, i + 1), sql[i + 1..], "", ""));
          if Strip(code) != "" { out := out + [Statement(Strip(raw), code)]; }
          raw, code, i := "", "", i + 1;
        case Token(kind, len) =>
          TakeAt(sql, i, raw, code, kind, len);
          raw, code := raw + sql[i..i + len], code + shown;
          i := i + len;
      }
    }
    assert sql[n..] == "" && out + [] == out;
    StopStep(out, GlueAt(sql, n), "", raw, code);
    if Strip(code) != "" { out := out + [Statement(Strip(raw), code)]; }
    r := Ok(out);
  }

  lemma Begin(sql: string)
    ensures Split(sql) == Prepend([], Resume(GlueAt(sql, 0), sql[0..], "", ""))
  {
    SplitIsResume(sql);
    assert sql[0..] == sql;
    PrependTwice([], [], Split(sql));
  }

  /** Where reading stops: at the end of the text, or at something wrong with it. */
  lemma StopStep(out: seq<Statement>, g: Glue, rest: string, raw: string, code: string)
    ensures rest == "" ==> Prepend(out, Resume(g, rest, raw, code)) == Ok(out + Kept(raw, code))
    ensures rest != "" && Scan(g, rest).Bad? ==> Prepend(out, Resume(g, rest, raw, code)) == Err(Scan(g, rest).error)
  {
    if rest == "" {
      assert raw + "" == raw && code + "" == code;
      assert Kept(raw, code) + [] == Kept(raw, code);
    }
  }

  lemma PrependTwice(out: seq<Statement>, one: seq<Statement>, later: Result<seq<Statement>>)
    ensures Prepend(out, Prepend(one, later)) == Prepend(out + one, later)
    ensures out + [] == out
    ensures Prepend([], later) == later
  {
    if later.Ok? { assert [] + later.value == later.value; }
    if later.Ok? { assert out + (one + later.value) == (out + one) + later.value; }
  }

  /** The opener of a dollar-quoted piece does not depend on what follows the piece. */
  lemma TagOfPiece(rest: string, t: nat, n: nat)
    requires rest != "" && rest[0] == '$' && Tag(rest) == Some(t) && t <= n <= |rest|
    ensures Tag(rest[..n]) == Some(t)
  {
    RunOfPrefix(rest, 1, n);
  }

  lemma {:induction false} RunOfPrefix(s: string, j: nat, n: nat)
    requires j <= |s| && TagRun(s, j) < n <= |s|
    ensures TagRun(s[..n], j) == TagRun(s, j)
    decreases |s| - j
  {
    if TagChar(s[j]) { RunOfPrefix(s, j + 1, n); }
  }
}
