// What check_file of tools/migrate.py sees of a file: the words that stand outside comments and quotes, and whatever
// is said inside dollar quotes, one inside another.
module Refusals {
  import opened Wrappers
  import opened Chars
  import opened Lexer
  import opened Resplit
  import opened CheckFile
  import opened Keywords

  // ---- the code of a statement, place by place

  /** Reading s token by token comes to p. */
  ghost predicate Reaches(g: Glue, s: string, p: nat)
    decreases |s|
  {
    p == 0
    || (s != "" && Scan(g, s).Token?
        && var n := Scan(g, s).len; n <= p && Reaches(After(g, s[..n]), s[n..], p - n))
  }

  function GlueAt(g: Glue, s: string, p: nat): Glue
    requires Reaches(g, s, p)
    decreases |s|
  {
    if p == 0 then g else var n := Scan(g, s).len; GlueAt(After(g, s[..n]), s[n..], p - n)
  }

  function CodeUpTo(g: Glue, s: string, p: nat): string
    requires Reaches(g, s, p)
    decreases |s|
  {
    if p == 0 then ""
    else
      var t := Scan(g, s);
      Shown(t.kind, s[..t.len]) + CodeUpTo(After(g, s[..t.len]), s[t.len..], p - t.len)
  }

  lemma {:induction false} CodeFrom(g: Glue, s: string, p: nat)
    requires Reaches(g, s, p) && Seg(g, s).Stop?
    ensures p <= |s| && var rest := Seg(GlueAt(g, s, p), s[p..]);
            rest.Stop? && Seg(g, s) == Stop(p + rest.len, CodeUpTo(g, s, p) + rest.code)
    decreases |s|
  {
    hide Scan, Shown, After, Seg, CodeUpTo, GlueAt, Reaches;
    if p == 0 {
      NothingRead(g, s, p);
    } else {
      TokenRead(g, s, p);
      var t := Scan(g, s);
      var n := t.len;
      SegStep(g, s, t.kind, n);
      CodeFrom(After(g, s[..n]), s[n..], p - n);
      assert s[n..][p - n..] == s[p..];
      var rest := Seg(GlueAt(g, s, p), s[p..]);
      Regrouped(Shown(t.kind, s[..n]), CodeUpTo(After(g, s[..n]), s[n..], p - n), rest.code);
    }
  }

  lemma NothingRead(g: Glue, s: string, p: nat)
    requires p == 0 && Reaches(g, s, p)
    ensures GlueAt(g, s, p) == g && CodeUpTo(g, s, p) == "" && s[p..] == s
    ensures Seg(g, s).Stop? ==> "" + Seg(g, s).code == Seg(g, s).code
  {
    hide Seg;
  }

  lemma TokenRead(g: Glue, s: string, p: nat)
    requires p > 0 && Reaches(g, s, p)
    ensures s != "" && Scan(g, s).Token?
    ensures var t := Scan(g, s); var next := After(g, s[..t.len]);
            && t.len <= p && Reaches(next, s[t.len..], p - t.len)
            && GlueAt(g, s, p) == GlueAt(next, s[t.len..], p - t.len)
            && CodeUpTo(g, s, p) == Shown(t.kind, s[..t.len]) + CodeUpTo(next, s[t.len..], p - t.len)
  {
    hide Scan, Shown, After;
  }

  lemma Regrouped(a: string, b: string, c: string)
    ensures a + (b + c) == (a + b) + c
  {
  }

  /** A character that ends a word before it and after it, whatever the case. */
  predicate Apart(c: char) { c as int < 128 && !InWord(c) }

  /** What a token is shown as ends in its own last character, or in one that is in no word; and so it begins. */
  lemma ShownEnds(g: Glue, s: string)
    requires s != "" && Scan(g, s).Token?
    ensures var t := Scan(g, s); var shown := Shown(t.kind, s[..t.len]);
            shown != "" && (shown[|shown| - 1] == s[t.len - 1] || Apart(shown[|shown| - 1]))
            && (shown[0] == s[0] || Apart(shown[0]))
  {
    hide Find, CommentEnd, QuoteEnd, Tag, InnerCode, Body, StartsAt;
    var t := Scan(g, s);
    assert s[..t.len][t.len - 1] == s[t.len - 1] && s[..t.len][0] == s[0];
    if t.kind == Dollar && IsDollarQuote(s[..t.len]) {
      var n := Tag(s[..t.len]).value;
      assert s[..t.len][..n][n - 1] == '$';
    }
  }

  lemma {:induction false} UpToEnds(g: Glue, s: string, p: nat)
    requires Reaches(g, s, p) && p <= |s|
    ensures var code := CodeUpTo(g, s, p);
            (code == "" <==> p == 0)
            && (p > 0 ==> code[|code| - 1] == s[p - 1] || Apart(code[|code| - 1]))
    decreases |s|
  {
    hide Scan, Shown, After;
    if p > 0 {
      var n := Scan(g, s).len;
      ShownEnds(g, s);
      UpToEnds(After(g, s[..n]), s[n..], p - n);
      if n < p { assert s[n..][p - n - 1] == s[p - 1]; }
    }
  }

  lemma CodeStarts(g: Glue, s: string)
    requires Seg(g, s).Stop?
    ensures var code := Seg(g, s).code;
            code != "" ==> s != "" && (code[0] == s[0] || Apart(code[0]))
  {
    hide Scan, Shown, After;
    if s != "" && Scan(g, s).Token? {
      var t := Scan(g, s);
      SegStep(g, s, t.kind, t.len);
      ShownEnds(g, s);
    }
  }

  // ---- words outside comments and quotes

  /** Letters, digits, spaces and whatever else begins no comment and no quote. */
  predicate PlainWords(m: string) { forall k | 0 <= k < |m| :: m[k] !in "-/'\"$;\\" }

  lemma {:induction false} PlainReached(g: Glue, m: string, r: string)
    requires PlainWords(m)
    ensures Reaches(g, m + r, |m|) && CodeUpTo(g, m + r, |m|) == m
    decreases |m|
  {
    hide After;
    if m != "" {
      var s := m + r;
      assert s[0] == m[0];
      OtherToken(g, s);
      assert s[1..] == m[1..] + r && s[..1] == m[..1];
      PlainReached(After(g, s[..1]), m[1..], r);
      hide Scan;
      assert m == m[..1] + m[1..];
    }
  }

  lemma OtherToken(g: Glue, s: string)
    requires s != "" && s[0] !in "-/'\"$;\\"
    ensures Scan(g, s) == Token(Other, 1)
  {
    hide Find, CommentEnd, QuoteEnd, Tag;
    assert 2 <= |s| ==> s[0..2][0] == s[0];
  }

  /** m stands in the statement that begins s, outside comments and quotes, with no word running into it. */
  ghost predicate Written(s: string, p: nat, m: string) {
    && Reaches(CLEAN, s, p) && p + |m| <= |s| && s[p..p + |m|] == m && PlainWords(m) && m != ""
    && (p > 0 ==> Apart(s[p - 1])) && (p + |m| < |s| ==> Apart(s[p + |m|]))
  }

  /** The code shows it in the same way. */
  lemma WrittenShown(s: string, p: nat, m: string) returns (x: string, z: string)
    requires Written(s, p, m) && Seg(CLEAN, s).Stop?
    ensures Seg(CLEAN, s).code == x + m + z
    ensures (x != "" ==> Apart(x[|x| - 1])) && (z != "" ==> Apart(z[0]))
  {
    hide Seg, Scan, Shown, After, CodeUpTo, GlueAt, Apart;
    CodeFrom(CLEAN, s, p);
    UpToEnds(CLEAN, s, p);
    var h := GlueAt(CLEAN, s, p);
    var r := s[p + |m|..];
    assert s[p..] == m + r;
    PlainReached(h, m, r);
    CodeFrom(h, m + r, |m|);
    var k := GlueAt(h, m + r, |m|);
    assert (m + r)[|m|..] == r;
    CodeStarts(k, r);
    x, z := CodeUpTo(CLEAN, s, p), Seg(k, r).code;
    assert Seg(CLEAN, s).code == x + (m + z) == x + m + z;
    assert r != "" ==> r[0] == s[p + |m|];
  }

  // ---- the words in any capitals

  /** The word w, in any mixture of capitals and small letters. */
  predicate AnyCase(m: string, w: string) {
    |m| == |w| && forall k | 0 <= k < |w| :: 'A' <= w[k] <= 'Z' && (m[k] == w[k] || m[k] == w[k] - 'A' + 'a')
  }

  /** Two words with white space between them. */
  ghost predicate TwoWords(m: string, v: string, w: string) {
    exists i, j :: 0 < i < j < |m| && AnyCase(m[..i], v) && Blank(m[i..j]) && AnyCase(m[j..], w)
  }

  /** A rule is spelled out: RENAME, TRUNCATE, or DROP and what is dropped. */
  ghost predicate Spelled(m: string, rule: Rule) {
    match rule
    case Rename => AnyCase(m, "RENAME")
    case Truncate => AnyCase(m, "TRUNCATE")
    case DropObject => exists w | w in {"TABLE", "COLUMN", "SCHEMA", "DATABASE", "EXTENSION"} :: TwoWords(m, "DROP", w)
    case DropColumn => false
  }

  lemma {:induction false} UpperWord(m: string, w: string)
    requires AnyCase(m, w)
    ensures Upper(m) == w
  {
    if m != "" {
      UpperWord(m[1..], w[1..]);
      assert w == [w[0]] + w[1..];
    }
  }

  lemma {:induction false} CapitalsRun(w: string)
    requires AnyCase(w, w)
    ensures WordRun(w) == |w|
  {
    if w != "" { CapitalsRun(w[1..]); }
  }

  lemma SqueezeWord(w: string)
    requires AnyCase(w, w) && w != ""
    ensures Squeeze(w) == w && !IsSpace(w[0]) && !IsSpace(w[|w| - 1]) && InWord(w[0]) && InWord(w[|w| - 1])
  {
    CapitalsRun(w);
    WordsAre(w);
    NoWords(w[|w|..]);
    assert w[..|w|] == w;
  }

  /** A capital phrase among other text, set off from it, stands whole in the squeezed text. */
  lemma SqueezeStands(x: string, m: string, z: string) returns (i: nat)
    requires m != "" && !IsSpace(m[0]) && !IsSpace(m[|m| - 1])
    requires (x != "" ==> !InWord(x[|x| - 1])) && (z != "" ==> !InWord(z[0]))
    ensures Stands(Squeeze(x + m + z), i, Squeeze(m))
  {
    hide Squeeze, Before, Behind;
    SqueezeParts(x, m, z);
    BeforeEnd(x);
    BehindStart(z);
    i := |Before(x)|;
    var t := Squeeze(x + m + z);
    var k := |Squeeze(m)|;
    assert t == Before(x) + Squeeze(m) + Behind(z);
    assert t[i..i + k] == Squeeze(m);
    assert !InWord(' ');
  }

  lemma UpperApart(x: string)
    ensures x != "" && Apart(x[|x| - 1]) ==> Upper(x) != "" && !InWord(Upper(x)[|Upper(x)| - 1])
    ensures x != "" && Apart(x[0]) ==> Upper(x) != "" && !InWord(Upper(x)[0])
  {
    if x != "" {
      var n := |x| - 1;
      assert x == x[..n] + [x[n]];
      UpperAppend(x[..n], [x[n]]);
    }
  }

  lemma UpperThree(x: string, m: string, z: string)
    ensures Upper(x + m + z) == Upper(x) + Upper(m) + Upper(z)
  {
    UpperAppend(x + m, z);
    UpperAppend(x, m);
  }

  /** One word. */
  lemma WordSaid(x: string, m: string, z: string, w: string) returns (i: nat)
    requires AnyCase(m, w) && w != ""
    requires (x != "" ==> Apart(x[|x| - 1])) && (z != "" ==> Apart(z[0]))
    ensures Stands(Normal(x + m + z), i, w)
  {
    hide Words, Apart, Stands;
    UpperThree(x, m, z);
    UpperWord(m, w);
    SqueezeWord(w);
    UpperApart(x);
    UpperApart(z);
    UpperNone(x);
    UpperNone(z);
    i := SqueezeStands(Upper(x), w, Upper(z));
  }

  lemma UpperNone(x: string)
    ensures x == "" ==> Upper(x) == ""
  {
  }

  /** Two words. */
  lemma PairSaid(x: string, m: string, z: string, v: string, w: string) returns (i: nat)
    requires TwoWords(m, v, w) && v != "" && w != ""
    requires (x != "" ==> Apart(x[|x| - 1])) && (z != "" ==> Apart(z[0]))
    ensures Stands(Normal(x + m + z), i, v + " " + w)
  {
    hide Normal, Squeeze, Upper, Apart, Stands, AnyCase;
    UpperThree(x, m, z);
    NormalIs(x + m + z);
    var gap := PairUpper(m, v, w);
    SqueezePair(v, gap, w);
    UpperApart(x);
    UpperApart(z);
    UpperNone(x);
    UpperNone(z);
    i := SqueezeStands(Upper(x), v + gap + w, Upper(z));
  }

  lemma PairUpper(m: string, v: string, w: string) returns (gap: string)
    requires TwoWords(m, v, w)
    ensures Upper(m) == v + gap + w && Blank(gap) && gap != "" && AnyCase(v, v) && AnyCase(w, w)
  {
    hide Upper;
    var a, b :| 0 < a < b < |m| && AnyCase(m[..a], v) && Blank(m[a..b]) && AnyCase(m[b..], w);
    gap := m[a..b];
    assert m == m[..a] + gap + m[b..];
    UpperThree(m[..a], gap, m[b..]);
    UpperWord(m[..a], v);
    UpperWord(m[b..], w);
    UpperBlank(gap);
  }

  lemma SqueezePair(v: string, gap: string, w: string)
    requires AnyCase(v, v) && v != "" && Blank(gap) && gap != "" && AnyCase(w, w) && w != ""
    ensures Squeeze(v + gap + w) == v + " " + w
    ensures var m := v + gap + w; !IsSpace(m[0]) && !IsSpace(m[|m| - 1])
  {
    SqueezeWord(v);
    SqueezeWord(w);
    hide Squeeze;
    assert v + gap + w == v + (gap + w);
    SqueezeTail(v, gap + w);
    assert (gap + w)[0] == gap[0];
    GapThenWord(gap, w);
  }

  lemma GapThenWord(gap: string, w: string)
    requires Blank(gap) && gap != "" && w != "" && !IsSpace(w[0])
    ensures Behind(gap + w) == " " + Squeeze(w)
  {
    hide Words;
    assert (gap + w)[0] == gap[0] && (gap + w)[|gap|] == w[0];
    WordsLead(gap, w);
  }

  /** What is spelled out in a code, set off from other words, is what its rule is about. */
  lemma SpelledSaid(x: string, m: string, z: string, rule: Rule)
    requires Spelled(m, rule)
    requires (x != "" ==> Apart(x[|x| - 1])) && (z != "" ==> Apart(z[0]))
    ensures Says(Normal(x + m + z), rule)
  {
    hide Normal, Stands, AnyCase, TwoWords, Apart;
    match rule {
      case Rename => var i := WordSaid(x, m, z, "RENAME");
      case Truncate => var i := WordSaid(x, m, z, "TRUNCATE");
      case DropObject =>
        var w :| w in {"TABLE", "COLUMN", "SCHEMA", "DATABASE", "EXTENSION"} && TwoWords(m, "DROP", w);
        var i := PairSaid(x, m, z, "DROP", w);
        PairStands(Normal(x + m + z), i, "DROP", w);
        DropSaid(Normal(x + m + z), i, w);
      case DropColumn =>
    }
  }

  lemma DropSaid(t: string, i: nat, w: string)
    requires w in {"TABLE", "COLUMN", "SCHEMA", "DATABASE", "EXTENSION"} && Drops(t, i) && Stands(t, i + 5, w)
    ensures Says(t, DropObject)
  {
    hide Stands, Drops;
  }

  lemma PairStands(t: string, i: nat, d: string, w: string)
    requires |d| == 4 && w != "" && InWord(w[0]) && InWord(d[3]) && Stands(t, i, d + " " + w)
    ensures Stands(t, i, d) && i + 4 < |t| && t[i + 4] == ' ' && Stands(t, i + 5, w)
  {
    var m := d + " " + w;
    assert t[i..i + |m|] == m;
    assert t[i..i + 4] == m[..4] == d && t[i + 4] == m[4] && t[i + 5..i + 5 + |w|] == m[5..] == w;
  }

  // ---- what a dollar quote says

  /** In the statement that begins s, body stands between two of a dollar tag at p. */
  ghost predicate Quoted(s: string, p: nat, tag: string, body: string) {
    && Reaches(CLEAN, s, p) && p < |s| && s[p] == '$' && Tag(s[p..]) == Some(|tag|)
    && Scan(GlueAt(CLEAN, s, p), s[p..]) == Token(Dollar, 2 * |tag| + |body|)
    && p + 2 * |tag| + |body| <= |s| && s[p..p + 2 * |tag| + |body|] == tag + body + tag
  }

  lemma PieceIs(piece: string, tag: string, body: string)
    requires piece == tag + body + tag && tag != "" && tag[0] == '$' && Tag(piece) == Some(|tag|)
    ensures IsDollarQuote(piece) && Body(piece) == body && piece[..|tag|] == tag
  {
    hide Tag;
  }

  lemma {:induction false} SameTag(s: string, n: nat, k: nat)
    requires k < n <= |s| && s[0] == '$' && Tag(s) == Some(k)
    ensures Tag(s[..n]) == Some(k)
  {
    var r := s[..n];
    RunStops(s, r, 1, k - 1);
  }

  lemma {:induction false} RunStops(s: string, r: string, j: nat, m: nat)
    requires j <= m < |r| <= |s| && r == s[..|r|] && TagRun(s, j) == m
    ensures TagRun(r, j) == m
    decreases m - j
  {
    if j < m { RunStops(s, r, j + 1, m); }
  }

  /** The code of a statement that quotes a text shows the codes of that text's statements, in order, between the
      tags. A text that does not split is shown as blank. */
  lemma QuotedShown(s: string, p: nat, tag: string, body: string) returns (x: string, z: string)
    requires Quoted(s, p, tag, body) && Seg(CLEAN, s).Stop?
    ensures var inner := if Split(body).Ok? then Join("; ", Codes(Split(body).value)) else " ";
            Seg(CLEAN, s).code == x + (tag + " " + inner + " " + tag) + z
    ensures x == "" <==> p == 0
  {
    hide Seg, Scan, After, CodeUpTo, Tag, Split, Shown, Join;
    CodeFrom(CLEAN, s, p);
    UpToEnds(CLEAN, s, p);
    var h, r, n := GlueAt(CLEAN, s, p), s[p..], 2 * |tag| + |body|;
    SegStep(h, r, Dollar, n);
    assert r[..n] == s[p..p + n];
    QuotedPiece(r, n, tag, body);
    ShownQuote(r[..n], tag, body);
    x, z := CodeUpTo(CLEAN, s, p), Seg(After(h, r[..n]), r[n..]).code;
    assert x + (Shown(Dollar, r[..n]) + z) == x + Shown(Dollar, r[..n]) + z;
  }

  lemma QuotedPiece(r: string, n: nat, tag: string, body: string)
    requires r != "" && r[0] == '$' && Tag(r) == Some(|tag|) && n == 2 * |tag| + |body| <= |r|
             && r[..n] == tag + body + tag
    ensures IsDollarQuote(r[..n]) && Body(r[..n]) == body && Tag(r[..n]).value == |tag| && r[..n][..|tag|] == tag
  {
    hide Tag;
    SameTag(r, n, |tag|);
    assert r[..n][0] == tag[0];
    PieceIs(r[..n], tag, body);
  }

  lemma ShownQuote(piece: string, tag: string, body: string)
    requires IsDollarQuote(piece) && Body(piece) == body && piece[..Tag(piece).value] == tag
    ensures var inner := if Split(body).Ok? then Join("; ", Codes(Split(body).value)) else " ";
            Shown(Dollar, piece) == tag + " " + inner + " " + tag
  {
    hide Split, Tag, Body, Join;
  }

  lemma {:induction false} PlainGlue(g: Glue, m: string, r: string)
    requires PlainWords(m) && Reaches(g, m + r, |m|)
    ensures GlueAt(g, m + r, |m|).ident <==> if m == "" then g.ident else IdentChar(m[|m| - 1])
    decreases |m|
  {
    if m != "" {
      var s := m + r;
      OtherToken(g, s);
      hide Scan;
      assert s[1..] == m[1..] + r && s[..1] == m[..1];
      TokenRead(g, s, |m|);
      PlainGlue(After(g, s[..1]), m[1..], r);
    }
  }

  lemma {:induction false} RunGoesOn(s: string, more: string, j: nat)
    requires j <= |s| && TagRun(s, j) < |s|
    ensures TagRun(s + more, j) == TagRun(s, j)
    decreases |s| - j
  {
    assert j < |s| ==> (s + more)[j] == s[j];
    if j < |s| && TagChar(s[j]) { RunGoesOn(s, more, j + 1); }
  }

  lemma TagGoesOn(tag: string, more: string)
    requires tag != "" && tag[0] == '$' && Tag(tag) == Some(|tag|)
    ensures Tag(tag + more) == Some(|tag|)
  {
    RunGoesOn(tag, more, 1);
    var n := |tag| - 1;
    assert (tag + more)[n] == tag[n] && (tag + more)[0] == tag[0];
    assert n > 1 ==> (tag + more)[1] == tag[1];
  }

  lemma ClosesThere(tag: string, body: string, r: string)
    requires tag != "" && Find(body + tag, tag, 0) == |body|
    ensures Find(tag + body + tag + r, tag, |tag|) == |tag| + |body|
  {
    hide Find;
    var s, n := tag + body + tag + r, |tag|;
    assert s[n + |body|..n + |body| + n] == tag;
    forall k | n <= k < n + |body| ensures !StartsAt(s, k, tag) {
      assert !StartsAt(body + tag, k - n, tag);
      assert s[k..k + n] == (body + tag)[k - n..k];
    }
    FindIs(s, tag, n, n + |body|);
  }

  lemma OpensQuote(g: Glue, s: string, n: nat, e: nat)
    requires s != "" && s[0] == '$' && !g.ident && Tag(s) == Some(n) && e == Find(s, s[..n], n) < |s|
    ensures Scan(g, s) == Token(Dollar, e + n)
  {
    hide CommentEnd, QuoteEnd, Tag, Find;
    assert |s| >= 2 ==> s[0..2][0] == '$';
  }

  /** Any text that does not hold its closing tag is quoted by writing it between two tags, after plain words. */
  lemma TagsQuote(x: string, tag: string, body: string, r: string)
    requires PlainWords(x) && (x != "" ==> !IdentChar(x[|x| - 1]))
    requires tag != "" && tag[0] == '$' && Tag(tag) == Some(|tag|) && Find(body + tag, tag, 0) == |body|
    ensures Quoted(x + (tag + body + tag + r), |x|, tag, body)
  {
    hide Tag, Find, Scan, Reaches, GlueAt;
    var q := tag + body + tag + r;
    PlainReached(CLEAN, x, q);
    PlainGlue(CLEAN, x, q);
    QuoteScan(GlueAt(CLEAN, x + q, |x|), tag, body, r);
    QuotedAfter(x, q, tag, body);
  }

  lemma QuoteScan(g: Glue, tag: string, body: string, r: string)
    requires !g.ident && tag != "" && tag[0] == '$' && Tag(tag) == Some(|tag|) && Find(body + tag, tag, 0) == |body|
    ensures var q, n := tag + body + tag + r, 2 * |tag| + |body|;
            q[0] == '$' && n <= |q| && q[..n] == tag + body + tag
            && Tag(q) == Some(|tag|) && Scan(g, q) == Token(Dollar, n)
  {
    hide Tag, Find, Scan;
    var q := tag + body + tag + r;
    assert q == tag + (body + tag + r) && q[..|tag|] == tag;
    TagGoesOn(tag, body + tag + r);
    ClosesThere(tag, body, r);
    OpensQuote(g, q, |tag|, |tag| + |body|);
  }

  lemma QuotedAfter(x: string, q: string, tag: string, body: string)
    requires q != "" && q[0] == '$' && Tag(q) == Some(|tag|) && Reaches(CLEAN, x + q, |x|)
    requires var n := 2 * |tag| + |body|;
             n <= |q| && q[..n] == tag + body + tag && Scan(GlueAt(CLEAN, x + q, |x|), q) == Token(Dollar, n)
    ensures Quoted(x + q, |x|, tag, body)
  {
    hide Tag, Scan, Reaches, GlueAt;
    var s, n := x + q, 2 * |tag| + |body|;
    assert s[|x|..] == q && s[|x|..|x| + n] == q[..n];
  }

  /** One text among those joined. */
  lemma {:induction false} JoinHolds(sep: string, codes: seq<string>, k: nat) returns (a: string, b: string)
    requires k < |codes| && |sep| == 2 && sep[0] == ';' && sep[1] == ' '
    ensures Join(sep, codes) == a + codes[k] + b
    ensures (a != "" ==> a[|a| - 1] == ' ') && (b != "" ==> b[0] == ';')
    decreases |codes|
  {
    if |codes| == 1 {
      a, b := "", "";
    } else if k == 0 {
      a, b := "", sep + Join(sep, codes[1..]);
    } else {
      var c, d := JoinHolds(sep, codes[1..], k - 1);
      a, b := codes[0] + sep + c, d;
      assert codes[0] + sep + (c + codes[k] + d) == (codes[0] + sep + c) + codes[k] + d;
    }
  }

  /** What follows a code that is held in another: a semicolon or a dollar sign, perhaps after white space. */
  predicate Edge(z: string) {
    z != "" && (z[0] == ';' || (IsSpace(z[0]) && LStrip(z) != "" && LStrip(z)[0] in ";$"))
  }

  /** The code of a statement in a quoted text stands in the code that quotes it. */
  lemma InnerHeld(s: string, p: nat, tag: string, body: string, k: nat) returns (x: string, z: string)
    requires Quoted(s, p, tag, body) && Seg(CLEAN, s).Stop? && Split(body).Ok? && k < |Split(body).value|
    ensures Seg(CLEAN, s).code == x + Split(body).value[k].code + z
    ensures x != "" && IsSpace(x[|x| - 1]) && Edge(z)
  {
    hide Seg, Split, Quoted, Join, LStrip;
    var codes := Codes(Split(body).value);
    var u, v := QuotedShown(s, p, tag, body);
    var a, b := JoinHolds("; ", codes, k);
    TagStarts(s, p, tag, body);
    EdgeIs(b, tag + v);
    x, z := SpaceAfter(u + tag, a), b + " " + (tag + v);
    Regroup(u, tag, a, codes[k], b, v);
  }

  function SpaceAfter(t: string, a: string): string { t + " " + a }

  lemma Regroup(u: string, tag: string, a: string, c: string, b: string, v: string)
    requires a != "" ==> a[|a| - 1] == ' '
    ensures u + (tag + " " + (a + c + b) + " " + tag) + v == SpaceAfter(u + tag, a) + c + (b + " " + (tag + v))
    ensures var x := SpaceAfter(u + tag, a); x != "" && IsSpace(x[|x| - 1])
  {
    var x := SpaceAfter(u + tag, a);
    assert x[|x| - 1] == if a == "" then ' ' else a[|a| - 1];
  }

  lemma TagStarts(s: string, p: nat, tag: string, body: string)
    requires Quoted(s, p, tag, body)
    ensures tag != "" && tag[0] == '$'
  {
    hide Scan, Tag, Reaches;
    assert s[p..p + 2 * |tag| + |body|][0] == s[p];
  }

  lemma EdgeIs(b: string, t: string)
    requires (b != "" ==> b[0] == ';') && t != "" && t[0] == '$'
    ensures Edge(b + " " + t)
  {
    var z := b + " " + t;
    if b == "" {
      LStripAppend(" ", t);
      assert z == " " + t;
    } else {
      assert z[0] == ';';
    }
  }

  // ---- the checks see it

  /** A code in the middle of another keeps its words together. */
  lemma NormalHeld(x: string, c: string, z: string) returns (u: string, v: string)
    requires IsSpaceEnd(x) && Edge(z) && Normal(c) != ""
    ensures Normal(x + c + z) == u + Normal(c) + v
    ensures (u != "" ==> u[|u| - 1] == ' ') && v != "" && (v[0] == ';' || (|v| >= 2 && v[0] == ' ' && v[1] in ";$"))
  {
    hide Normal, Squeeze, Behind, Upper, Edge;
    UpperThree(x, c, z);
    NormalIs(c);
    NormalIs(x + c + z);
    UpperSpace(x);
    var lead, m, trail := Trimmed(Upper(c));
    u, v := SqueezeHeld(Upper(x), lead, m, trail, Upper(z));
    EdgeUpper(trail, z);
  }

  lemma Trimmed(y: string) returns (lead: string, m: string, trail: string)
    requires Squeeze(y) != ""
    ensures y == lead + m + trail && Blank(lead) && Blank(trail) && Squeeze(y) == Squeeze(m)
    ensures m != "" && !IsSpace(m[0]) && !IsSpace(m[|m| - 1])
  {
    hide Squeeze, LStrip, RStrip;
    LStripParts(y);
    var l := LStrip(y);
    lead := y[..|y| - |l|];
    RStripParts(l);
    m := RStrip(l);
    trail := l[|m|..];
    assert y == lead + m + trail;
    if m == "" { NothingLeft(lead, trail); }
    SqueezeTrim(lead, m, trail);
    assert m[0] == l[0];
  }

  lemma SqueezeHeld(x: string, lead: string, m: string, trail: string, z: string) returns (u: string, v: string)
    requires IsSpaceEnd(x) && Blank(lead) && m != "" && !IsSpace(m[0]) && !IsSpace(m[|m| - 1])
    ensures Squeeze(x + (lead + m + trail) + z) == u + Squeeze(m) + v
    ensures (u != "" ==> u[|u| - 1] == ' ') && v == Behind(trail + z)
  {
    hide Squeeze, Before, Behind;
    var a, b := x + lead, trail + z;
    SqueezeParts(a, m, b);
    assert a + m + b == x + (lead + m + trail) + z;
    BeforeEnd(a);
    assert IsSpace(a[|a| - 1]) by { assert a[|a| - 1] == if lead == "" then x[|x| - 1] else lead[|lead| - 1]; }
    u, v := Before(a), Behind(b);
  }

  lemma NormalIs(c: string)
    ensures Normal(c) == Squeeze(Upper(c))
  {
  }

  predicate IsSpaceEnd(x: string) { x != "" && IsSpace(x[|x| - 1]) }

  lemma NothingLeft(lead: string, trail: string)
    requires Blank(lead) && Blank(trail)
    ensures Squeeze(lead + "" + trail) == ""
  {
    NoWords(lead + trail);
    assert lead + "" + trail == lead + trail;
  }

  lemma SqueezeTrim(lead: string, m: string, trail: string)
    requires Blank(lead) && Blank(trail) && (m != "" ==> !IsSpace(m[0]) && !IsSpace(m[|m| - 1]))
    ensures m != "" ==> Squeeze(lead + m + trail) == Squeeze(m)
  {
    hide Words;
    if m != "" {
      SqueezeParts(lead, m, trail);
      assert "" + Squeeze(m) + "" == Squeeze(m);
    }
  }

  lemma UpperSpace(x: string)
    requires IsSpaceEnd(x)
    ensures IsSpaceEnd(Upper(x))
  {
    var n := |x| - 1;
    assert x == x[..n] + [x[n]];
    UpperAppend(x[..n], [x[n]]);
    UpperBlank([x[n]]);
  }

  lemma EdgeUpper(trail: string, z: string)
    requires Blank(trail) && Edge(z)
    ensures var v := Behind(trail + Upper(z));
            v != "" && (v[0] == ';' || (|v| >= 2 && v[0] == ' ' && v[1] in ";$"))
  {
    hide Squeeze, Words, LStrip, Upper, Behind;
    var l := LStrip(z);
    LStripParts(z);
    var w := z[..|z| - |l|];
    assert z == w + l;
    UpperAppend(w, l);
    UpperBlank(w);
    EdgeHead(z, l);
    var b := trail + Upper(z);
    assert b == (trail + w) + Upper(l);
    BlankBoth(trail, w);
    GapBehind(trail + w, Upper(l));
  }

  lemma BlankBoth(a: string, b: string)
    requires Blank(a) && Blank(b)
    ensures Blank(a + b)
  {
  }

  lemma EdgeHead(z: string, l: string)
    requires Edge(z) && l == LStrip(z)
    ensures l != "" && l[0] in ";$" && (z[0] != ';' ==> |z| > |l|) && (l[0] == '$' ==> |z| > |l|)
    ensures Upper(l) != "" && Upper(l)[0] == l[0]
  {
    LStripParts(z);
  }

  /** Behind a gap, or none, comes what follows. */
  lemma GapBehind(gap: string, y: string)
    requires Blank(gap) && y != "" && y[0] in ";$" && (y[0] == '$' ==> gap != "")
    ensures var v := Behind(gap + y);
            v != "" && (v[0] == ';' || (|v| >= 2 && v[0] == ' ' && v[1] in ";$"))
  {
    hide Squeeze, Words, LStrip;
    var b := gap + y;
    LStripAppend(gap, y);
    LStripIs(y);
    assert b[|gap|] == y[0];
    BehindStart(b);
    assert b[0] == if gap == "" then y[0] else gap[0];
  }

  lemma LStripIs(y: string)
    requires y != "" && !IsSpace(y[0])
    ensures LStrip(y) == y
  {
  }

  // ---- a rule broken by a part is broken by the whole

  /** t is u with other text around it, set off from it. */
  predicate Around(t: string, x: string, u: string, z: string) {
    && t == x + u + z && (x != "" ==> x[|x| - 1] == ' ')
    && z != "" && (z[0] == ';' || (|z| >= 2 && z[0] == ' ' && z[1] in ";$"))
  }

  lemma AroundAt(t: string, x: string, u: string, z: string, i: nat, w: string)
    requires Around(t, x, u, z) && i + |w| <= |u|
    ensures |x| + |u| < |t|
    ensures t[|x| + i..|x| + i + |w|] == u[i..i + |w|]
    ensures i > 0 ==> t[|x| + i - 1] == u[i - 1]
    ensures i == 0 && |x| > 0 ==> t[|x| - 1] == ' '
    ensures i + |w| < |u| ==> t[|x| + i + |w|] == u[i + |w|]
    ensures i + |w| == |u| ==> |x| + |u| < |t| && t[|x| + |u|] == z[0]
  {
    var rest := u + z;
    assert t == x + rest && t[|x|..] == rest;
    assert rest[i..i + |w|] == u[i..i + |w|];
    assert t[|x| + i..|x| + i + |w|] == rest[i..i + |w|];
    assert forall k | 0 <= k < |rest| :: t[|x| + k] == rest[k];
  }

  lemma StandsOn(t: string, x: string, u: string, z: string, i: nat, w: string)
    requires Around(t, x, u, z) && i + |w| <= |u|
    ensures Stands(u, i, w) <==> Stands(t, |x| + i, w)
  {
    hide Around, Stands;
    AroundAt(t, x, u, z, i, w);
    AroundEdge(t, x, u, z);
    SameStands(u, i, t, |x| + i, w);
  }

  lemma SameStands(u: string, i: nat, t: string, a: nat, w: string)
    requires i + |w| <= |u| && a + |w| <= |t| && t[a..a + |w|] == u[i..i + |w|]
    requires (i > 0 && InWord(u[i - 1])) <==> (a > 0 && InWord(t[a - 1]))
    requires (i + |w| < |u| && InWord(u[i + |w|])) <==> (a + |w| < |t| && InWord(t[a + |w|]))
    ensures Stands(u, i, w) <==> Stands(t, a, w)
  {
  }

  lemma AroundEdge(t: string, x: string, u: string, z: string)
    requires Around(t, x, u, z)
    ensures z != "" && !InWord(z[0]) && !InWord(' ')
  {
  }

  lemma DropsOn(t: string, x: string, u: string, z: string, i: nat)
    requires Around(t, x, u, z) && Drops(u, i)
    ensures Drops(t, |x| + i) && i + 5 <= |u|
  {
    hide Around, Stands;
    StandsInside(u, i, "DROP");
    StandsOn(t, x, u, z, i, "DROP");
    OneOn(t, x, u, z, i + 4);
  }

  lemma DropsEnd(u: string)
    ensures forall j: nat | Drops(u, j) :: j + 5 <= |u|
  {
  }

  lemma StandsInside(u: string, i: nat, w: string)
    requires Stands(u, i, w)
    ensures i + |w| <= |u|
  {
  }

  lemma OneOn(t: string, x: string, u: string, z: string, i: nat)
    requires Around(t, x, u, z) && i < |u|
    ensures |x| + i < |t| && t[|x| + i] == u[i]
  {
  }

  /** A phrase of words with no semicolon and no dollar sign, and no space but between words. */
  predicate Phrase(w: string) {
    && w != "" && ';' !in w && '$' !in w && w[0] != ' '
    && forall k | 0 <= k < |w| && w[k] == ' ' :: k + 1 < |w|
  }

  /** A phrase that begins in the part ends in it. */
  lemma PhraseInside(t: string, x: string, u: string, z: string, i: nat, w: string)
    requires Around(t, x, u, z) && i <= |u| && Stands(t, |x| + i, w) && Phrase(w)
    ensures i + |w| <= |u|
  {
    hide Around, Stands;
    if i + |w| > |u| { RunsOver(t, x, u, z, i, w); }
  }

  lemma RunsOver(t: string, x: string, u: string, z: string, i: nat, w: string)
    requires Around(t, x, u, z) && i <= |u| && Stands(t, |x| + i, w) && i + |w| > |u|
    ensures z != "" && w[|u| - i] == z[0] && (z[0] == ';' || z[0] == ' ')
    ensures z[0] == ' ' ==> |z| >= 2 && z[1] in ";$" && (|u| - i + 1 < |w| ==> w[|u| - i + 1] == z[1])
  {
    var k := |u| - i;
    var part := t[|x| + i..|x| + i + |w|];
    assert part == w && part[k] == t[|x| + |u|] == z[0];
    assert k + 1 < |w| ==> part[k + 1] == t[|x| + |u| + 1] == z[1];
  }

  lemma NotStandsOn(t: string, x: string, u: string, z: string, i: nat, w: string)
    requires Around(t, x, u, z) && i <= |u| && Phrase(w) && !Stands(u, i, w)
    ensures !Stands(t, |x| + i, w)
  {
    hide Around, Stands, Phrase;
    if Stands(t, |x| + i, w) {
      PhraseInside(t, x, u, z, i, w);
      StandsOn(t, x, u, z, i, w);
    }
  }

  lemma DropObjectOn(t: string, x: string, u: string, z: string)
    requires Around(t, x, u, z) && Says(u, DropObject)
    ensures Says(t, DropObject)
  {
    hide Around, Stands, Drops;
    var i: nat :| Drops(u, i) && (Stands(u, i + 5, "TABLE") || Stands(u, i + 5, "COLUMN")
        || Stands(u, i + 5, "SCHEMA") || Stands(u, i + 5, "DATABASE") || Stands(u, i + 5, "EXTENSION"));
    DropsOn(t, x, u, z, i);
    forall w | w in DROPPED && Stands(u, i + 5, w) ensures Stands(t, |x| + i + 5, w) {
      StandsInside(u, i + 5, w);
      StandsOn(t, x, u, z, i + 5, w);
    }
    ListedDrops();
  }

  lemma ListedDrops()
    ensures "TABLE" in DROPPED && "COLUMN" in DROPPED && "SCHEMA" in DROPPED && "DATABASE" in DROPPED
            && "EXTENSION" in DROPPED
  {
    assert DROPPED[0] == "TABLE" && DROPPED[1] == "COLUMN" && DROPPED[2] == "SCHEMA" && DROPPED[3] == "DATABASE"
      && DROPPED[4] == "EXTENSION";
  }

  lemma DropColumnOn(t: string, x: string, u: string, z: string)
    requires Around(t, x, u, z) && Says(u, DropColumn)
    ensures Says(t, DropColumn)
  {
    hide Around, Stands, Drops, Phrase;
    DropsEnd(u);
    var i: nat, j: nat :| Stands(u, i, "ALTER TABLE") && Drops(u, j) && i + 11 <= j && ';' !in u[i + 11..j]
        && !(Stands(u, j + 5, "CONSTRAINT") || Stands(u, j + 5, "DEFAULT") || Stands(u, j + 5, "NOT NULL")
             || Stands(u, j + 5, "IDENTITY") || Stands(u, j + 5, "EXPRESSION"));
    StandsInside(u, i, "ALTER TABLE");
    StandsOn(t, x, u, z, i, "ALTER TABLE");
    DropsOn(t, x, u, z, j);
    BetweenOn(t, x, u, z, i + 11, j);
    ListedPhrases();
    NotStandsOn(t, x, u, z, j + 5, "CONSTRAINT");
    NotStandsOn(t, x, u, z, j + 5, "DEFAULT");
    NotStandsOn(t, x, u, z, j + 5, "NOT NULL");
    NotStandsOn(t, x, u, z, j + 5, "IDENTITY");
    NotStandsOn(t, x, u, z, j + 5, "EXPRESSION");
    assert |x| + j + 5 == (|x| + j) + 5;
    assert Stands(t, |x| + i, "ALTER TABLE") && Drops(t, |x| + j);
  }

  lemma ListedPhrases()
    ensures Phrase("CONSTRAINT") && Phrase("DEFAULT") && Phrase("NOT NULL") && Phrase("IDENTITY")
            && Phrase("EXPRESSION")
  {
  }

  lemma BetweenOn(t: string, x: string, u: string, z: string, i: nat, j: nat)
    requires Around(t, x, u, z) && i <= j <= |u|
    ensures |x| + j <= |t| && t[|x| + i..|x| + j] == u[i..j]
  {
  }

  lemma WordOn(t: string, x: string, u: string, z: string, w: string) returns (i: nat)
    requires Around(t, x, u, z) && exists k: nat :: Stands(u, k, w)
    ensures Stands(t, i, w)
  {
    hide Around, Stands;
    var k: nat :| Stands(u, k, w);
    StandsInside(u, k, w);
    StandsOn(t, x, u, z, k, w);
    i := |x| + k;
  }

  lemma SaysOn(t: string, x: string, u: string, z: string, rule: Rule)
    requires Around(t, x, u, z) && Says(u, rule)
    ensures Says(t, rule)
  {
    hide Around, Stands;
    match rule {
      case DropObject => DropObjectOn(t, x, u, z);
      case DropColumn => DropColumnOn(t, x, u, z);
      case Rename => var i := WordOn(t, x, u, z, "RENAME");
      case Truncate => var i := WordOn(t, x, u, z, "TRUNCATE");
    }
  }

  lemma NothingSaid(rule: Rule)
    ensures !Says("", rule)
  {
  }

  // ---- at any depth

  /** A statement of s begins with t. */
  ghost predicate StatementOf(s: string, t: string)
    decreases |s|
  {
    t == s || (Seg(CLEAN, s).Stop? && Seg(CLEAN, s).len < |s| && StatementOf(s[Seg(CLEAN, s).len + 1..], t))
  }

  /** b is s itself, or a text that is quoted in it, or in a text quoted in it, and so on; all of them split. */
  ghost predicate Inside(s: string, b: string)
    decreases |s|
  {
    && Split(s).Ok?
    && (b == s || exists t, p, tag, body ::
          |body| < |s| && StatementOf(s, t) && Quoted(t, p, tag, body) && Inside(body, b))
  }

  /** The code of a statement that says anything is among the codes of the text. */
  lemma {:induction false} StatementKept(s: string, t: string) returns (k: nat)
    requires Split(s).Ok? && StatementOf(s, t) && Seg(CLEAN, t).Stop? && !Blank(Seg(CLEAN, t).code)
    ensures k < |Split(s).value| && Split(s).value[k].code == Seg(CLEAN, t).code
    decreases |s|
  {
    hide Seg, Split;
    var n := SplitSegs(s);
    var first := Kept(s[..n], Seg(CLEAN, s).code);
    BlankStrip(Seg(CLEAN, s).code);
    if t == s {
      k := 0;
    } else {
      k := StatementKept(s[n + 1..], t);
      k := k + |first|;
    }
  }

  lemma SplitSegs(s: string) returns (n: nat)
    requires Split(s).Ok?
    ensures Seg(CLEAN, s).Stop? && n == Seg(CLEAN, s).len
    ensures n < |s| ==>
              Split(s[n + 1..]).Ok? && Split(s).value == Kept(s[..n], Seg(CLEAN, s).code) + Split(s[n + 1..]).value
    ensures n == |s| ==> Split(s).value == Kept(s[..n], Seg(CLEAN, s).code)
  {
    hide Seg, Strip;
    SplitIsSegs(s);
    n := Seg(CLEAN, s).len;
    SplitStep(s, n);
    if n == |s| { assert s[..n] == s; }
  }

  lemma SplitIsSegs(s: string)
    requires Split(s).Ok?
    ensures Seg(CLEAN, s).Stop? && var n := Seg(CLEAN, s).len; n < |s| ==> Split(s[n + 1..]).Ok?
  {
    hide Seg, Strip;
  }

  lemma {:induction false} StatementStops(s: string, t: string)
    requires Split(s).Ok? && StatementOf(s, t)
    ensures Seg(CLEAN, t).Stop?
    decreases |s|
  {
    hide Seg, Split;
    var n := SplitSegs(s);
    if t != s { StatementStops(s[n + 1..], t); }
  }

  /** What a statement inside a quoted text says, the statement that quotes it says. */
  lemma QuotedSays(s: string, t: string, p: nat, tag: string, body: string, k: nat, rule: Rule) returns (d: nat)
    requires Split(s).Ok? && StatementOf(s, t) && Quoted(t, p, tag, body)
    requires Split(body).Ok? && k < |Split(body).value| && Says(Normal(Split(body).value[k].code), rule)
    ensures d < |Split(s).value| && Says(Normal(Split(s).value[d].code), rule)
  {
    hide Seg, Split, Quoted, StatementOf, Says, Normal, Edge, Around;
    StatementStops(s, t);
    var c := Split(body).value[k].code;
    var x, z := InnerHeld(t, p, tag, body, k);
    NothingSaid(rule);
    var u, v := NormalHeld(x, c, z);
    var all := x + c + z;
    AroundIs(Normal(all), u, Normal(c), v);
    SaysOn(Normal(all), u, Normal(c), v, rule);
    NotBlank(all, rule);
    d := StatementKept(s, t);
  }

  lemma AroundIs(t: string, u: string, m: string, v: string)
    requires t == u + m + v && (u != "" ==> u[|u| - 1] == ' ')
    requires v != "" && (v[0] == ';' || (|v| >= 2 && v[0] == ' ' && v[1] in ";$"))
    ensures Around(t, u, m, v)
  {
  }

  lemma NotBlank(code: string, rule: Rule)
    requires Says(Normal(code), rule)
    ensures !Blank(code)
  {
    hide Says;
    if Blank(code) {
      UpperBlank(code);
      NoWords(code);
      NothingSaid(rule);
    }
  }

  /** Whatever a statement says in a text quoted at any depth, a statement of the file says. */
  lemma {:induction false} InnerIsSeen(s: string, b: string, k: nat, rule: Rule) returns (d: nat)
    requires Inside(s, b) && Split(b).Ok? && k < |Split(b).value| && Says(Normal(Split(b).value[k].code), rule)
    ensures d < |Split(s).value| && Says(Normal(Split(s).value[d].code), rule)
    decreases |s|
  {
    hide Split, Quoted, StatementOf, Says, Normal;
    if b == s {
      d := k;
    } else {
      var t, p, tag, body :| |body| < |s| && StatementOf(s, t) && Quoted(t, p, tag, body) && Inside(body, b);
      var e := InnerIsSeen(body, b, k, rule);
      d := QuotedSays(s, t, p, tag, body, e, rule);
    }
  }

  /** A destructive rule broken by a statement alone, in the file or in a text quoted in it at any depth, has the file
      refused unless destruction is allowed. */
  lemma {:induction false} InnerIsRefused(s: string, b: string, k: nat, rule: Rule, flags: Flags)
    requires Inside(s, b) && Split(b).Ok? && k < |Split(b).value| && Says(Normal(Split(b).value[k].code), rule)
    requires !flags.allowDestructive
    ensures Judge(s, flags).Refused?
  {
    hide Split, Says, Normal, Judge, OpensOrCloses, Names, Inside;
    var d := InnerIsSeen(s, b, k, rule);
    SplitOfInside(s, b);
    JudgedExactly(s, flags, flags);
    assert !Passes(Split(s).value[d].code, flags);
  }

  lemma SplitOfInside(s: string, b: string)
    requires Inside(s, b)
    ensures Split(s).Ok?
  {
  }

  /** RENAME, TRUNCATE or DROP and what is dropped, in any capitals, written outside comments and quotes in a statement
      of the file or of a text quoted in it at any depth, has the file refused unless destruction is allowed. */
  lemma WrittenIsRefused(s: string, b: string, t: string, p: nat, m: string, rule: Rule, flags: Flags)
    requires Inside(s, b) && Split(b).Ok? && StatementOf(b, t) && Written(t, p, m) && Spelled(m, rule)
    requires !flags.allowDestructive
    ensures Judge(s, flags).Refused?
  {
    hide Seg, Split, Says, Normal, Judge, Inside, StatementOf, Written, Spelled, Apart;
    StatementStops(b, t);
    var x, z := WrittenShown(t, p, m);
    SpelledSaid(x, m, z, rule);
    NotBlank(x + m + z, rule);
    var k := StatementKept(b, t);
    InnerIsRefused(s, b, k, rule, flags);
  }
}
