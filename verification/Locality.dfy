// A token depends only on its own characters and on one character after it: where two texts agree on
// a stretch, a token inside that stretch is the same token in both.
module Locality {
  import opened Wrappers
  import opened Chars
  import opened Lexer

  /** Two continuations that no token ending before them can tell apart. */
  predicate Alike(xr: string, yr: string) {
    && (xr != "" ==> !TagChar(xr[0]))
    && (yr != "" ==> !TagChar(yr[0]))
    && (yr != "" && yr[0] in "'\"-*$" ==> xr != "" && xr[0] == yr[0])
  }

  lemma StartsSame(x: string, y: string, m: nat, j: nat, part: string)
    requires m <= |x| && m <= |y| && x[..m] == y[..m] && j + |part| <= m
    ensures StartsAt(x, j, part) == StartsAt(y, j, part)
  {
    assert x[j..j + |part|] == x[..m][j..j + |part|];
    assert y[j..j + |part|] == y[..m][j..j + |part|];
  }

  lemma {:induction false} CommentSame(x: string, y: string, m: nat, j: nat, depth: nat)
    requires m <= |x| && m <= |y| && x[..m] == y[..m]
    requires CommentEnd(x, j, depth).Some? && CommentEnd(x, j, depth).value <= m
    ensures CommentEnd(y, j, depth) == CommentEnd(x, j, depth)
    decreases |x| - j
  {
    if depth > 0 {
      StartsSame(x, y, m, j, "/*");
      StartsSame(x, y, m, j, "*/");
      if StartsAt(x, j, "/*") { CommentSame(x, y, m, j + 2, depth + 1); }
      else if StartsAt(x, j, "*/") { CommentSame(x, y, m, j + 2, depth - 1); }
      else { CommentSame(x, y, m, j + 1, depth); }
    }
  }

  lemma {:induction false} QuoteSame(p: string, xr: string, yr: string, j: nat, q: char, escapes: bool)
    requires Alike(xr, yr) && (q == '\'' || q == '"')
    requires QuoteEnd(p + xr, j, q, escapes).Some? && QuoteEnd(p + xr, j, q, escapes).value <= |p|
    ensures QuoteEnd(p + yr, j, q, escapes) == QuoteEnd(p + xr, j, q, escapes)
    decreases |p + xr| - j
  {
    var x, y := p + xr, p + yr;
    assert x[j] == y[j] == p[j];
    if escapes && x[j] == '\\' {
      QuoteSame(p, xr, yr, j + 2, q, escapes);
    } else if x[j] == q {
      if j + 1 < |p| { assert x[j + 1] == y[j + 1] == p[j + 1]; }
      if j + 1 < |x| && x[j + 1] == q { QuoteSame(p, xr, yr, j + 2, q, escapes); }
    } else {
      QuoteSame(p, xr, yr, j + 1, q, escapes);
    }
  }

  lemma FindSame(x: string, y: string, m: nat, part: string, from: nat)
    requires m <= |x| && m <= |y| && x[..m] == y[..m] && part != "" && from <= m
    requires Find(x, part, from) + |part| <= m
    ensures Find(y, part, from) == Find(x, part, from)
  {
    var e := Find(x, part, from);
    forall k | from <= k <= e ensures StartsAt(x, k, part) == StartsAt(y, k, part) {
      StartsSame(x, y, m, k, part);
    }
    FindIs(y, part, from, e);
  }

  lemma {:induction false} RunSame(p: string, xr: string, yr: string, j: nat)
    requires j <= |p| && Alike(xr, yr)
    ensures TagRun(p + yr, j) == TagRun(p + xr, j) <= |p|
    decreases |p| - j
  {
    if j < |p| {
      assert (p + xr)[j] == (p + yr)[j] == p[j];
      if TagChar(p[j]) { RunSame(p, xr, yr, j + 1); }
    } else {
      if xr != "" { assert (p + xr)[j] == xr[0]; }
      if yr != "" { assert (p + yr)[j] == yr[0]; }
    }
  }

  /** The opener of a dollar quote: the same, except that the longer text may have one ending just outside. */
  lemma TagSame(p: string, xr: string, yr: string)
    requires Alike(xr, yr) && p != "" && p[0] == '$'
    ensures Tag(p + xr).None? ==> Tag(p + yr).None?
    ensures Tag(p + xr).Some? && Tag(p + xr).value <= |p| ==> Tag(p + yr) == Tag(p + xr)
  {
    RunSame(p, xr, yr, 1);
    var j := TagRun(p + xr, 1);
    if j < |p| { assert (p + xr)[j] == (p + yr)[j] == p[j]; }
    if 1 < |p| { assert (p + xr)[1] == (p + yr)[1] == p[1]; }
    if j == |p| && yr != "" { assert (p + yr)[j] == yr[0]; }
    if j == |p| && xr != "" { assert (p + xr)[j] == xr[0]; }
  }

  /** A line comment in both texts. */
  lemma LineSame(p: string, xr: string, yr: string)
    requires StartsAt(p, 0, "--")
    requires Find(p + xr, "\n", 0) <= |p|
    requires Find(p + xr, "\n", 0) == |p| ==> yr == "" || yr[0] == '\n'
    ensures Find(p + yr, "\n", 0) == Find(p + xr, "\n", 0)
  {
    hide Find;
    var x, y := p + xr, p + yr;
    var e := Find(x, "\n", 0);
    assert x[..|p|] == y[..|p|] == p;
    if e < |p| {
      FindSame(x, y, |p|, "\n", 0);
    } else {
      forall k | 0 <= k < |p| ensures !StartsAt(y, k, "\n") {
        StartsSame(x, y, |p|, k, "\n");
      }
      FindIs(y, "\n", 0, |p|);
    }
  }

  /** What a token that starts with neither comment opener is, by its first character. */
  lemma HeadSame(p: string, xr: string, yr: string)
    requires p != "" && Alike(xr, yr)
    ensures !StartsAt(p + xr, 0, "--") ==> !StartsAt(p + yr, 0, "--")
    ensures !StartsAt(p + xr, 0, "/*") ==> !StartsAt(p + yr, 0, "/*")
    ensures StartsAt(p + xr, 0, "--") && |p| >= 2 ==> StartsAt(p, 0, "--") && StartsAt(p + yr, 0, "--")
    ensures StartsAt(p + xr, 0, "/*") && |p| >= 2 ==> StartsAt(p + yr, 0, "/*")
  {
    var x, y := p + xr, p + yr;
    assert x[0] == y[0] == p[0];
    assert x[..|p|] == y[..|p|] == p;
    if |p| >= 2 {
      StartsSame(x, y, |p|, 0, "--");
      StartsSame(x, p, |p|, 0, "--");
      StartsSame(x, y, |p|, 0, "/*");
    } else if yr != "" {
      assert y[0..2] == [p[0], yr[0]];
      if xr != "" { assert x[0..2] == [p[0], xr[0]]; }
    }
  }

  /** Locality: a token inside p is the same token whichever of two alike continuations follows p. */
  lemma ScanSame(g: Glue, p: string, xr: string, yr: string)
    requires p != "" && Alike(xr, yr)
    requires Scan(g, p + xr).Token? && Scan(g, p + xr).len <= |p|
    requires Scan(g, p + xr) == Token(LineComment, |p|) ==> yr == "" || yr[0] == '\n'
    ensures Scan(g, p + yr) == Scan(g, p + xr)
  {
    hide Find, CommentEnd, QuoteEnd, Tag, StartsAt, Alike;
    var x, y := p + xr, p + yr;
    var k, n := Scan(g, x).kind, Scan(g, x).len;
    assert x[0] == y[0] == p[0];
    assert x[..|p|] == y[..|p|] == p;
    HeadSame(p, xr, yr);
    if StartsAt(x, 0, "--") {
      LineLength(g, x);
      LineSame(p, xr, yr);
    } else if StartsAt(x, 0, "/*") {
      CommentSame(x, y, |p|, 2, 1);
    } else if x[0] == '\'' {
      QuoteSame(p, xr, yr, 1, '\'', g.escape);
    } else if x[0] == '"' {
      QuoteSame(p, xr, yr, 1, '"', false);
    } else if x[0] == '$' && !g.ident {
      TagSame(p, xr, yr);
      if Tag(x).Some? {
        var t := Tag(x).value;
        assert x[..t] == p[..t] == y[..t];
        FindSame(x, y, |p|, x[..t], t);
      }
    }
  }

  lemma LineLength(g: Glue, s: string)
    requires StartsAt(s, 0, "--")
    ensures Scan(g, s) == Token(LineComment, Find(s, "\n", 0)) && Find(s, "\n", 0) >= 2
  {
    assert s[0..2] == "--";
    assert s[0] == s[0..2][0] && s[1] == s[0..2][1];
  }
}
