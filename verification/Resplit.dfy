// Splitting is stable: the statements of a text, joined with a semicolon on a line of its own, split
// into the same statements again.
module Resplit {
  import opened Wrappers
  import opened Chars
  import opened Lexer
  import opened Locality

  function Texts(statements: seq<Statement>): seq<string> {
    seq(|statements|, k requires 0 <= k < |statements| => statements[k].text)
  }

  const BETWEEN := "\n;\n"

  /** The same statements, with the same code up to white space around it. */
  ghost predicate SameStatements(a: seq<Statement>, b: seq<Statement>) {
    |a| == |b| && forall k :: 0 <= k < |a| ==> a[k].text == b[k].text && Strip(a[k].code) == Strip(b[k].code)
  }

  /** A segment with one more token before it. */
  function Extend(n: nat, shown: string, next: Segment): Segment {
    match next case Fail(e) => Fail(e) case Stop(m, code) => Stop(n + m, shown + code)
  }

  /** One step of Seg. */
  lemma SegStep(g: Glue, s: string, kind: Kind, n: nat)
    requires s != "" && Scan(g, s) == Token(kind, n)
    ensures Seg(g, s) == Extend(n, Shown(kind, s[..n]), Seg(After(g, s[..n]), s[n..]))
  {
    hide Scan, Shown, After;
  }

  /** SegStep for a text given as the token and what follows it. */
  lemma SegCons(g: Glue, a: string, r: string, kind: Kind)
    requires a != "" && Scan(g, a + r) == Token(kind, |a|)
    ensures Seg(g, a + r) == Extend(|a|, Shown(kind, a), Seg(After(g, a), r))
  {
    hide Scan, Shown, After, Seg, Extend;
    SegStep(g, a + r, kind, |a|);
    assert (a + r)[..|a|] == a && (a + r)[|a|..] == r;
  }

  /** A single space as the next token. */
  lemma SegSpace(g: Glue, c: string, r: string)
    requires |c| == 1 && IsSpace(c[0])
    ensures Seg(g, c + r) == Extend(1, c, Seg(CLEAN, r))
  {
    hide Scan, After, Seg, Extend;
    SpaceToken(g, c + r);
    assert (c + r)[..1] == c;
    SegCons(g, c, r, Other);
  }

  /** Space before a token is shown as it is and leaves the glue clean. */
  lemma {:induction false} SegLead(w: string, x: string)
    requires Blank(w)
    ensures Seg(CLEAN, w + x) == Extend(|w|, w, Seg(CLEAN, x))
  {
    hide Scan, Shown, After, Seg;
    if w == "" {
      assert w + x == x;
      var r := Seg(CLEAN, x);
      if r.Stop? { assert w + r.code == r.code; }
    } else {
      assert w + x == w[..1] + (w[1..] + x);
      SegSpace(CLEAN, w[..1], w[1..] + x);
      SegLead(w[1..], x);
      var r := Seg(CLEAN, x);
      if r.Stop? { assert w[..1] + (w[1..] + r.code) == w + r.code; }
    }
  }

  lemma SpaceToken(g: Glue, s: string)
    requires s != "" && IsSpace(s[0])
    ensures Scan(g, s) == Token(Other, 1) && After(g, s[..1]) == CLEAN
  {
    hide Find, CommentEnd, QuoteEnd, Tag;
    assert 2 <= |s| ==> s[0..2][0] == s[0];
  }

  /** What may stand after a statement that is read again: nothing, or the separator. */
  predicate Tail(z: string) { z == "" || (2 <= |z| && z[0] == '\n' && z[1] == ';') }

  function TailLen(z: string): nat { if z == "" then 0 else 1 }

  lemma SegTail(g: Glue, z: string)
    requires Tail(z)
    ensures Seg(g, z) == Stop(TailLen(z), z[..TailLen(z)]) && RStrip(z[..TailLen(z)]) == ""
  {
    hide Scan, Shown, After;
    if z != "" {
      assert z == z[..1] + z[1..];
      SegSpace(g, z[..1], z[1..]);
      SemiStop(CLEAN, z[1..]);
      assert z[..1] + "" == z[..1];
    }
    BlankStrip(z[..TailLen(z)]);
  }

  lemma SemiStop(g: Glue, s: string)
    requires s == "" || s[0] == ';'
    ensures Seg(g, s) == Stop(0, "")
  {
    hide Shown, After;
  }

  /** The last character of a token is a space only in a line comment and in a single space. */
  lemma TokenEnd(g: Glue, s: string)
    requires s != "" && Scan(g, s).Token?
    ensures var t := Scan(g, s);
            t.kind == LineComment || t == Token(Other, 1) || !IsSpace(s[t.len - 1])
    ensures Scan(g, s).kind == Other ==> Scan(g, s).len == 1
    ensures Scan(g, s).kind == LineComment ==> StartsAt(s, 0, "--") && Scan(g, s).len == Find(s, "\n", 0) >= 2
  {
    hide Find, CommentEnd, QuoteEnd, Tag, TagRun;
    if StartsAt(s, 0, "--") { LineLength(g, s); }
    else if s[0] == '$' && !g.ident && Tag(s).Some? {
      var n := Tag(s).value;
      var e := Find(s, s[..n], n);
      if e < |s| { assert s[e..e + n] == s[..n]; assert s[e + n - 1] == s[e..e + n][n - 1]; }
    }
  }

  /** The segment u, cut to what is left after stripping and followed by z instead of v, reads the same. */
  ghost predicate Trims(g: Glue, u: string, v: string, z: string) {
    var whole, cut := Seg(g, u + v), Seg(g, RStrip(u) + z);
    && whole.Stop? && cut.Stop?
    && cut.len == |RStrip(u)| + TailLen(z)
    && RStrip(cut.code) == RStrip(whole.code)
  }

  lemma {:induction false} SegTrim(g: Glue, u: string, v: string, z: string)
    requires Seg(g, u + v).Stop? && Seg(g, u + v).len == |u| && (v == "" || v[0] == ';') && Tail(z)
    ensures Trims(g, u, v, z)
    decreases |u|
  {
    hide Scan, Shown, After, Seg;
    if u == "" {
      assert RStrip(u) + z == z && u + v == v;
      SegTail(g, z);
      SemiStop(g, v);
    } else {
      SegHead(g, u + v);
      var t := Scan(g, u + v);
      var a, u' := u[..t.len], u[t.len..];
      assert u == a + u' && u + v == a + (u' + v);
      SegCons(g, a, u' + v, t.kind);
      SegTrim(After(g, a), u', v, z);
      if !Blank(u') || !IsSpace(a[|a| - 1]) {
        TrimKeep(g, a, u', v, z, t.kind);
      } else {
        TrimDrop(g, a, u', v, z, t.kind);
      }
    }
  }

  lemma SegHead(g: Glue, x: string)
    requires x != "" && Seg(g, x).Stop? && Seg(g, x).len > 0
    ensures Scan(g, x).Token? && Scan(g, x).len <= Seg(g, x).len
  {
    hide Scan, Shown, After;
  }

  /** The trimmed text still holds the whole first token. */
  lemma TrimKeep(g: Glue, a: string, u: string, v: string, z: string, kind: Kind)
    requires a != "" && Tail(z) && (v == "" || v[0] == ';')
    requires Scan(g, a + (u + v)) == Token(kind, |a|) && Trims(After(g, a), u, v, z)
    requires !Blank(u) || !IsSpace(a[|a| - 1])
    ensures Trims(g, a + u, v, z)
  {
    hide Scan, Shown, After, RStrip, Seg;
    var p := RStrip(u);
    RStripAppend(a, u);
    RStripStays(a);
    BlankStrip(u);
    assert RStrip(a + u) == a + p by { if Blank(u) { assert a + "" == a; } }
    TokenKept(g, a, u, v, z, kind);
    assert (a + p) + z == a + (p + z) && (a + u) + v == a + (u + v);
    SegCons(g, a, p + z, kind);
    SegCons(g, a, u + v, kind);
    SameEnd(Shown(kind, a), Seg(After(g, a), p + z).code, Seg(After(g, a), u + v).code);
  }

  lemma TokenKept(g: Glue, a: string, u: string, v: string, z: string, kind: Kind)
    requires a != "" && Tail(z) && (v == "" || v[0] == ';')
    requires Scan(g, a + (u + v)) == Token(kind, |a|)
    ensures Scan(g, a + (RStrip(u) + z)) == Token(kind, |a|)
  {
    hide Scan, RStrip, Alike;
    RStripParts(u);
    var p, w := RStrip(u), u[|RStrip(u)|..];
    assert u == p + w;
    assert a + (u + v) == (a + p) + (w + v);
    EdgeAlike(w, v, z);
    ScanSame(g, a + p, w + v, z);
    assert (a + p) + z == a + (p + z);
  }

  lemma RStripStays(a: string)
    requires a != ""
    ensures !IsSpace(a[|a| - 1]) ==> RStrip(a) == a
  {
  }

  lemma SameEnd(a: string, x: string, y: string)
    requires RStrip(x) == RStrip(y)
    ensures RStrip(a + x) == RStrip(a + y)
  {
    RStripAppend(a, x);
    RStripAppend(a, y);
    BlankStrip(x);
    BlankStrip(y);
  }

  /** What follows a stripped statement: white space or a semicolon in the text, z in the joined one. */
  lemma EdgeAlike(w: string, v: string, z: string)
    requires Blank(w) && (v == "" || v[0] == ';') && Tail(z)
    ensures Alike(w + v, z)
  {
    if w != "" { assert (w + v)[0] == w[0]; } else { assert w + v == v; }
  }

  /** The trimmed text ends inside the first token, or before it: nothing but blanks is lost. */
  lemma TrimDrop(g: Glue, a: string, u: string, v: string, z: string, kind: Kind)
    requires a != "" && Tail(z) && (v == "" || v[0] == ';')
    requires Scan(g, a + (u + v)) == Token(kind, |a|) && Trims(After(g, a), u, v, z)
    requires Blank(u) && IsSpace(a[|a| - 1])
    ensures Trims(g, a + u, v, z)
  {
    hide Scan, Shown, After, RStrip, Seg;
    var x, more := a + (u + v), Seg(After(g, a), u + v).code;
    BlankStrip(u);
    assert "" + z == z;
    SegTail(After(g, a), z);
    assert x[|a| - 1] == a[|a| - 1];
    TokenEnd(g, x);
    RStripAppend(a, u);
    SegCons(g, a, u + v, kind);
    assert (a + u) + v == x;
    RStripAppend(Shown(kind, a), more);
    BlankStrip(more);
    if kind == LineComment {
      CommentCut(g, x, a, z);
    } else {
      assert Blank(a);
      BlankStrip(a);
      SegTail(g, z);
    }
    ShownBlank(kind, a);
    BlankStrip(Shown(kind, a));
  }

  lemma ShownBlank(kind: Kind, a: string)
    requires a != "" && (kind == LineComment || (kind == Other && Blank(a)))
    ensures Blank(Shown(kind, a))
  {
  }

  /** A line comment without the blanks at its end is still a line comment. */
  lemma CommentCut(g: Glue, x: string, a: string, z: string)
    requires x != "" && Tail(z) && StartsAt(x, 0, "--") && |a| == Find(x, "\n", 0) && a == x[..|a|] && |a| >= 2
    ensures var p := RStrip(a); var r := Seg(g, p + z);
            r.Stop? && r.len == |p| + TailLen(z) && RStrip(r.code) == ""
  {
    hide Shown, After, Seg;
    var p := RStrip(a);
    RStripParts(a);
    assert a[0] == x[0..2][0] && a[1] == x[0..2][1];
    assert |p| >= 2 by {
      assert !IsSpace('-');
      assert forall k | |p| <= k < |a| :: a[k] == a[|p|..][k - |p|];
    }
    var y := p + z;
    assert y[0] == a[0] && y[1] == a[1];
    assert y[0..2] == "--";
    forall k | 0 <= k < |p| ensures !StartsAt(y, k, "\n") {
      assert !StartsAt(x, k, "\n");
      assert x[k..k + 1] == [x[k]] && y[k..k + 1] == [y[k]];
      assert y[k] == p[k] == a[k] == x[k];
    }
    if z != "" { assert y[|p|..|p| + 1] == [z[0]]; }
    FindIs(y, "\n", 0, |p|);
    LineLength(g, y);
    SegCons(g, p, z, LineComment);
    SegTail(After(g, p), z);
    ShownBlank(LineComment, p);
    RStripAppend(Shown(LineComment, p), z[..TailLen(z)]);
    BlankStrip(Shown(LineComment, p));
  }

  /** A whole segment, stripped, put between a blank start and z. */
  lemma SegAgain(u: string, v: string, w: string, z: string)
    requires Seg(CLEAN, u + v).Stop? && Seg(CLEAN, u + v).len == |u| && (v == "" || v[0] == ';')
    requires Tail(z) && Blank(w)
    ensures var p := Strip(u); var r := Seg(CLEAN, w + (p + z));
            r.Stop? && r.len == |w| + |p| + TailLen(z) && Strip(r.code) == Strip(Seg(CLEAN, u + v).code)
  {
    hide Seg, RStrip, LStrip;
    LStripParts(u);
    var l := LStrip(u);
    var lead := u[..|u| - |l|];
    assert u[|u| - |l|..] == l && u == lead + l;
    assert u + v == lead + (l + v);
    SegLead(lead, l + v);
    var c := Seg(CLEAN, l + v).code;
    SegTrim(CLEAN, l, v, z);
    SegLead(w, RStrip(l) + z);
    var d := Seg(CLEAN, RStrip(l) + z).code;
    StripSame(c, d);
    StripLead(lead, c);
    StripLead(w, d);
  }

  /** Split, one segment at a time. */
  lemma SplitStep(s: string, n: nat)
    requires Seg(CLEAN, s).Stop? && Seg(CLEAN, s).len == n
    ensures n < |s| && Split(s[n + 1..]).Ok?
            ==> Split(s) == Ok(Kept(s[..n], Seg(CLEAN, s).code) + Split(s[n + 1..]).value)
    ensures n < |s| && Split(s[n + 1..]).Err? ==> Split(s) == Split(s[n + 1..])
    ensures n == |s| ==> Split(s) == Ok(Kept(s, Seg(CLEAN, s).code))
  {
    hide Seg, Strip;
    if n == |s| {
      assert s[..n] == s;
      assert Kept(s, Seg(CLEAN, s).code) + [] == Kept(s, Seg(CLEAN, s).code);
    }
  }

  lemma BlankSplit(w: string)
    requires Blank(w)
    ensures Split(w) == Ok([])
  {
    assert w + "" == w;
    SegLead(w, "");
    assert Seg(CLEAN, w) == Stop(|w|, w);
    SplitStep(w, |w|);
    BlankStrip(w);
  }

  lemma TextsTail(statements: seq<Statement>)
    requires statements != []
    ensures Texts(statements)[0] == statements[0].text && Texts(statements)[1..] == Texts(statements[1..])
  {
  }

  /** The stability claim from any later segment on, where the joined text starts with w. */
  lemma {:induction false} ResplitFrom(s: string, w: string)
    requires Split(s).Ok? && Blank(w)
    ensures var again := Split(w + Join(BETWEEN, Texts(Split(s).value)));
            again.Ok? && SameStatements(Split(s).value, again.value)
    decreases |s|
  {
    hide Seg, Strip, Join, Split;
    assert Seg(CLEAN, s).Stop? by { SplitStops(s); }
    var n := Seg(CLEAN, s).len;
    SplitStep(s, n);
    if n < |s| {
      ResplitFrom(s[n + 1..], w);
      ResplitFrom(s[n + 1..], "\n");
    }
    ResplitHere(s, n, w);
  }

  lemma SplitStops(s: string)
    requires Split(s).Ok?
    ensures Seg(CLEAN, s).Stop?
    ensures var n := Seg(CLEAN, s).len; n < |s| ==> Split(s[n + 1..]).Ok?
  {
    hide Seg, Strip;
  }

  ghost function Rest(s: string, n: nat): seq<Statement>
    requires n <= |s|
  {
    if n == |s| then [] else match Split(s[n + 1..]) case Ok(v) => v case Err(_) => []
  }

  lemma ResplitHere(s: string, n: nat, w: string)
    requires Split(s).Ok? && Blank(w) && Seg(CLEAN, s).Stop? && Seg(CLEAN, s).len == n
    requires forall b | b == w || b == "\n" :: n < |s| ==>
      var again := Split(b + Join(BETWEEN, Texts(Rest(s, n)))); again.Ok? && SameStatements(Rest(s, n), again.value)
    ensures var again := Split(w + Join(BETWEEN, Texts(Split(s).value)));
            again.Ok? && SameStatements(Split(s).value, again.value)
  {
    hide Seg, Strip, Join, Split;
    var code, u, v := Seg(CLEAN, s).code, s[..n], s[n..];
    SplitStops(s);
    SplitStep(s, n);
    var rest := Rest(s, n);
    assert s == u + v;
    assert Split(s).value == Kept(u, code) + rest by {
      if n == |s| { assert u == s; assert Kept(s, code) + [] == Kept(s, code); }
    }
    if Strip(code) == "" {
      assert Kept(u, code) + rest == rest;
      if n == |s| {
        JoinNone();
        assert Texts(rest) == [] && w + "" == w;
        BlankSplit(w);
      }
    } else {
      var stmt := Statement(Strip(u), code);
      assert Kept(u, code) + rest == [stmt] + rest;
      ResplitKept(u, v, code, rest, w);
    }
  }

  lemma JoinNone()
    ensures Join(BETWEEN, []) == ""
  {
  }

  lemma JoinOne(p: string, more: seq<string>)
    ensures Join(BETWEEN, [p] + more) == if more == [] then p else p + ("\n;" + ("\n" + Join(BETWEEN, more)))
  {
    hide Join;
    assert ([p] + more)[1..] == more;
    JoinUnfold([p] + more);
    var j := Join(BETWEEN, more);
    assert BETWEEN == "\n;" + "\n";
    assert p + BETWEEN + j == p + ("\n;" + ("\n" + j));
  }

  lemma JoinUnfold(parts: seq<string>)
    requires parts != []
    ensures Join(BETWEEN, parts) == if |parts| == 1 then parts[0] else parts[0] + BETWEEN + Join(BETWEEN, parts[1..])
  {
  }

  /** ResplitFrom at the last statement that is kept. */
  lemma KeptLast(u: string, v: string, code: string, w: string)
    requires Blank(w) && (v == "" || v[0] == ';') && Seg(CLEAN, u + v) == Stop(|u|, code) && Strip(code) != ""
    ensures var again := Split(w + Strip(u)); again.Ok? && SameStatements([Statement(Strip(u), code)], again.value)
  {
    hide Seg, Strip, Split;
    var p := Strip(u);
    SegAgain(u, v, w, "");
    var t := w + p;
    assert p + "" == p && t == w + p + "";
    SplitStep(t, |t|);
    StripTwice(u);
    StripBetween(w, p, "");
  }

  /** ResplitFrom at a statement that is kept and has others after it; j is their joined text. */
  lemma KeptThen(u: string, v: string, code: string, w: string, j: string)
    requires Blank(w) && (v == "" || v[0] == ';') && Seg(CLEAN, u + v) == Stop(|u|, code) && Strip(code) != ""
    requires Split(j).Ok?
    ensures var again := Split(w + (Strip(u) + ("\n;" + j)));
            && again.Ok? && |again.value| == 1 + |Split(j).value| && again.value[1..] == Split(j).value
            && again.value[0].text == Strip(u) && Strip(again.value[0].code) == Strip(code)
  {
    hide Seg, Strip, Split;
    var p, z := Strip(u), "\n;" + j;
    SegAgain(u, v, w, z);
    var t, m := w + (p + z), |w| + |p| + 1;
    assert t[m + 1..] == j && t[..m] == w + p + "\n";
    SplitStep(t, m);
    StripTwice(u);
    StripBetween(w, p, "\n");
  }

  lemma ResplitKept(u: string, v: string, code: string, rest: seq<Statement>, w: string)
    requires Blank(w) && (v == "" || v[0] == ';') && Seg(CLEAN, u + v) == Stop(|u|, code) && Strip(code) != ""
    requires rest != [] ==>
      var again := Split("\n" + Join(BETWEEN, Texts(rest))); again.Ok? && SameStatements(rest, again.value)
    ensures var again := Split(w + Join(BETWEEN, Texts([Statement(Strip(u), code)] + rest)));
            again.Ok? && SameStatements([Statement(Strip(u), code)] + rest, again.value)
  {
    hide Seg, Strip, Join, Split;
    var all, p := [Statement(Strip(u), code)] + rest, Strip(u);
    assert all[1..] == rest;
    TextsTail(all);
    assert Texts(all) == [p] + Texts(rest);
    JoinOne(p, Texts(rest));
    if rest == [] {
      KeptLast(u, v, code, w);
      assert all == [Statement(p, code)];
    } else {
      var j := "\n" + Join(BETWEEN, Texts(rest));
      KeptThen(u, v, code, w, j);
      var again := Split(w + (p + ("\n;" + j))).value;
      assert again == [again[0]] + again[1..];
      SameCons(Statement(p, code), again[0], rest, again[1..]);
    }
  }

  lemma SameCons(a: Statement, b: Statement, xs: seq<Statement>, ys: seq<Statement>)
    requires a.text == b.text && Strip(a.code) == Strip(b.code) && SameStatements(xs, ys)
    ensures SameStatements([a] + xs, [b] + ys)
  {
    hide Strip;
  }

  /** Splitting is stable: for every text that splits, joining the statements with a semicolon on its own
      line and splitting again gives the same statement texts, with the same code up to white space. */
  lemma {:induction false} SplittingIsStable(s: string)
    requires Split(s).Ok?
    ensures var again := Split(Join(BETWEEN, Texts(Split(s).value)));
            again.Ok? && SameStatements(Split(s).value, again.value)
  {
    ResplitFrom(s, "");
    var j := Join(BETWEEN, Texts(Split(s).value));
    assert "" + j == j;
  }

  /** Every statement is one statement on its own: a file that runs outside a transaction is sent to the
      database statement by statement, and each one is read there as the splitter read it. */
  lemma {:induction false} EachIsOneStatement(s: string, k: nat)
    requires Split(s).Ok? && k < |Split(s).value|
    ensures var alone := Split(Split(s).value[k].text);
            alone.Ok? && SameStatements([Split(s).value[k]], alone.value)
    decreases |s|
  {
    hide Seg, Strip, Split;
    SplitStops(s);
    var n, code := Seg(CLEAN, s).len, Seg(CLEAN, s).code;
    SplitStep(s, n);
    assert s == s[..n] + s[n..];
    var first := Kept(s[..n], code);
    assert Split(s).value == first + Rest(s, n) by {
      if n == |s| { assert s[..n] == s && first + [] == first; }
    }
    if k < |first| {
      KeptLast(s[..n], s[n..], code, "");
      assert "" + Strip(s[..n]) == Strip(s[..n]);
    } else {
      EachIsOneStatement(s[n + 1..], k - |first|);
    }
  }
}
