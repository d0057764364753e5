// What the lexer of tools/migrate.py promises of single tokens: comments nest, and what is never closed is said so.
module Tokens {
  import opened Wrappers
  import opened Chars
  import opened Lexer

  // ---- comments in comments

  /** Text that neither opens nor closes a comment. */
  predicate Calm(x: string) { '/' !in x && '*' !in x }

  lemma {:induction false} CalmSkipped(s: string, j: nat, k: nat, depth: nat)
    requires j <= k <= |s| && Calm(s[j..k]) && depth > 0 && k < |s|
    ensures CommentEnd(s, j, depth) == CommentEnd(s, k, depth)
    decreases k - j
  {
    if j < k {
      assert s[j] == s[j..k][0];
      OneCalm(s, j, depth);
      assert s[j + 1..k] == s[j..k][1..];
      CalmSkipped(s, j + 1, k, depth);
    }
  }

  lemma OneCalm(s: string, j: nat, depth: nat)
    requires j < |s| && s[j] != '/' && s[j] != '*' && depth > 0
    ensures CommentEnd(s, j, depth) == CommentEnd(s, j + 1, depth)
  {
    assert j + 2 <= |s| ==> s[j..j + 2][0] == s[j];
  }

  /** A comment inside others ends where it ends by itself, and the others go on from there. */
  lemma {:induction false} InnerFirst(s: string, j: nat, depth: nat, e: nat, more: nat)
    requires CommentEnd(s, j, depth) == Some(e)
    ensures CommentEnd(s, j, depth + more) == CommentEnd(s, e, more)
    decreases |s| - j
  {
    hide CommentEnd;
    if depth > 0 {
      CommentStep(s, j, depth);
      CommentStep(s, j, depth + more);
      var (k, d) := CommentNext(s, j, depth);
      InnerFirst(s, k, d, e, more);
    } else {
      NoDepth(s, j);
    }
  }

  lemma NoDepth(s: string, j: nat)
    ensures CommentEnd(s, j, 0) == Some(j)
  {
  }

  /** Where one step in a comment comes to, and how deep. */
  function CommentNext(s: string, j: nat, depth: nat): (nat, nat)
    requires depth > 0
  {
    if StartsAt(s, j, "/*") then (j + 2, depth + 1)
    else if StartsAt(s, j, "*/") then (j + 2, depth - 1)
    else (j + 1, depth)
  }

  lemma CommentStep(s: string, j: nat, depth: nat)
    requires depth > 0 && (j < |s| || CommentEnd(s, j, depth).Some?)
    ensures j < |s| && var (k, d) := CommentNext(s, j, depth); CommentEnd(s, j, depth) == CommentEnd(s, k, d)
  {
  }

  /** The same comment in the middle of a text. */
  lemma {:induction false} CommentMoved(t: string, x: string, r: string, j: nat, depth: nat)
    requires CommentEnd(t, j, depth).Some? && j <= |t|
    ensures CommentEnd(x + t + r, |x| + j, depth) == Some(|x| + CommentEnd(t, j, depth).value)
    decreases |t| - j
  {
    hide CommentEnd, StartsAt;
    var s := x + t + r;
    if depth > 0 {
      CommentStep(t, j, depth);
      EndsAfter(t, j, depth);
      PartMoved(t, x, r, j, "/*");
      PartMoved(t, x, r, j, "*/");
      CommentStep(s, |x| + j, depth);
      var (k, d) := CommentNext(t, j, depth);
      CommentMoved(t, x, r, k, d);
    } else {
      NoDepth(t, j);
      NoDepth(s, |x| + j);
    }
  }

  lemma EndsAfter(t: string, j: nat, depth: nat)
    requires depth > 0 && CommentEnd(t, j, depth).Some?
    ensures j + 2 <= |t|
    ensures var (k, d) := CommentNext(t, j, depth); k <= |t|
  {
    hide CommentEnd;
  }

  lemma PartMoved(t: string, x: string, r: string, j: nat, part: string)
    requires j + |part| <= |t|
    ensures StartsAt(x + t + r, |x| + j, part) <==> StartsAt(t, j, part)
  {
    assert (x + t + r)[|x| + j..|x| + j + |part|] == t[j..j + |part|];
  }

  /** A text that is one comment. */
  predicate IsComment(t: string) { |t| >= 2 && t[0] == '/' && t[1] == '*' && CommentEnd(t, 2, 1) == Some(|t|) }

  lemma CommentIs(g: Glue, t: string, r: string)
    requires IsComment(t)
    ensures Scan(g, t + r) == Token(BlockComment, |t|)
  {
    hide Find, QuoteEnd, Tag, CommentEnd;
    var s := t + r;
    CommentMoved(t, "", r, 2, 1);
    assert "" + t + r == s;
    assert s[0..2][0] == '/' && s[0..2] == ['/', '*'];
  }

  /** A comment with a comment in it is one comment, and so on to any depth. */
  lemma CommentsNest(g: Glue, pre: string, inner: string, post: string, r: string)
    requires Calm(pre) && Calm(post) && IsComment(inner)
    ensures var t := "/*" + pre + inner + post + "*/"; IsComment(t) && Scan(g, t + r) == Token(BlockComment, |t|)
  {
    hide CommentEnd, Scan;
    var head, rest := "/*" + pre, post + "*/";
    NestedEnds(head, pre, inner, post, rest);
    var t := head + inner + rest;
    assert t == "/*" + pre + inner + post + "*/";
    CommentIs(g, t, r);
  }

  lemma NestedEnds(head: string, pre: string, inner: string, post: string, rest: string)
    requires Calm(pre) && Calm(post) && IsComment(inner)
    requires head == "/*" + pre && rest == post + "*/"
    ensures IsComment(head + inner + rest)
  {
    hide CommentEnd, Calm;
    var t, a, b := head + inner + rest, |head|, |head| + |inner|;
    NestSlices(head, pre, inner, post, rest);
    CommentMoved(inner, head, rest, 2, 1);
    NestChain(t, a, b, b + |post|);
  }

  lemma NestSlices(head: string, pre: string, inner: string, post: string, rest: string)
    requires head == "/*" + pre && rest == post + "*/" && |inner| >= 2
    ensures var t, a, b := head + inner + rest, |head|, |head| + |inner|;
            && a >= 2 && t[0] == '/' && t[1] == '*' && t[2..a] == pre && t[a] == inner[0] && t[a + 1] == inner[1]
            && t[b..b + |post|] == post && t[b + |post|..] == "*/" && b + |post| + 2 == |t|
  {
    var t, b := head + inner + rest, |head| + |inner|;
    assert t[b..] == rest;
    assert t[b..b + |post|] == rest[..|post|] && t[b + |post|..] == rest[|post|..];
  }

  lemma NestChain(t: string, a: nat, b: nat, c: nat)
    requires 2 <= a && a + 2 <= b <= c && c + 2 == |t| && t[0] == '/' && t[1] == '*' && t[c..] == "*/"
    requires Calm(t[2..a]) && Calm(t[b..c]) && t[a] == '/' && t[a + 1] == '*' && CommentEnd(t, a + 2, 1) == Some(b)
    ensures IsComment(t)
  {
    hide CommentEnd, Calm;
    CalmSkipped(t, 2, a, 1);
    Opened(t, a);
    InnerFirst(t, a + 2, 1, b, 1);
    CalmSkipped(t, b, c, 1);
    Closed(t, c);
  }

  lemma Opened(t: string, a: nat)
    requires a + 2 <= |t| && t[a] == '/' && t[a + 1] == '*'
    ensures CommentEnd(t, a, 1) == CommentEnd(t, a + 2, 2)
  {
    assert t[a..a + 2] == "/*";
  }

  lemma Closed(t: string, a: nat)
    requires a + 2 == |t| && t[a..] == "*/"
    ensures CommentEnd(t, a, 1) == Some(|t|)
  {
    assert t[a..a + 2] == "*/" && t[a] == '*';
  }

  // ---- what is never closed

  lemma {:induction false} NoQuote(s: string, j: nat, q: char)
    requires 0 < j <= |s| && forall k | j <= k < |s| :: s[k] != q
    ensures QuoteEnd(s, j, q, false).None?
    decreases |s| - j
  {
    if j < |s| { NoQuote(s, j + 1, q); }
  }

  lemma {:induction false} NoClose(s: string, j: nat, depth: nat)
    requires j <= |s| && depth > 0 && forall k | j <= k < |s| :: s[k] != '*'
    ensures CommentEnd(s, j, depth).None?
    decreases |s| - j
  {
    if j < |s| {
      assert j + 2 <= |s| ==> s[j..j + 2][0] == s[j] && s[j..j + 2][1] == s[j + 1];
      NoClose(s, j + 1, depth);
    }
  }

  lemma BadSplits(s: string)
    requires s != "" && Scan(CLEAN, s).Bad?
    ensures Split(s) == Err(Scan(CLEAN, s).error)
  {
    hide Scan;
  }

  /** A text, a name, a comment or a dollar quote that is opened and never closed, and a backslash outside quotes: each
      is an error of its own. */
  lemma NeverClosed(x: string, tag: string)
    ensures '\'' !in x ==> Split("'" + x) == Err(OpenText)
    ensures '"' !in x ==> Split("\"" + x) == Err(OpenName)
    ensures '*' !in x ==> Split("/*" + x) == Err(OpenComment)
    ensures Split("\\" + x) == Err(Backslash)
    ensures tag != "" && tag[0] == '$' && Tag(tag + x) == Some(|tag|) && Find(tag + x, tag, |tag|) == |tag + x| ==>
              Split(tag + x) == Err(OpenDollar)
  {
    hide Scan, Split, Tag, Find;
    OpenTextIs("'" + x, x);
    OpenNameIs("\"" + x, x);
    OpenCommentIs("/*" + x, x);
    BackslashIs("\\" + x);
    if tag != "" && tag[0] == '$' && Tag(tag + x) == Some(|tag|) && Find(tag + x, tag, |tag|) == |tag + x| {
      OpenDollarIs(tag + x, tag);
    }
  }

  lemma OpenTextIs(s: string, x: string)
    requires s == "'" + x
    ensures '\'' !in x ==> Split(s) == Err(OpenText)
  {
    hide Split;
    if '\'' !in x {
      assert forall k | 1 <= k < |s| :: s[k] == x[k - 1];
      NoQuote(s, 1, '\'');
      hide QuoteEnd, CommentEnd, Find, Tag;
      assert |s| >= 2 ==> s[0..2][0] == '\'';
      BadSplits(s);
    }
  }

  lemma OpenNameIs(s: string, x: string)
    requires s == "\"" + x
    ensures '"' !in x ==> Split(s) == Err(OpenName)
  {
    hide Split;
    if '"' !in x {
      assert forall k | 1 <= k < |s| :: s[k] == x[k - 1];
      NoQuote(s, 1, '"');
      hide QuoteEnd, CommentEnd, Find, Tag;
      assert |s| >= 2 ==> s[0..2][0] == '"';
      BadSplits(s);
    }
  }

  lemma OpenCommentIs(s: string, x: string)
    requires s == "/*" + x
    ensures '*' !in x ==> Split(s) == Err(OpenComment)
  {
    hide Split;
    if '*' !in x {
      assert forall k | 2 <= k < |s| :: s[k] == x[k - 2];
      NoClose(s, 2, 1);
      hide QuoteEnd, CommentEnd, Find, Tag;
      assert s[0..2] == "/*";
      BadSplits(s);
    }
  }

  lemma BackslashIs(s: string)
    requires s != "" && s[0] == '\\'
    ensures Split(s) == Err(Backslash)
  {
    hide Split, QuoteEnd, CommentEnd, Find, Tag;
    assert |s| >= 2 ==> s[0..2][0] == '\\';
    BadSplits(s);
  }

  lemma OpenDollarIs(s: string, tag: string)
    requires |tag| <= |s| && s[..|tag|] == tag && tag != "" && tag[0] == '$'
    requires Tag(s) == Some(|tag|) && Find(s, tag, |tag|) == |s|
    ensures Split(s) == Err(OpenDollar)
  {
    hide Split, QuoteEnd, CommentEnd, Find, Tag;
    assert s[0] == s[..|tag|][0] == '$';
    assert |s| >= 2 ==> s[0..2][0] == '$';
    BadSplits(s);
  }

  /** A dollar sign before a digit begins no quote. */
  lemma DigitOpensNothing(g: Glue, s: string)
    requires |s| >= 2 && s[0] == '$' && IsDigit(s[1])
    ensures Scan(g, s) == Token(Other, 1)
  {
    hide QuoteEnd, CommentEnd, Find, TagRun;
    assert s[0..2][0] == '$';
    RunOverDigit(s);
  }

  lemma RunOverDigit(s: string)
    requires |s| >= 2 && IsDigit(s[1])
    ensures TagRun(s, 1) > 1
  {
  }

  // ---- where a backslash escapes

  /** An E that stands alone lets a backslash keep a text open; an e that ends a longer word does not. */
  lemma OnlyALoneE(c: char, e: char)
    requires IdentChar(c) && (e == 'e' || e == 'E')
    ensures Scan(After(CLEAN, [e]), "'\\'") == Bad(OpenText)
    ensures Scan(After(CLEAN, [c, e]), "'\\'") == Token(Text, 3)
  {
    EscapedText(After(CLEAN, [e]), "'\\'");
    PlainText(After(CLEAN, [c, e]), "'\\'");
  }

  lemma EscapedText(g: Glue, s: string)
    requires g.escape && |s| == 3 && s[0] == '\'' && s[1] == '\\' && s[2] == '\''
    ensures Scan(g, s) == Bad(OpenText)
  {
    hide CommentEnd, Find, Tag;
    assert s[0..2][0] == '\'';
    assert QuoteEnd(s, 1, '\'', true) == QuoteEnd(s, 3, '\'', true) == None;
  }

  lemma PlainText(g: Glue, s: string)
    requires !g.escape && |s| == 3 && s[0] == '\'' && s[1] == '\\' && s[2] == '\''
    ensures Scan(g, s) == Token(Text, 3)
  {
    hide CommentEnd, Find, Tag;
    assert s[0..2][0] == '\'';
    assert QuoteEnd(s, 1, '\'', false) == QuoteEnd(s, 2, '\'', false) == Some(3);
  }
}
