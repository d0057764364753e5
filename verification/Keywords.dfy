// The text the keyword checks look at, and what it keeps of a statement's code: upper case, with every run of
// white space as one space and none at the ends.
module Keywords {
  import opened Wrappers
  import opened Chars
  import opened Lexer
  import opened CheckFile

  function Squeeze(s: string): string { Join(" ", Words(s)) }

  // ---- words of a text in two parts

  lemma {:induction false} RunJoin(l: string, b: string)
    ensures WordRun(l + b) == if WordRun(l) < |l| then WordRun(l) else |l| + WordRun(b)
  {
    if l == "" {
      assert l + b == b;
    } else {
      assert (l + b)[0] == l[0] && (l + b)[1..] == l[1..] + b;
      RunJoin(l[1..], b);
    }
  }

  lemma {:induction false} RunIs(l: string)
    ensures WordRun(l) < |l| ==> IsSpace(l[WordRun(l)])
    ensures forall k | 0 <= k < WordRun(l) :: !IsSpace(l[k])
  {
    if l != "" && !IsSpace(l[0]) {
      RunIs(l[1..]);
      forall k | 0 <= k < WordRun(l) ensures !IsSpace(l[k]) { if k > 0 { assert l[k] == l[1..][k - 1]; } }
    }
  }

  lemma NoWords(s: string)
    ensures Words(s) == [] <==> Blank(s)
  {
    BlankStrip(s);
  }

  lemma WordsAre(s: string)
    requires s != "" && !IsSpace(s[0])
    ensures WordRun(s) > 0 && Words(s) == [s[..WordRun(s)]] + Words(s[WordRun(s)..])
  {
    assert LStrip(s) == s;
    LStripShorter(s);
  }

  /** A text is cut at white space: the words are those before and those after. */
  lemma {:induction false} WordsCut(a: string, b: string)
    requires b == "" || IsSpace(b[0])
    ensures Words(a + b) == Words(a) + Words(b)
    decreases |a|, 1
  {
    hide Words;
    LStripParts(a);
    var l := LStrip(a);
    var w := a[..|a| - |l|];
    assert a == w + l && a + b == w + (l + b);
    WordsLead(w, l);
    WordsLead(w, l + b);
    if l == "" {
      assert l + b == b;
      NoWords(l);
      assert [] + Words(b) == Words(b);
    } else {
      CutHere(l, b);
    }
  }

  lemma {:induction false} CutHere(l: string, b: string)
    requires l != "" && !IsSpace(l[0]) && (b == "" || IsSpace(b[0]))
    ensures Words(l + b) == Words(l) + Words(b)
    decreases |l|, 0
  {
    hide Words;
    var n := WordRun(l);
    RunJoin(l, b);
    NoRun(b);
    WordsAre(l);
    assert (l + b)[0] == l[0];
    WordsAre(l + b);
    assert (l + b)[..n] == l[..n] && (l + b)[n..] == l[n..] + b;
    WordsCut(l[n..], b);
    assert [l[..n]] + (Words(l[n..]) + Words(b)) == ([l[..n]] + Words(l[n..])) + Words(b);
  }

  lemma NoRun(b: string)
    requires b == "" || IsSpace(b[0])
    ensures WordRun(b) == 0
  {
  }

  ghost predicate Glued(a: string, b: string) {
    var x, y := Words(a), Words(b);
    x != [] && y != [] && Words(a + b) == x[..|x| - 1] + [x[|x| - 1] + y[0]] + y[1..]
  }

  /** A text is cut inside a word: the last word before and the first after are one. */
  lemma {:induction false} WordsGlued(a: string, b: string)
    requires a != "" && !IsSpace(a[|a| - 1]) && b != "" && !IsSpace(b[0])
    ensures Glued(a, b)
    decreases |a|, 1
  {
    hide Words, Glued;
    LStripParts(a);
    LStripAppend(a, b);
    var l := LStrip(a);
    var w := a[..|a| - |l|];
    assert a == w + l && a + b == w + (l + b);
    WordsLead(w, l);
    WordsLead(w, l + b);
    assert l == "" ==> w == a;
    assert l[|l| - 1] == a[|a| - 1];
    GluedHere(l, b);
    SameGlued(a, l, b);
  }

  lemma SameGlued(a: string, l: string, b: string)
    requires Words(a) == Words(l) && Words(a + b) == Words(l + b)
    ensures Glued(a, b) <==> Glued(l, b)
  {
    hide Words;
  }

  lemma {:induction false} GluedHere(l: string, b: string)
    requires l != "" && !IsSpace(l[0]) && !IsSpace(l[|l| - 1]) && b != "" && !IsSpace(b[0])
    ensures Glued(l, b)
    decreases |l|, 0
  {
    hide Words, Glued;
    var n := WordRun(l);
    RunJoin(l, b);
    RunIs(l);
    WordsAre(l);
    assert (l + b)[0] == l[0];
    WordsAre(l + b);
    if n < |l| {
      assert (l + b)[..n] == l[..n] && (l + b)[n..] == l[n..] + b;
      assert l[n..][|l| - n - 1] == l[|l| - 1];
      WordsGlued(l[n..], b);
      GluedFirst(l, l[..n], l[n..], b);
    } else {
      GluedWord(l, b);
    }
  }

  lemma GluedFirst(l: string, first: string, more: string, b: string)
    requires Words(l) == [first] + Words(more) && Words(l + b) == [first] + Words(more + b) && Glued(more, b)
    ensures Glued(l, b)
  {
    hide Words;
    FirstApart(first, Words(more), Words(b));
  }

  lemma GluedWord(l: string, b: string)
    requires l != "" && !IsSpace(l[0]) && b != "" && !IsSpace(b[0]) && WordRun(l) == |l|
    ensures Glued(l, b)
  {
    hide Words, Glued;
    WholeWord(l);
    WordsAre(b);
    JoinedWord(l, b);
    var m := WordRun(b);
    OneGlued(l, b, b[..m], Words(b[m..]));
  }

  lemma WholeWord(l: string)
    requires l != "" && !IsSpace(l[0]) && WordRun(l) == |l|
    ensures Words(l) == [l]
  {
    hide Words;
    WordsAre(l);
    assert l[..|l|] == l && l[|l|..] == "";
    NoWords(l[|l|..]);
  }

  lemma JoinedWord(l: string, b: string)
    requires l != "" && !IsSpace(l[0]) && b != "" && !IsSpace(b[0]) && WordRun(l) == |l|
    ensures var m := WordRun(b); m > 0 && Words(l + b) == [l + b[..m]] + Words(b[m..])
  {
    hide Words;
    var n, m := |l|, WordRun(b);
    WordsAre(b);
    RunJoin(l, b);
    assert (l + b)[0] == l[0];
    WordsAre(l + b);
    assert (l + b)[..n + m] == l + b[..m] && (l + b)[n + m..] == b[m..];
  }

  lemma OneGlued(l: string, b: string, first: string, more: seq<string>)
    requires Words(l) == [l] && Words(b) == [first] + more && Words(l + b) == [l + first] + more
    ensures Glued(l, b)
  {
    hide Words;
    assert Words(b)[1..] == more && Words(l)[..0] == [];
  }

  lemma FirstApart(first: string, x: seq<string>, y: seq<string>)
    requires x != [] && y != []
    ensures var all := [first] + x;
            [first] + (x[..|x| - 1] + [x[|x| - 1] + y[0]] + y[1..])
                == all[..|all| - 1] + [all[|all| - 1] + y[0]] + y[1..]
  {
    var all := [first] + x;
    assert all[..|all| - 1] == [first] + x[..|x| - 1];
  }

  lemma {:induction false} JoinCut(x: seq<string>, y: seq<string>)
    requires x != [] && y != []
    ensures Join(" ", x + y) == Join(" ", x) + " " + Join(" ", y)
  {
    if |x| == 1 {
      assert (x + y)[1..] == y;
    } else {
      assert (x + y)[1..] == x[1..] + y;
      JoinCut(x[1..], y);
      assert x[0] + " " + (Join(" ", x[1..]) + " " + Join(" ", y))
          == (x[0] + " " + Join(" ", x[1..])) + " " + Join(" ", y);
    }
  }

  lemma {:induction false} JoinGlued(x: seq<string>, y: seq<string>)
    requires x != [] && y != []
    ensures Join(" ", x[..|x| - 1] + [x[|x| - 1] + y[0]] + y[1..]) == Join(" ", x) + Join(" ", y)
  {
    var all := x[..|x| - 1] + [x[|x| - 1] + y[0]] + y[1..];
    if |x| == 1 {
      assert all[1..] == y[1..] && all[0] == x[0] + y[0];
      if |y| > 1 {
        assert (x[0] + y[0]) + " " + Join(" ", y[1..]) == x[0] + (y[0] + " " + Join(" ", y[1..]));
      }
    } else {
      var t := x[1..];
      assert all[0] == x[0] && all[1..] == t[..|t| - 1] + [t[|t| - 1] + y[0]] + y[1..];
      JoinGlued(t, y);
      assert x[0] + " " + (Join(" ", t) + Join(" ", y)) == (x[0] + " " + Join(" ", t)) + Join(" ", y);
    }
  }

  // ---- a squeezed text in three parts

  /** What stands before, up to a space if there is white space between. */
  function Before(x: string): string {
    if Blank(x) then "" else Squeeze(x) + if IsSpace(x[|x| - 1]) then " " else ""
  }

  function Behind(z: string): string {
    if Blank(z) then "" else (if IsSpace(z[0]) then " " else "") + Squeeze(z)
  }

  lemma SqueezeJoin(a: string, b: string)
    requires b != "" && !IsSpace(b[0])
    ensures Squeeze(a + b) == Before(a) + Squeeze(b)
  {
    hide Words;
    NoWords(a);
    NoWords(b);
    if Blank(a) {
      WordsLead(a, b);
    } else if IsSpace(a[|a| - 1]) {
      var t := RStrip(a);
      RStripParts(a);
      var w := a[|t|..];
      BlankStrip(a);
      assert a == t + w && a + b == t + (w + b);
      NoWords(t);
      NoWords(w);
      WordsCut(t, w);
      assert w[|w| - 1] == a[|a| - 1];
      assert (w + b)[0] == w[0];
      WordsCut(t, w + b);
      WordsLead(w, b);
      assert Words(t) + [] == Words(t);
      JoinCut(Words(t), Words(b));
    } else {
      WordsGlued(a, b);
      JoinGlued(Words(a), Words(b));
    }
  }

  lemma SqueezeEnds(b: string)
    requires b != "" && !IsSpace(b[0])
    ensures Squeeze(b) != "" && Squeeze(b)[0] == b[0]
    ensures !IsSpace(b[|b| - 1]) ==> Squeeze(b)[|Squeeze(b)| - 1] == b[|b| - 1]
  {
    hide Words;
    WordsAre(b);
    if !IsSpace(b[|b| - 1]) {
      var n := |b| - 1;
      assert b == b[..n] + b[n..];
      SqueezeJoin(b[..n], b[n..]);
      OneWord(b[n..]);
    }
  }

  lemma OneWord(c: string)
    requires |c| == 1 && !IsSpace(c[0])
    ensures Squeeze(c) == c
  {
    WordsAre(c);
    RunIs(c);
    NoWords(c[1..]);
  }

  lemma SqueezeTail(m: string, z: string)
    requires m != "" && !IsSpace(m[|m| - 1])
    ensures Squeeze(m + z) == Squeeze(m) + Behind(z)
  {
    hide Words;
    NoWords(m);
    NoWords(z);
    if Blank(z) {
      if z != "" { WordsCut(m, z); }
      assert z == "" ==> m + z == m;
      assert Words(m) + [] == Words(m);
      assert Squeeze(m) + "" == Squeeze(m);
    } else if IsSpace(z[0]) {
      WordsCut(m, z);
      JoinCut(Words(m), Words(z));
    } else {
      WordsGlued(m, z);
      JoinGlued(Words(m), Words(z));
    }
  }

  /** A part that begins and ends with no white space keeps its place. */
  lemma SqueezeParts(x: string, m: string, z: string)
    requires m != "" && !IsSpace(m[0]) && !IsSpace(m[|m| - 1])
    ensures Squeeze(x + m + z) == Before(x) + Squeeze(m) + Behind(z)
  {
    hide Squeeze, Before, Behind;
    assert x + m + z == x + (m + z) && (m + z)[0] == m[0];
    SqueezeJoin(x, m + z);
    SqueezeTail(m, z);
    assert Before(x) + (Squeeze(m) + Behind(z)) == Before(x) + Squeeze(m) + Behind(z);
  }

  lemma BeforeEnd(x: string)
    ensures Before(x) != "" ==> x != "" && Before(x)[|Before(x)| - 1] == if IsSpace(x[|x| - 1]) then ' ' else x[|x| - 1]
  {
    hide Words;
    if !Blank(x) && !IsSpace(x[|x| - 1]) {
      var n := |x| - 1;
      assert x == x[..n] + x[n..];
      SqueezeJoin(x[..n], x[n..]);
      OneWord(x[n..]);
      assert Before(x) == Squeeze(x) + "" == Squeeze(x);
    }
  }

  lemma BehindStart(z: string)
    ensures !Blank(z) ==> Behind(z) != ""
    ensures Behind(z) != "" ==> z != "" && Behind(z)[0] == if IsSpace(z[0]) then ' ' else z[0]
    ensures Behind(z) != "" && IsSpace(z[0]) ==>
              LStrip(z) != "" && |Behind(z)| >= 2 && Behind(z)[1] == LStrip(z)[0] && !IsSpace(LStrip(z)[0])
  {
    hide Words;
    if !Blank(z) {
      BlankStrip(z);
      LStripParts(z);
      var l := LStrip(z);
      var w := z[..|z| - |l|];
      assert z == w + l;
      WordsLead(w, l);
      SqueezeEnds(l);
    }
  }
}
