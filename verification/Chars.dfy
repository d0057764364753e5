// The character classes and string helpers of Python that the lexers use.
module Chars {

  // Which characters outside ASCII are letters or digits is left open: nothing below depends on it.
  const OTHER_ALNUM: set<char>

  /** Python's str.isspace, for one character. */
  predicate IsSpace(c: char) {
    var n := c as int;
    || 9 <= n <= 13 || 28 <= n <= 32 || n == 0x85 || n == 0xA0 || n == 0x1680
    || 0x2000 <= n <= 0x200A || n == 0x2028 || n == 0x2029 || n == 0x202F || n == 0x205F || n == 0x3000
  }

  predicate IsDigit(c: char) { '0' <= c <= '9' }

  predicate IsLetter(c: char) { 'a' <= c <= 'z' || 'A' <= c <= 'Z' }

  /** Python's str.isalnum, for one character. */
  predicate IsAlnum(c: char) {
    IsDigit(c) || IsLetter(c) || (128 <= c as int && c in OTHER_ALNUM && !IsSpace(c))
  }

  predicate Blank(s: string) { forall k :: 0 <= k < |s| ==> IsSpace(s[k]) }

  /** Python's str.lstrip. */
  function LStrip(s: string): string {
    if s != "" && IsSpace(s[0]) then LStrip(s[1..]) else s
  }

  /** Python's str.rstrip. */
  function RStrip(s: string): string {
    if s != "" && IsSpace(s[|s| - 1]) then RStrip(s[..|s| - 1]) else s
  }

  /** Python's str.strip. */
  function Strip(s: string): (r: string) { RStrip(LStrip(s)) }

  function Spaces(n: nat): string { seq(n, _ => ' ') }

  /** Python's separator.join(parts). */
  function Join(separator: string, parts: seq<string>): string {
    if |parts| == 0 then ""
    else if |parts| == 1 then parts[0]
    else parts[0] + separator + Join(separator, parts[1..])
  }

  predicate StartsAt(s: string, i: nat, part: string) {
    i + |part| <= |s| && s[i..i + |part|] == part
  }

  /** Python's s.find(part, from), with |s| for "not there" when part is not empty. */
  function Find(s: string, part: string, from: nat): (e: nat)
    requires part != "" && from <= |s|
    ensures from <= e <= |s|
    ensures e < |s| ==> StartsAt(s, e, part)
    ensures forall k :: from <= k < e ==> !StartsAt(s, k, part)
    decreases |s| - from
  {
    if from == |s| || StartsAt(s, from, part) then from else Find(s, part, from + 1)
  }

  /** A position that holds the part, with none before it, is what Find returns. */
  lemma {:induction false} FindIs(s: string, part: string, from: nat, e: nat)
    requires part != "" && from <= e <= |s|
    requires e == |s| || StartsAt(s, e, part)
    requires forall k :: from <= k < e ==> !StartsAt(s, k, part)
    ensures Find(s, part, from) == e
    decreases e - from
  {
    if from < e {
      assert !StartsAt(s, from, part);
      FindIs(s, part, from + 1, e);
    }
  }

  // ---- stripping

  /** LStrip cuts a blank prefix, and what is left starts with no space. */
  lemma {:induction false} LStripParts(s: string)
    ensures |LStrip(s)| <= |s| && s[|s| - |LStrip(s)|..] == LStrip(s) && Blank(s[..|s| - |LStrip(s)|])
    ensures LStrip(s) != "" ==> !IsSpace(LStrip(s)[0])
  {
    if s != "" && IsSpace(s[0]) {
      LStripParts(s[1..]);
      var n := |s| - |LStrip(s)|;
      assert s[..n] == [s[0]] + s[1..][..n - 1];
    }
  }

  /** RStrip cuts a blank suffix, and what is left ends with no space. */
  lemma {:induction false} RStripParts(s: string)
    ensures |RStrip(s)| <= |s| && s[..|RStrip(s)|] == RStrip(s) && Blank(s[|RStrip(s)|..])
    ensures RStrip(s) != "" ==> !IsSpace(RStrip(s)[|RStrip(s)| - 1])
  {
    if s != "" && IsSpace(s[|s| - 1]) {
      var t := s[..|s| - 1];
      RStripParts(t);
      assert s[|RStrip(s)|..] == t[|RStrip(s)|..] + [s[|s| - 1]];
    }
  }

  lemma {:induction false} LStripAppend(a: string, x: string)
    ensures LStrip(a + x) == if Blank(a) then LStrip(x) else LStrip(a) + x
  {
    if a == "" {
      assert a + x == x;
    } else {
      assert (a + x)[1..] == a[1..] + x;
      assert a == [a[0]] + a[1..];
      if IsSpace(a[0]) {
        LStripAppend(a[1..], x);
        assert Blank(a) == Blank(a[1..]);
      }
    }
  }

  lemma {:induction false} RStripAppend(a: string, x: string)
    ensures RStrip(a + x) == if Blank(x) then RStrip(a) else a + RStrip(x)
  {
    if x == "" {
      assert a + x == a;
    } else {
      var y := x[..|x| - 1];
      assert (a + x)[..|a + x| - 1] == a + y;
      assert x == y + [x[|x| - 1]];
      if IsSpace(x[|x| - 1]) {
        RStripAppend(a, y);
        assert Blank(x) == Blank(y);
      }
    }
  }

  lemma BlankStrip(s: string)
    ensures Blank(s) <==> LStrip(s) == ""
    ensures Blank(s) <==> RStrip(s) == ""
    ensures Blank(s) <==> Strip(s) == ""
  {
    LStripParts(s);
    RStripParts(s);
    LStripAppend(s, "");
    RStripAppend("", s);
    assert s + "" == s && "" + s == s;
    var l := LStrip(s);
    RStripAppend("", l);
    assert "" + l == l;
  }

  lemma {:induction false} StripOfRStrip(x: string)
    ensures Strip(RStrip(x)) == Strip(x)
  {
    RStripParts(x);
    var r := RStrip(x);
    var w := x[|r|..];
    assert x == r + w;
    LStripAppend(r, w);
    BlankStrip(r);
    BlankStrip(w);
    RStripAppend(LStrip(r), w);
    RStripAppend(LStrip(w), "");
  }

  lemma StripLead(w: string, x: string)
    requires Blank(w)
    ensures Strip(w + x) == Strip(x)
  {
    LStripAppend(w, x);
  }

  lemma StripSame(x: string, y: string)
    requires RStrip(x) == RStrip(y)
    ensures Strip(x) == Strip(y)
  {
    StripOfRStrip(x);
    StripOfRStrip(y);
  }

  /** Blanks around a text do not change what it strips to. */
  lemma StripBetween(w: string, x: string, v: string)
    requires Blank(w) && Blank(v)
    ensures Strip(w + x + v) == Strip(x)
  {
    assert w + x + v == w + (x + v);
    StripLead(w, x + v);
    RStripAppend(x, v);
    StripSame(x + v, x);
  }

  lemma StripTwice(x: string)
    ensures Strip(Strip(x)) == Strip(x)
    ensures Strip(x) != "" ==> !IsSpace(Strip(x)[0]) && !IsSpace(Strip(x)[|Strip(x)| - 1])
  {
    LStripParts(x);
    RStripParts(LStrip(x));
  }
}
