// tools/seed_texts.py: the SQL it prints, and that the lexer of tools/migrate.py reads it back.
module SeedTexts {
  import opened Wrappers
  import opened Chars
  import opened Lexer
  import opened Locality
  import opened Resplit

  // ---- numbers as text

  function Digit(d: nat): char
    requires d < 10
  {
    '0' + d as char
  }

  function Digits(n: nat): (s: string)
    ensures s != "" && forall k | 0 <= k < |s| :: IsDigit(s[k])
  {
    if n < 10 then [Digit(n)] else Digits(n / 10) + [Digit(n % 10)]
  }

  function Value(s: string): nat
    requires forall k | 0 <= k < |s| :: IsDigit(s[k])
  {
    if s == "" then 0
    else
      assert IsDigit(s[|s| - 1]);
      10 * Value(s[..|s| - 1]) + (s[|s| - 1] as int - '0' as int)
  }

  lemma {:induction false} ValueOfDigits(n: nat)
    ensures Value(Digits(n)) == n
  {
    if n >= 10 {
      ValueOfDigits(n / 10);
      var s := Digits(n);
      assert s[..|s| - 1] == Digits(n / 10);
    } else {
      assert Value([]) == 0;
      assert Digits(n)[..0] == [];
    }
  }

  function Decimal(n: int): string {
    if n < 0 then "-" + Digits(-n) else Digits(n)
  }

  // ---- the dollar quote

  predicate Occurs(text: string, part: string) {
    exists i | 0 <= i <= |text| :: StartsAt(text, i, part)
  }

  /** The names tried in turn: txt, txt1, txt2, ... */
  function TagName(n: nat): string { if n == 0 then "txt" else "txt" + Digits(n) }

  function Tagged(n: nat): string { "$" + TagName(n) + "$" }

  ghost predicate AllTaken(text: string, n: nat) { forall k: nat | k < n :: Occurs(text, Tagged(k)) }

  /** The first name whose tag the text does not hold. */
  function FirstFree(text: string, n: nat := 0): (r: nat)
    requires AllTaken(text, n)
    ensures n <= r && !Occurs(text, Tagged(r)) && AllTaken(text, r)
    decreases |text| + 1 - n
  {
    if Occurs(text, Tagged(n)) then
      TooManyTags(text, n + 1);
      FirstFree(text, n + 1)
    else n
  }

  lemma NamePlain(n: nat)
    ensures |TagName(n)| >= 3 && TagName(n)[0] == 't' && forall k | 0 <= k < |TagName(n)| :: TagChar(TagName(n)[k])
  {
  }

  lemma TaggedShape(n: nat)
    ensures var t := Tagged(n); var m := |TagName(n)|;
            |t| == m + 2 && t[0] == '$' && t[m + 1] == '$' && t[1..m + 1] == TagName(n)
                && t[..m + 1] == "$" + TagName(n)
    ensures forall k | 0 < k <= |TagName(n)| :: Tagged(n)[k] != '$' && TagChar(Tagged(n)[k])
  {
    NamePlain(n);
    var t := Tagged(n);
    forall k | 0 < k <= |TagName(n)| ensures t[k] != '$' && TagChar(t[k]) { assert t[k] == TagName(n)[k - 1]; }
  }

  lemma TagNameInjective(j: nat, k: nat)
    requires TagName(j) == TagName(k)
    ensures j == k
  {
    if j > 0 { assert TagName(j)[3..] == Digits(j); ValueOfDigits(j); }
    if k > 0 { assert TagName(k)[3..] == Digits(k); ValueOfDigits(k); }
  }

  /** Two tags that start at the same place are the same. */
  lemma SamePlace(text: string, p: nat, j: nat, k: nat)
    requires StartsAt(text, p, Tagged(j)) && StartsAt(text, p, Tagged(k))
    ensures j == k
  {
    hide TagName;
    var a, b := Tagged(j), Tagged(k);
    TaggedShape(j);
    TaggedShape(k);
    assert forall i | 0 <= i < |a| :: a[i] == text[p..p + |a|][i] == text[p + i];
    assert forall i | 0 <= i < |b| :: b[i] == text[p..p + |b|][i] == text[p + i];
    var m := if |a| <= |b| then |a| - 1 else |b| - 1;
    assert a[m] == text[p + m] && b[m] == text[p + m];
    assert a == b;
    assert TagName(j) == a[1..|a| - 1] == TagName(k);
    TagNameInjective(j, k);
  }

  ghost function Places(text: string, n: nat): set<nat>
    requires AllTaken(text, n)
  {
    set k | 0 <= k < n :: Find(text, Tagged(k), 0)
  }

  lemma PlaceOf(text: string, k: nat)
    requires Occurs(text, Tagged(k))
    ensures Find(text, Tagged(k), 0) < |text| && StartsAt(text, Find(text, Tagged(k), 0), Tagged(k))
  {
    var i :| 0 <= i <= |text| && StartsAt(text, i, Tagged(k));
    var f := Find(text, Tagged(k), 0);
    assert f <= i;
  }

  lemma {:induction false} PlacesCount(text: string, n: nat)
    requires AllTaken(text, n)
    ensures |Places(text, n)| == n
  {
    hide Find, Tagged, Occurs;
    if n > 0 {
      PlacesCount(text, n - 1);
      PlacesMore(text, n - 1);
    } else {
      assert Places(text, 0) == {};
    }
  }

  lemma PlacesMore(text: string, n: nat)
    requires AllTaken(text, n + 1)
    ensures var p := Find(text, Tagged(n), 0);
            Places(text, n + 1) == Places(text, n) + {p} && p !in Places(text, n)
  {
    hide Find;
    var p := Find(text, Tagged(n), 0);
    PlaceOf(text, n);
    forall k: nat | k < n ensures Find(text, Tagged(k), 0) != p {
      PlaceOf(text, k);
      if Find(text, Tagged(k), 0) == p { SamePlace(text, p, k, n); }
    }
  }

  lemma {:induction false} RangeCount(s: set<nat>, n: nat)
    requires forall k | k in s :: k < n
    ensures |s| <= n
  {
    if n > 0 {
      RangeCount(s - {n - 1}, n - 1);
      if n - 1 in s { assert |s - {n - 1}| == |s| - 1; } else { assert s - {n - 1} == s; }
    } else {
      assert s == {};
    }
  }

  /** A text holds at most as many of the tags as it has characters, so one of them is free. */
  lemma TooManyTags(text: string, n: nat)
    requires AllTaken(text, n)
    ensures n <= |text|
  {
    PlacesCount(text, n);
    forall p | p in Places(text, n) ensures p < |text| {
      var k :| 0 <= k < n && p == Find(text, Tagged(k), 0);
      PlaceOf(text, k);
    }
    RangeCount(Places(text, n), |text|);
  }

  function Dollared(text: string): string {
    Tagged(FirstFree(text)) + text + Tagged(FirstFree(text))
  }

  /** The text between tags it does not hold, found by trying one name after the other. */
  method DollarQuote(text: string) returns (r: string)
    ensures r == Dollared(text)
  {
    var tag, n := "txt", 0;
    assert tag == TagName(0);
    while Occurs(text, "$" + tag + "$")
      invariant tag == TagName(n) && AllTaken(text, n)
      invariant FirstFree(text) == FirstFree(text, n)
      decreases |text| + 1 - n
    {
      TooManyTags(text, n + 1);
      n := n + 1;
      tag := "txt" + Digits(n);
    }
    r := "$" + tag + "$" + text + "$" + tag + "$";
  }

  // ---- quoted texts and lists

  /** text.replace("'", "''") */
  function Doubled(text: string): string {
    if text == "" then ""
    else (if text[0] == '\'' then "''" else [text[0]]) + Doubled(text[1..])
  }

  function Quote(text: string): string { "'" + Doubled(text) + "'" }

  function HexDigit(d: nat): char
    requires d < 16
  {
    if d < 10 then '0' + d as char else 'a' + (d - 10) as char
  }

  function Hex4(n: nat): string
    requires n < 0x1_0000
  {
    "\\u" + [HexDigit(n / 4096), HexDigit(n / 256 % 16), HexDigit(n / 16 % 16), HexDigit(n % 16)]
  }

  /** One character inside a JSON text, as json.dumps writes it. */
  function JsonChar(c: char): string {
    var n := c as int;
    if c == '"' then "\\\"" else if c == '\\' then "\\\\"
    else if n == 10 then "\\n" else if n == 13 then "\\r" else if n == 9 then "\\t"
    else if n == 8 then "\\b" else if n == 12 then "\\f"
    else if 32 <= n < 127 then [c]
    else if n < 0x1_0000 then Hex4(n)
    else Hex4(0xD800 + (n - 0x1_0000) / 0x400) + Hex4(0xDC00 + (n - 0x1_0000) % 0x400)
  }

  function JsonText(s: string): string {
    if s == "" then "" else JsonChar(s[0]) + JsonText(s[1..])
  }

  function JsonItems(items: seq<string>): seq<string> {
    seq(|items|, k requires 0 <= k < |items| => "\"" + JsonText(items[k]) + "\"")
  }

  /** json.dumps of a list of texts. */
  function JsonList(items: seq<string>): string { "[" + Join(", ", JsonItems(items)) + "]" }

  // ---- what is printed: plain SQL with literals in it

  datatype Literal = Quoted(text: string) | Dollar(text: string) | Verbatim(text: string)

  /** The text a literal stands for. */
  function TextOf(l: Literal): string { l.text }

  /** A literal as it is printed. Verbatim is the list of variables: between quotes, with nothing doubled. */
  function Shape(l: Literal): string {
    match l
    case Quoted(t) => Quote(t)
    case Dollar(t) => Dollared(t)
    case Verbatim(t) => "'" + t + "'"
  }

  /** A literal and the plain SQL after it. */
  datatype Field = Field(literal: Literal, after: string)

  function Print(fields: seq<Field>): string {
    if fields == [] then "" else Shape(fields[0].literal) + fields[0].after + Print(fields[1..])
  }

  // ---- reading literals back

  /** A quoted text without its quotes, with the doubled ones made single. */
  function Undoubled(s: string): string {
    if |s| >= 2 && s[0] == '\'' && s[1] == '\'' then "'" + Undoubled(s[2..])
    else if s == "" then ""
    else [s[0]] + Undoubled(s[1..])
  }

  datatype Reading = Decoded(text: string) | Escaped(raw: string)

  /** The literals of the statement that starts here, decoded as the database reads them. */
  function Literals(g: Glue, s: string): seq<Reading>
    decreases |s|
  {
    if s == "" || !Scan(g, s).Token? then []
    else
      var t := Scan(g, s);
      var piece := s[..t.len];
      (match t.kind
       case Text =>
         if |piece| < 2 then []
         else if g.escape then [Escaped(piece)]
         else [Decoded(Undoubled(piece[1..|piece| - 1]))]
       case Dollar => if IsDollarQuote(piece) then [Decoded(Body(piece))] else []
       case _ => [])
      + Literals(After(g, piece), s[t.len..])
  }

  /** A text that ends in a dollar sign and its own tag name: the closing tag would be found one place early. */
  predicate EndsInTag(text: string) {
    var name := "$" + TagName(FirstFree(text));
    |name| <= |text| && text[|text| - |name|..] == name
  }

  /** The only place before the end where the closing tag can be found is the one EndsInTag describes. */
  lemma TagEarly(text: string, r: string, n: nat, k: nat)
    requires !Occurs(text, Tagged(n)) && |Tagged(n)| <= k < |Tagged(n)| + |text|
    requires StartsAt(Tagged(n) + text + Tagged(n) + r, k, Tagged(n))
    ensures var name := "$" + TagName(n); |name| <= |text| && text[|text| - |name|..] == name
  {
    hide TagName;
    var tag := Tagged(n);
    var l, p := |tag|, k - |tag|;
    var whole := tag + text + tag + r;
    TaggedShape(n);
    assert whole[k..k + l] == tag;
    forall i | 0 <= i < l ensures whole[k + i] == tag[i] { assert whole[k..k + l][i] == whole[k + i]; }
    if p + l <= |text| {
      TagInside(text, r, tag, k);
      assert false;
    }
    var d := |text| - p;
    assert whole[k + d] == tag[0] && tag[d] == '$';
    assert d == l - 1;
    assert text[p..] == tag[..l - 1] by {
      forall i | 0 <= i < l - 1 ensures text[p..][i] == tag[..l - 1][i] { assert whole[k + i] == text[p + i]; }
    }
  }

  lemma TagInside(text: string, r: string, tag: string, k: nat)
    requires |tag| <= k && k <= |text| && StartsAt(tag + text + tag + r, k, tag)
    ensures Occurs(text, tag)
  {
    var p, l := k - |tag|, |tag|;
    assert text[p..p + l] == (tag + text + tag + r)[k..k + l];
    assert StartsAt(text, p, tag);
  }

  /** A dollar-quoted text reads back exactly when it does not end in its tag: the closing tag is first found at
      the end of the text if and only if so. */
  lemma DollarExact(text: string, r: string)
    ensures var tag := Tagged(FirstFree(text));
            Find(Dollared(text) + r, tag, |tag|) == |tag| + |text| <==> !EndsInTag(text)
  {
    hide TagName;
    var n := FirstFree(text);
    var tag := Tagged(n);
    var l, whole := |tag|, tag + text + tag + r;
    TaggedShape(n);
    assert whole == Dollared(text) + r;
    assert whole[l + |text|..l + |text| + l] == tag;
    if EndsInTag(text) {
      var k := l + |text| - (l - 1);
      assert whole[k..k + l] == text[|text| - (l - 1)..] + tag[..1] == tag;
      assert StartsAt(whole, k, tag);
    } else {
      forall k | l <= k < l + |text| ensures !StartsAt(whole, k, tag) {
        if StartsAt(whole, k, tag) { TagEarly(text, r, n, k); }
      }
      FindIs(whole, tag, l, l + |text|);
    }
  }

  // ---- reading the printed SQL

  /** Plain SQL: nothing in it opens a quote or a comment, ends a statement, or could do so with what follows. */
  predicate Safe(t: string) {
    && (forall k | 0 <= k < |t| :: t[k] !in "'\"$;\\/")
    && (forall k | 0 <= k < |t| :: t[k] == '-' ==> k + 1 < |t| && t[k + 1] != '-')
  }

  /** What a literal may follow: a blank or an opening bracket, so that it is read as a literal of its own. */
  predicate Gap(t: string) { t != "" && (t[|t| - 1] == ' ' || t[|t| - 1] == '(') }

  predicate ReadsBack(l: Literal) {
    match l
    case Quoted(_) => true
    case Dollar(t) => !EndsInTag(t)
    case Verbatim(t) => '\'' !in t
  }

  /** The readings of some text after a token or a plain run. */
  lemma {:induction false} PlainReads(g: Glue, t: string, r: string)
    requires t != "" && Safe(t)
    ensures Seg(g, t + r) == Extend(|t|, t, Seg(After(g, t), r))
    ensures Literals(g, t + r) == Literals(After(g, t), r)
    decreases |t|
  {
    hide Seg, Scan, Literals, After;
    SafeToken(g, t, r);
    var c, u := t[..1], t[1..];
    assert t + r == c + (u + r);
    SegCons(g, c, u + r, Other);
    LiteralsOther(g, c, u + r);
    if u == "" {
      assert u + r == r && c == t;
    } else {
      PlainReads(After(g, c), u, r);
      AfterTwice(g, c, u);
      assert c + u == t;
      assert Extend(1, c, Extend(|u|, u, Seg(After(g, t), r))) == Extend(|t|, t, Seg(After(g, t), r)) by {
        var next := Seg(After(g, t), r);
        if next.Stop? { assert c + (u + next.code) == t + next.code; }
      }
    }
  }

  lemma SafeToken(g: Glue, t: string, r: string)
    requires t != "" && Safe(t)
    ensures Scan(g, t + r) == Token(Other, 1) && Shown(Other, t[..1]) == t[..1]
    ensures t[1..] != "" ==> Safe(t[1..])
  {
    hide Find, CommentEnd, QuoteEnd, Tag;
    var s := t + r;
    assert s[0] == t[0];
    assert 2 <= |s| ==> s[0..2][0] == s[0] && s[0..2][1] == s[1];
    assert 2 <= |t| ==> s[1] == t[1];
  }

  lemma AfterTwice(g: Glue, c: string, u: string)
    requires c != "" && u != ""
    ensures After(After(g, c), u) == After(g, c + u)
  {
  }

  lemma LiteralsOther(g: Glue, c: string, r: string)
    requires |c| == 1 && Scan(g, c + r) == Token(Other, 1)
    ensures Literals(g, c + r) == Literals(After(g, c), r)
  {
    hide Scan, After;
    assert (c + r)[..1] == c && (c + r)[1..] == r;
    assert [] + Literals(After(g, c), r) == Literals(After(g, c), r);
  }

  lemma {:induction false} DoubledEnd(a: string, t: string, r: string)
    requires r != "" ==> r[0] != '\''
    ensures QuoteEnd(a + Doubled(t) + "'" + r, |a|, '\'', false) == Some(|a| + |Doubled(t)| + 1)
    decreases |t|
  {
    var s := a + Doubled(t) + "'" + r;
    if t == "" {
      assert s[|a|] == '\'';
      if r != "" { assert s[|a| + 1] == r[0]; }
    } else {
      var one := if t[0] == '\'' then "''" else [t[0]];
      assert s == (a + one) + Doubled(t[1..]) + "'" + r;
      DoubledEnd(a + one, t[1..], r);
      assert s[|a|] == one[0];
      if t[0] == '\'' { assert s[|a| + 1] == one[1]; }
    }
  }

  lemma {:induction false} UndoubledOfDoubled(t: string)
    ensures Undoubled(Doubled(t)) == t
  {
    if t != "" {
      var d, one := Doubled(t), if t[0] == '\'' then "''" else [t[0]];
      assert d == one + Doubled(t[1..]);
      UndoubledOfDoubled(t[1..]);
      if t[0] == '\'' { assert d[2..] == Doubled(t[1..]); } else { assert d[1..] == Doubled(t[1..]); }
    }
  }

  lemma {:induction false} UndoubledPlain(t: string)
    requires '\'' !in t
    ensures Undoubled(t) == t && Doubled(t) == t
  {
    if t != "" { UndoubledPlain(t[1..]); }
  }

  /** A quoted literal is one token and decodes to its text. */
  lemma QuoteReads(t: string, r: string)
    requires r != "" ==> r[0] != '\''
    ensures Scan(CLEAN, Quote(t) + r) == Token(Kind.Text, |Quote(t)|)
    ensures Literals(CLEAN, Quote(t) + r) == [Decoded(t)] + Literals(After(CLEAN, Quote(t)), r)
    ensures Shown(Kind.Text, Quote(t)) == "'" + Spaces(|Quote(t)| - 2) + "'"
  {
    hide Scan, After, Doubled, Undoubled, QuoteEnd;
    var q := Quote(t);
    var s := q + r;
    assert s == "'" + Doubled(t) + "'" + r;
    DoubledEnd("'", t, r);
    OpensText(s, |q|);
    assert s[..|q|] == q && s[|q|..] == r;
    assert q[1..|q| - 1] == Doubled(t);
    UndoubledOfDoubled(t);
    hide Quote;
    ReadsText(q, r);
  }

  lemma OpensText(s: string, e: nat)
    requires s != "" && s[0] == '\'' && QuoteEnd(s, 1, '\'', false) == Some(e)
    ensures Scan(CLEAN, s) == Token(Kind.Text, e)
  {
    hide Find, CommentEnd, QuoteEnd, Tag;
    assert |s| >= 2 ==> s[0..2][0] == '\'';
  }

  lemma ReadsText(q: string, r: string)
    requires |q| >= 2 && Scan(CLEAN, q + r) == Token(Kind.Text, |q|)
    ensures Literals(CLEAN, q + r) == [Decoded(Undoubled(q[1..|q| - 1]))] + Literals(After(CLEAN, q), r)
  {
    hide Scan, After, Undoubled;
    assert (q + r)[..|q|] == q && (q + r)[|q|..] == r;
  }

  lemma TaggedIsTag(n: nat, r: string)
    ensures Tag(Tagged(n) + r) == Some(|Tagged(n)|)
  {
    hide TagName;
    TaggedShape(n);
    var s, m := Tagged(n) + r, |TagName(n)|;
    forall k | 0 < k <= m ensures TagChar(s[k]) { assert s[k] == Tagged(n)[k]; }
    RunTo(s, 1, m + 1);
    NameStart(n);
    assert s[1] == Tagged(n)[1] == TagName(n)[0];
  }

  lemma NameStart(n: nat)
    ensures TagName(n)[0] == 't' && |Tagged(n)| >= 5 && Tagged(n)[1] == TagName(n)[0]
  {
  }

  lemma {:induction false} RunTo(s: string, j: nat, e: nat)
    requires j <= e < |s| && !TagChar(s[e]) && forall k | j <= k < e :: TagChar(s[k])
    ensures TagRun(s, j) == e
    decreases e - j
  {
    if j < e { RunTo(s, j + 1, e); }
  }

  lemma DollarBody(t: string)
    ensures IsDollarQuote(Dollared(t)) && Body(Dollared(t)) == t
  {
    hide Tag, Tagged;
    var tag, d := Tagged(FirstFree(t)), Dollared(t);
    TaggedShape(FirstFree(t));
    assert d == tag + (t + tag);
    TaggedIsTag(FirstFree(t), t + tag);
    assert d[0] == tag[0];
    assert d[|tag|..|d| - |tag|] == t;
  }

  lemma DollarToken(t: string, r: string)
    requires !EndsInTag(t)
    ensures Scan(CLEAN, Dollared(t) + r) == Token(Kind.Dollar, |Dollared(t)|)
  {
    hide Find, CommentEnd, QuoteEnd, Tag, Tagged, EndsInTag;
    var tag := Tagged(FirstFree(t));
    var s, l := Dollared(t) + r, |tag|;
    TaggedShape(FirstFree(t));
    assert s == tag + (t + tag + r);
    TaggedIsTag(FirstFree(t), t + tag + r);
    DollarExact(t, r);
    assert s[0] == tag[0] && s[0..2][0] == s[0];
    assert s[..l] == tag;
  }

  /** A dollar literal is one token and decodes to its text, unless it ends in its tag. */
  lemma DollarReads(t: string, r: string)
    requires !EndsInTag(t)
    ensures Scan(CLEAN, Dollared(t) + r) == Token(Kind.Dollar, |Dollared(t)|)
    ensures IsDollarQuote(Dollared(t)) && Body(Dollared(t)) == t
    ensures Literals(CLEAN, Dollared(t) + r) == [Decoded(t)] + Literals(After(CLEAN, Dollared(t)), r)
  {
    hide Scan, After, Dollared, EndsInTag, IsDollarQuote, Body;
    DollarToken(t, r);
    DollarBody(t);
    var d := Dollared(t);
    assert d != "" by { assert IsDollarQuote(d); QuoteNotEmpty(d); }
    assert (d + r)[..|d|] == d && (d + r)[|d|..] == r;
  }

  lemma QuoteNotEmpty(d: string)
    requires IsDollarQuote(d)
    ensures d != ""
  {
  }

  // ---- literals that do not read back

  /** A text that ends in its tag is read one tag name short. */
  lemma DollarShort(t: string, r: string)
    requires EndsInTag(t)
    ensures var ls := Literals(CLEAN, Dollared(t) + r); |ls| > 0 && ls[0].Decoded? && |ls[0].text| < |t|
  {
    hide Scan, Literals, EndsInTag, Tagged, Dollared, Find, FirstFree;
    var n := FirstFree(t);
    var s := Dollared(t) + r;
    TaggedShape(n);
    TagFirst(t, r);
    var e := Find(s, Tagged(n), |Tagged(n)|);
    EndsEarly(t, r, e);
    DollarScan(t, r, e);
    ShortRead(s, n, e, |t|);
  }

  lemma EndsEarly(t: string, r: string, e: nat)
    requires EndsInTag(t)
    requires var tag := Tagged(FirstFree(t)); e == Find(Dollared(t) + r, tag, |tag|)
    ensures var l := |Tagged(FirstFree(t))|; l <= e < l + |t| && e + l <= |Dollared(t) + r|
  {
    hide EndsInTag, Tagged, Dollared, FirstFree;
    TagIsThere(t, r, e);
    DollarExact(t, r);
    TaggedShape(FirstFree(t));
  }

  lemma ShortRead(s: string, n: nat, e: nat, m: nat)
    requires var l := |Tagged(n)|; l <= e < l + m && e + l <= |s| && s[..l] == Tagged(n)
    requires s != "" && Scan(CLEAN, s) == Token(Kind.Dollar, e + |Tagged(n)|)
    ensures var ls := Literals(CLEAN, s); |ls| > 0 && ls[0].Decoded? && |ls[0].text| < m
  {
    hide Scan, Literals, Tagged, IsDollarQuote, Body;
    PieceBody(n, s, e);
    ReadsPiece(s, e + |Tagged(n)|);
  }

  lemma TagFirst(t: string, r: string)
    ensures var tag := Tagged(FirstFree(t)); var s := Dollared(t) + r; |tag| <= |s| && s[..|tag|] == tag
  {
    hide Tagged, FirstFree;
  }

  lemma ReadsPiece(s: string, n: nat)
    requires s != "" && n <= |s| && Scan(CLEAN, s) == Token(Kind.Dollar, n) && IsDollarQuote(s[..n])
    ensures |Literals(CLEAN, s)| > 0 && Literals(CLEAN, s)[0] == Decoded(Body(s[..n]))
  {
    hide Scan, After, IsDollarQuote, Body;
  }

  lemma DollarScan(t: string, r: string, e: nat)
    requires var tag := Tagged(FirstFree(t)); var s := Dollared(t) + r; e == Find(s, tag, |tag|) < |s|
    ensures Scan(CLEAN, Dollared(t) + r) == Token(Kind.Dollar, e + |Tagged(FirstFree(t))|)
  {
    hide Scan, Tag, Tagged, Find, Dollared, FirstFree;
    var tag := Tagged(FirstFree(t));
    var s := Dollared(t) + r;
    TaggedShape(FirstFree(t));
    TagFirst(t, r);
    assert s == tag + s[|tag|..];
    TaggedIsTag(FirstFree(t), s[|tag|..]);
    OpensDollar(s, |tag|, e);
  }

  lemma OpensDollar(s: string, n: nat, e: nat)
    requires s != "" && s[0] == '$' && Tag(s) == Some(n) && e == Find(s, s[..n], n) < |s|
    ensures Scan(CLEAN, s) == Token(Kind.Dollar, e + n)
  {
    hide CommentEnd, QuoteEnd, Tag, Find;
    assert |s| >= 2 ==> s[0..2][0] == '$';
  }

  lemma PieceBody(n: nat, s: string, e: nat)
    requires var l := |Tagged(n)|; l <= e && e + l <= |s| && s[..l] == Tagged(n)
    ensures var l := |Tagged(n)|; IsDollarQuote(s[..e + l]) && Body(s[..e + l]) == s[l..e]
  {
    hide Tag, Tagged;
    var l := |Tagged(n)|;
    TaggedShape(n);
    var piece := s[..e + l];
    assert piece == Tagged(n) + s[l..e + l];
    TaggedIsTag(n, s[l..e + l]);
    assert piece[0] == Tagged(n)[0];
    assert piece[l..|piece| - l] == s[l..e];
  }

  /** The closing tag is found at the end of the text or before. */
  lemma TagIsThere(t: string, r: string, e: nat)
    requires var tag := Tagged(FirstFree(t)); e == Find(Dollared(t) + r, tag, |tag|)
    ensures |Tagged(FirstFree(t))| <= e <= |Tagged(FirstFree(t))| + |t| < |Dollared(t) + r|
  {
    hide TagName;
    TaggedShape(FirstFree(t));
    var tag := Tagged(FirstFree(t));
    var s, l := Dollared(t) + r, |tag|;
    assert s[l + |t|..l + |t| + l] == tag;
    assert StartsAt(s, l + |t|, tag);
  }

  /** A dollar literal decodes to its text exactly when the text does not end in its tag. */
  lemma DollarLiteralExact(t: string, r: string)
    ensures var ls := Literals(CLEAN, Dollared(t) + r); |ls| > 0 && (ls[0] == Decoded(t) <==> !EndsInTag(t))
  {
    hide Literals, Dollared, EndsInTag;
    if EndsInTag(t) { DollarShort(t, r); } else { DollarReads(t, r); }
  }

  /** Such a text is "$txt": it holds no tag yet, and ends in the first. */
  lemma ABadText()
    ensures EndsInTag("$txt")
    ensures |Literals(CLEAN, Dollared("$txt"))| > 0 && Literals(CLEAN, Dollared("$txt"))[0] != Decoded("$txt")
  {
    hide Literals, Dollared;
    ABadTextEnds("$txt");
    DollarLiteralExact("$txt", "");
    assert Dollared("$txt") + "" == Dollared("$txt");
  }

  lemma ABadTextEnds(t: string)
    requires t == "$txt"
    ensures EndsInTag(t)
  {
    assert Tagged(0) == "$txt$";
    TooShort(t, Tagged(0));
    assert FirstFree(t) == 0;
  }

  lemma TooShort(text: string, part: string)
    requires |text| < |part|
    ensures !Occurs(text, part)
  {
  }

  predicate QuoteIn(s: string, j: nat, z: nat)
    requires z <= |s|
  {
    exists k | j <= k < z :: s[k] == '\''
  }

  /** Where a text between quotes ends, when nothing in it was doubled: at its first lone quote, at z at the latest, and
      what is read is shorter than the text if it holds a quote. */
  lemma {:induction false} VerbatimEnd(s: string, j: nat, z: nat)
    requires j <= z < |s| && s[z] == '\'' && (z + 1 < |s| ==> s[z + 1] != '\'') && (j < z ==> s[z - 1] != '\'')
    ensures var e := QuoteEnd(s, j, '\'', false);
            && e.Some? && e.value <= z + 1
            && |Undoubled(s[j..e.value - 1])| <= z - j
            && (QuoteIn(s, j, z) ==> |Undoubled(s[j..e.value - 1])| < z - j)
    decreases z - j
  {
    hide QuoteEnd, Undoubled;
    if j == z || (s[j] == '\'' && s[j + 1] != '\'') {
      LoneQuote(s, j);
      assert s[j..j] == "";
    } else {
      var n := if s[j] == '\'' then 2 else 1;
      VerbatimEnd(s, j + n, z);
      VerbatimSkip(s, j, n, QuoteEnd(s, j + n, '\'', false).value);
    }
  }

  /** One character, or a doubled quote, inside quotes: the end is the same, and one character is read. */
  lemma VerbatimSkip(s: string, j: nat, n: nat, e: nat)
    requires (n == 1 && j < |s| && s[j] != '\'') || (n == 2 && j + 1 < |s| && s[j] == s[j + 1] == '\'')
    requires QuoteEnd(s, j + n, '\'', false) == Some(e)
    ensures QuoteEnd(s, j, '\'', false) == Some(e)
    ensures |Undoubled(s[j..e - 1])| == 1 + |Undoubled(s[j + n..e - 1])|
  {
    var c := s[j..e - 1];
    assert c[n..] == s[j + n..e - 1];
    assert c[0] == s[j] && (n == 2 ==> c[1] == s[j + 1]);
  }

  lemma LoneQuote(s: string, j: nat)
    requires j < |s| && s[j] == '\'' && (j + 1 < |s| ==> s[j + 1] != '\'')
    ensures QuoteEnd(s, j, '\'', false) == Some(j + 1) && Undoubled("") == ""
  {
  }

  /** A verbatim literal decodes to its text exactly when the text holds no quote. */
  lemma VerbatimExact(t: string, r: string)
    requires (t != "" ==> t[|t| - 1] != '\'') && (r != "" ==> r[0] != '\'')
    ensures var ls := Literals(CLEAN, "'" + t + "'" + r); |ls| > 0 && (ls[0] == Decoded(t) <==> '\'' !in t)
  {
    hide Scan, QuoteEnd, Literals, Undoubled, After;
    if '\'' !in t {
      UndoubledPlain(t);
      QuoteReads(t, r);
    } else {
      VerbatimShort(t, r);
    }
  }

  lemma VerbatimShort(t: string, r: string)
    requires '\'' in t && t[|t| - 1] != '\'' && (r != "" ==> r[0] != '\'')
    ensures var ls := Literals(CLEAN, "'" + t + "'" + r); |ls| > 0 && ls[0].Decoded? && |ls[0].text| < |t|
  {
    hide Scan, QuoteEnd, Literals, Undoubled, After;
    VerbatimPlace(t, r);
    TextShort("'" + t + "'" + r, 1 + |t|);
  }

  /** A text in quotes that closes at z at the latest and holds a quote is read short. */
  lemma TextShort(s: string, z: nat)
    requires 0 < z < |s| && s[0] == s[z] == '\'' && s[z - 1] != '\'' && (z + 1 < |s| ==> s[z + 1] != '\'')
    requires QuoteIn(s, 1, z)
    ensures var ls := Literals(CLEAN, s); |ls| > 0 && ls[0].Decoded? && |ls[0].text| < z - 1
  {
    hide Scan, QuoteEnd, Literals, Undoubled, After;
    VerbatimEnd(s, 1, z);
    var e := QuoteEnd(s, 1, '\'', false).value;
    OpensText(s, e);
    QuoteEndLater(s);
    assert s[..e] + s[e..] == s;
    ReadsText(s[..e], s[e..]);
    assert s[..e][1..e - 1] == s[1..e - 1];
  }

  lemma VerbatimPlace(t: string, r: string)
    requires '\'' in t && t[|t| - 1] != '\'' && (r != "" ==> r[0] != '\'')
    ensures var s, z := "'" + t + "'" + r, 1 + |t|;
            && z < |s| && s[0] == s[z] == '\'' && s[z - 1] != '\'' && (z + 1 < |s| ==> s[z + 1] != '\'')
            && QuoteIn(s, 1, z)
  {
    var s, z := "'" + t + "'" + r, 1 + |t|;
    assert s[1..z] == t && s[z] == '\'' && s[z - 1] == t[|t| - 1];
    if r != "" { assert s[z + 1] == r[0]; }
    var k :| 0 <= k < |t| && t[k] == '\'';
    assert s[1 + k] == '\'';
  }

  lemma QuoteEndLater(s: string)
    ensures QuoteEnd(s, 1, '\'', false).Some? ==> 2 <= QuoteEnd(s, 1, '\'', false).value <= |s|
  {
  }

  /** One literal: one token that decodes to its text. */
  lemma LiteralReads(l: Literal, r: string)
    requires ReadsBack(l) && (r != "" ==> r[0] != '\'')
    ensures Shape(l) != ""
    ensures exists shown: string ::
            Seg(CLEAN, Shape(l) + r) == Extend(|Shape(l)|, "'" + shown, Seg(After(CLEAN, Shape(l)), r))
                                 || Seg(CLEAN, Shape(l) + r)
                                     == Extend(|Shape(l)|, "$" + shown, Seg(After(CLEAN, Shape(l)), r))
    ensures Literals(CLEAN, Shape(l) + r) == [Decoded(TextOf(l))] + Literals(After(CLEAN, Shape(l)), r)
  {
    hide Seg, Scan, Literals, After, Doubled, EndsInTag, Tagged;
    match l {
      case Dollar(t) =>
        DollarReads(t, r);
        var d := Dollared(t);
        SegCons(CLEAN, d, r, Kind.Dollar);
        DollarShown(d);
        assert Seg(CLEAN, Shape(l) + r) == Extend(|d|, "$" + Shown(Kind.Dollar, d)[1..], Seg(After(CLEAN, d), r));
      case Quoted(t) =>
        TextReads(t, r);
      case Verbatim(t) =>
        UndoubledPlain(t);
        assert Shape(l) == Quote(t);
        TextReads(t, r);
    }
  }

  lemma TextReads(t: string, r: string)
    requires r != "" ==> r[0] != '\''
    ensures exists shown: string ::
            Seg(CLEAN, Quote(t) + r) == Extend(|Quote(t)|, "'" + shown, Seg(After(CLEAN, Quote(t)), r))
    ensures Literals(CLEAN, Quote(t) + r) == [Decoded(t)] + Literals(After(CLEAN, Quote(t)), r)
  {
    hide Seg, Scan, Literals, After, Doubled, Shown;
    QuoteReads(t, r);
    var q := Quote(t);
    SegCons(CLEAN, q, r, Kind.Text);
    var shown := Spaces(|q| - 2) + "'";
    assert Shown(Kind.Text, q) == "'" + shown;
  }

  lemma DollarShown(d: string)
    requires IsDollarQuote(d)
    ensures var s := Shown(Kind.Dollar, d); s != "" && s == "$" + s[1..]
  {
    hide Body, InnerCode;
  }

  ghost predicate Readable(fields: seq<Field>) {
    forall k | 0 <= k < |fields| ::
      && ReadsBack(fields[k].literal) && Safe(fields[k].after) && fields[k].after != ""
      && (k + 1 < |fields| ==> Gap(fields[k].after))
  }

  function Values(fields: seq<Field>): seq<Reading> {
    seq(|fields|, k requires 0 <= k < |fields| => Decoded(TextOf(fields[k].literal)))
  }

  lemma GapIsClean(g: Glue, t: string)
    requires Gap(t)
    ensures After(g, t) == CLEAN
  {
  }

  lemma NothingMore(g: Glue, z: string)
    requires z == "" || z[0] == ';'
    ensures Seg(g, z) == Stop(0, "") && Literals(g, z) == []
  {
    SemiStop(g, z);
  }

  /** Printed fields are read as one stretch without a semicolon, and every literal decodes to its text. */
  lemma {:induction false} PrintReads(fields: seq<Field>, z: string)
    requires Readable(fields) && fields != [] && (z == "" || z[0] == ';')
    ensures var r := Seg(CLEAN, Print(fields) + z);
            r.Stop? && r.len == |Print(fields)| && !Blank(r.code)
    ensures Literals(CLEAN, Print(fields) + z) == Values(fields)
    decreases |fields|
  {
    hide Seg, Scan, Literals, After, Shape, Safe, Gap, ReadsBack, Print, Blank;
    var l, after, rest := fields[0].literal, fields[0].after, fields[1..];
    var tail := Print(rest) + z;
    PrintStep(fields, z);
    LiteralReads(l, after + tail) by { SafeStart(after, tail); }
    var g := After(CLEAN, Shape(l));
    PlainReads(g, after, tail);
    if rest == [] {
      PrintNone();
      assert tail == z;
      NothingMore(After(g, after), z);
    } else {
      assert Readable(rest) by { assert forall k | 0 <= k < |rest| :: rest[k] == fields[k + 1]; }
      GapIsClean(g, after) by { assert Gap(fields[0].after); }
      PrintReads(rest, z);
    }
    var end := Seg(After(g, after), tail);
    assert end.Stop? && end.len == |Print(rest)|;
    FirstField(l, after, tail, end);
    assert Values(fields) == [Decoded(TextOf(l))] + Values(rest);
  }

  lemma PrintNone()
    ensures Print([]) == ""
  {
  }

  lemma SafeStart(after: string, tail: string)
    requires Safe(after) && after != ""
    ensures (after + tail)[0] != '\''
  {
    assert (after + tail)[0] == after[0];
  }

  lemma PrintStep(fields: seq<Field>, z: string)
    requires fields != []
    ensures Print(fields) + z == Shape(fields[0].literal) + (fields[0].after + (Print(fields[1..]) + z))
    ensures |Print(fields)| == |Shape(fields[0].literal)| + |fields[0].after| + |Print(fields[1..])|
  {
    PrintUnfold(fields);
    hide Shape, Print;
    Associate(Shape(fields[0].literal), fields[0].after, Print(fields[1..]), z);
  }

  lemma PrintUnfold(fields: seq<Field>)
    requires fields != []
    ensures Print(fields) == Shape(fields[0].literal) + fields[0].after + Print(fields[1..])
  {
    hide Shape;
  }

  lemma Associate(a: string, b: string, c: string, z: string)
    ensures a + b + c + z == a + (b + (c + z))
  {
    assert a + b + (c + z) == a + (b + (c + z));
    assert a + b + c + z == a + b + (c + z);
  }

  /** The segment that starts with a literal and plain SQL is not blank, and as long as both and the rest. */
  lemma FirstField(l: Literal, after: string, tail: string, end: Segment)
    requires Shape(l) != "" && after != "" && end.Stop?
    requires Seg(After(CLEAN, Shape(l)), after + tail) == Extend(|after|, after, end)
    requires exists shown: string ::
               Seg(CLEAN, Shape(l) + (after + tail))
                 == Extend(|Shape(l)|, "'" + shown, Seg(After(CLEAN, Shape(l)), after + tail))
               || Seg(CLEAN, Shape(l) + (after + tail))
                 == Extend(|Shape(l)|, "$" + shown, Seg(After(CLEAN, Shape(l)), after + tail))
    ensures var r := Seg(CLEAN, Shape(l) + (after + tail));
            r.Stop? && r.len == |Shape(l)| + |after| + end.len && !Blank(r.code)
  {
    hide Seg, After, Shape;
    var r := Seg(CLEAN, Shape(l) + (after + tail));
    assert r.Stop? && r.code != "" && (r.code[0] == '\'' || r.code[0] == '$');
    assert !IsSpace(r.code[0]);
  }

  /** A printed statement, with its semicolon and the line end after it, is exactly one statement, and its
      literals decode to their texts. */
  lemma DocumentReads(head: string, fields: seq<Field>)
    requires Safe(head) && Gap(head) && fields != [] && Readable(fields)
    ensures var sql := head + Print(fields) + ";\n";
            && Split(sql).Ok? && |Split(sql).value| == 1
            && Split(sql).value[0].text == Strip(head + Print(fields))
            && Literals(CLEAN, sql) == Values(fields)
  {
    hide Seg, Literals, Print, Strip, Safe, Blank;
    var doc := head + Print(fields);
    var sql := doc + ";\n";
    PrintReads(fields, ";\n");
    PlainReads(CLEAN, head, Print(fields) + ";\n");
    GapIsClean(CLEAN, head);
    assert sql == head + (Print(fields) + ";\n");
    LineEnd();
    OneStatement(doc, ";\n", Seg(CLEAN, sql).code) by {
      BlankEither(head, Seg(CLEAN, Print(fields) + ";\n").code);
    }
  }

  lemma LineEnd()
    ensures Blank(";\n"[1..])
  {
  }

  lemma BlankEither(a: string, b: string)
    requires !Blank(b)
    ensures !Blank(a + b)
  {
    var k :| 0 <= k < |b| && !IsSpace(b[k]);
    assert (a + b)[|a| + k] == b[k];
  }

  lemma OneStatement(doc: string, z: string, code: string)
    requires z != "" && Blank(z[1..])
    requires Seg(CLEAN, doc + z) == Stop(|doc|, code) && !Blank(code)
    ensures Split(doc + z) == Ok([Statement(Strip(doc), code)])
  {
    hide Seg, Strip, Split, Blank;
    BlankSplit(z[1..]);
    assert (doc + z)[|doc| + 1..] == z[1..] && (doc + z)[..|doc|] == doc;
    CutOnce(doc + z, |doc|, code);
  }

  lemma CutOnce(sql: string, n: nat, code: string)
    requires Seg(CLEAN, sql) == Stop(n, code) && n < |sql| && !Blank(code) && Split(sql[n + 1..]) == Ok([])
    ensures Split(sql) == Ok([Statement(Strip(sql[..n]), code)])
  {
    hide Seg, Strip, Split, Blank;
    BlankStrip(code);
    SplitStep(sql, n);
    assert [Statement(Strip(sql[..n]), code)] + [] == [Statement(Strip(sql[..n]), code)];
  }

  // ---- the two printers

  const LOCALE := "en-IN"
  const CREATED_BY := "seed"

  /** A message of the list: its key, its wording, and the names of its values, sorted. */
  datatype Message = Message(key: string, text: string, values: seq<string>)

  function Cat(parts: seq<string>): string {
    if parts == [] then "" else parts[0] + Cat(parts[1..])
  }

  function MessageRow(m: Message, version: int): string {
    Cat(["    (", Quote(m.key), ", ", Quote(LOCALE), ", ", "'global'", ", ", "''", ", " + Decimal(version) + ", ",
         Dollared(m.text), ", ", "'" + JsonList(m.values) + "'", "::jsonb, true, ", "'Standard wording'", ", ",
         Quote(CREATED_BY), ")"])
  }

  const MESSAGES_HEAD :=
    "INSERT INTO public.system_messages\n" + "    (key, locale, scope, scope_ref, "
    + "version, body, variables, is_active, "
    + "note, created_by)\nVALUES\n"
  const MESSAGES_TAIL := "\nON CONFLICT (key, locale, scope, " + "scope_ref, version) DO NOTHING"

  function Rows(messages: seq<Message>, version: int): seq<string> {
    seq(|messages|, k requires 0 <= k < |messages| => MessageRow(messages[k], version))
  }

  /** One INSERT with the standard wording of the given messages. */
  function MessagesSql(messages: seq<Message>, version: int): string {
    MESSAGES_HEAD + Join(",\n", Rows(messages, version)) + MESSAGES_TAIL + ";\n"
  }

  /** The fields of one row, with the plain SQL that follows the row. */
  function MessageFields(m: Message, version: int, after: string): seq<Field> {
    [ Field(Quoted(m.key), ", "), Field(Quoted(LOCALE), ", "), Field(Quoted("global"), ", "),
      Field(Quoted(""), ", " + Decimal(version) + ", "), Field(Literal.Dollar(m.text), ", "),
      Field(Verbatim(JsonList(m.values)), "::jsonb, true, "), Field(Quoted("Standard wording"), ", "),
      Field(Quoted(CREATED_BY), ")" + after) ]
  }

  function AllFields(messages: seq<Message>, version: int): seq<Field>
    requires messages != []
  {
    if |messages| == 1 then MessageFields(messages[0], version, MESSAGES_TAIL)
    else MessageFields(messages[0], version, ",\n    (") + AllFields(messages[1..], version)
  }

  lemma {:induction false} PrintAppend(a: seq<Field>, b: seq<Field>)
    ensures Print(a + b) == Print(a) + Print(b)
  {
    hide Shape;
    if a == [] {
      assert a + b == b;
    } else {
      assert (a + b)[1..] == a[1..] + b;
      PrintAppend(a[1..], b);
    }
  }

  /** The pieces of printed fields. */
  function Parts(fields: seq<Field>): seq<string> {
    if fields == [] then [] else [Shape(fields[0].literal), fields[0].after] + Parts(fields[1..])
  }

  lemma {:induction false} PrintIsCat(fields: seq<Field>)
    ensures Print(fields) == Cat(Parts(fields))
  {
    hide Shape;
    if fields != [] {
      PrintIsCat(fields[1..]);
      var p := Parts(fields);
      assert p[1..][1..] == Parts(fields[1..]) && p[1..][0] == fields[0].after;
    }
  }

  lemma CatOne(part: string)
    ensures Cat([part]) == part
  {
    assert [part][1..] == [];
    assert part + "" == part;
  }

  lemma {:induction false} CatLast(parts: seq<string>, last: string, more: string)
    ensures Cat(parts + [last + more]) == Cat(parts + [last]) + more
  {
    if parts == [] {
      assert [] + [last] == [last] && [] + [last + more] == [last + more];
      CatOne(last);
      CatOne(last + more);
    } else {
      assert (parts + [last])[1..] == parts[1..] + [last];
      assert (parts + [last + more])[1..] == parts[1..] + [last + more];
      CatLast(parts[1..], last, more);
    }
  }

  lemma MessageFieldsPrint(m: Message, version: int, after: string)
    ensures "    (" + Print(MessageFields(m, version, after)) == MessageRow(m, version) + after
  {
    hide Decimal, Quote, JsonList, Dollared, Print, Cat;
    var f := MessageFields(m, version, after);
    PrintIsCat(f);
    ConstantTexts();
    var parts := MessageParts(m, version);
    PartsOfEight(f);
    assert Parts(f) == parts[1..] + [")" + after];
    assert parts + [")" + after] == ["    ("] + (parts[1..] + [")" + after]);
    CatFirst("    (", parts[1..] + [")" + after]);
    CatLast(parts, ")", after);
  }

  function MessageParts(m: Message, version: int): (parts: seq<string>)
    ensures MessageRow(m, version) == Cat(parts + [")"])
  {
    var parts :=
      ["    (", Quote(m.key), ", ", Quote(LOCALE), ", ", "'global'", ", ", "''", ", " + Decimal(version) + ", ",
       Dollared(m.text), ", ", "'" + JsonList(m.values) + "'", "::jsonb, true, ", "'Standard wording'", ", ",
       Quote(CREATED_BY)];
    assert parts + [")"] ==
      ["    (", Quote(m.key), ", ", Quote(LOCALE), ", ", "'global'", ", ", "''", ", " + Decimal(version) + ", ",
       Dollared(m.text), ", ", "'" + JsonList(m.values) + "'", "::jsonb, true, ", "'Standard wording'", ", ",
       Quote(CREATED_BY), ")"];
    parts
  }

  lemma CatFirst(first: string, rest: seq<string>)
    ensures Cat([first] + rest) == first + Cat(rest)
  {
    assert ([first] + rest)[1..] == rest;
  }

  lemma ConstantTexts()
    ensures Shape(Quoted("global")) == "'global'" && Shape(Quoted("")) == "''"
    ensures Shape(Quoted("Standard wording")) == "'Standard wording'"
  {
    hide Quote;
    QuoteOf("global");
    QuoteOf("");
    QuoteOf("Standard wording");
    assert "'" + "global" + "'" == "'global'";
    assert "'" + "" + "'" == "''";
    assert "'" + "Standard wording" + "'" == "'Standard wording'";
  }

  lemma PartsOfEight(f: seq<Field>)
    requires |f| == 8
    ensures Parts(f) == [
      Shape(f[0].literal), f[0].after, Shape(f[1].literal), f[1].after, Shape(f[2].literal), f[2].after,
      Shape(f[3].literal), f[3].after, Shape(f[4].literal), f[4].after, Shape(f[5].literal), f[5].after,
      Shape(f[6].literal), f[6].after, Shape(f[7].literal), f[7].after]
  {
    hide Shape, Parts;
    PartsOfFour(f[4..]);
    PartsOfFour(f[..4]);
    PartsAppend(f[..4], f[4..]);
    assert f[..4] + f[4..] == f;
  }

  lemma PartsOfFour(f: seq<Field>)
    requires |f| == 4
    ensures Parts(f) == [
      Shape(f[0].literal), f[0].after, Shape(f[1].literal), f[1].after, Shape(f[2].literal), f[2].after,
      Shape(f[3].literal), f[3].after]
  {
    hide Shape;
    assert f[1..][1..] == f[2..] && f[2..][1..] == f[3..] && f[3..][1..] == [];
    assert Parts(f[3..]) == [Shape(f[3].literal), f[3].after] + Parts([]);
    assert Parts(f[2..]) == [Shape(f[2].literal), f[2].after] + Parts(f[3..]);
    assert Parts(f[1..]) == [Shape(f[1].literal), f[1].after] + Parts(f[2..]);
  }

  lemma {:induction false} PartsAppend(a: seq<Field>, b: seq<Field>)
    ensures Parts(a + b) == Parts(a) + Parts(b)
  {
    hide Shape;
    if a == [] {
      assert a + b == b;
    } else {
      assert (a + b)[1..] == a[1..] + b;
      PartsAppend(a[1..], b);
    }
  }

  lemma QuoteOf(t: string)
    requires '\'' !in t
    ensures Quote(t) == "'" + t + "'"
  {
    UndoubledPlain(t);
  }

  lemma {:induction false} AllFieldsPrint(messages: seq<Message>, version: int)
    requires messages != []
    ensures "    (" + Print(AllFields(messages, version)) == Join(",\n", Rows(messages, version)) + MESSAGES_TAIL
    decreases |messages|
  {
    hide MessageRow, MessageFields, Print;
    var rows := Rows(messages, version);
    if |messages| == 1 {
      MessageFieldsPrint(messages[0], version, MESSAGES_TAIL);
    } else {
      var more := messages[1..];
      AllFieldsPrint(more, version);
      MessageFieldsPrint(messages[0], version, ",\n    (");
      PrintAppend(MessageFields(messages[0], version, ",\n    ("), AllFields(more, version));
      assert rows[1..] == Rows(more, version);
      RowOpens();
      PartsJoin(rows, Print(MessageFields(messages[0], version, ",\n    (")), Print(AllFields(more, version)),
                "    (", ",\n", MESSAGES_TAIL, ",\n    (");
    }
  }

  lemma RowOpens()
    ensures ",\n    (" == ",\n" + "    ("
  {
  }

  lemma PartsJoin(rows: seq<string>, first: string, later: string, open: string, sep: string, tail: string, both: string)
    requires |rows| > 1 && both == sep + open && open + first == rows[0] + both
    requires open + later == Join(sep, rows[1..]) + tail
    ensures open + (first + later) == Join(sep, rows) + tail
  {
    hide Join;
    JoinMore(sep, rows);
    Regroup(open, first, later, rows[0], sep, Join(sep, rows[1..]), tail, both, Join(sep, rows));
  }

  lemma JoinMore(sep: string, rows: seq<string>)
    requires |rows| > 1
    ensures Join(sep, rows) == rows[0] + sep + Join(sep, rows[1..])
  {
  }

  lemma Regroup(open: string, first: string, later: string, row: string, sep: string, rest: string, tail: string,
                both: string, all: string)
    requires both == sep + open && open + first == row + both && open + later == rest + tail && all == row + sep + rest
    ensures open + (first + later) == all + tail
  {
    assert open + (first + later) == (open + first) + later;
    assert row + (sep + open) + later == row + sep + (open + later);
    assert row + sep + (rest + tail) == row + sep + rest + tail;
  }

  // ---- every part is readable

  lemma DecimalSafe(n: int)
    ensures Safe(", " + Decimal(n) + ", ") && Gap(", " + Decimal(n) + ", ")
  {
    var d := Decimal(n);
    assert forall k | 0 <= k < |d| :: IsDigit(d[k]) || (k == 0 && d[k] == '-' && 1 < |d| && IsDigit(d[1]));
    var t := ", " + d + ", ";
    forall k | 0 <= k < |t|
      ensures t[k] !in "'\"$;\\/" && (t[k] == '-' ==> k + 1 < |t| && t[k + 1] != '-')
    {
      if 2 <= k < 2 + |d| {
        assert t[k] == d[k - 2];
        if t[k] == '-' { assert t[3] == d[1]; }
      }
    }
  }

  lemma {:induction false} JsonTextPlain(s: string)
    requires '\'' !in s
    ensures '\'' !in JsonText(s)
  {
    if s != "" {
      assert s[0] in s && forall c | c in s[1..] :: c in s;
      JsonCharPlain(s[0]);
      JsonTextPlain(s[1..]);
    }
  }

  lemma JsonCharPlain(c: char)
    requires c != '\''
    ensures '\'' !in JsonChar(c)
  {
    assert forall d: nat | d < 16 :: HexDigit(d) != '\'';
  }

  lemma {:induction false} JoinPlain(sep: string, parts: seq<string>)
    requires '\'' !in sep && forall k | 0 <= k < |parts| :: '\'' !in parts[k]
    ensures '\'' !in Join(sep, parts)
  {
    if |parts| > 1 { JoinPlain(sep, parts[1..]); }
  }

  lemma JsonListPlain(items: seq<string>)
    requires forall k | 0 <= k < |items| :: '\'' !in items[k]
    ensures '\'' !in JsonList(items)
  {
    hide JsonText;
    var parts := JsonItems(items);
    forall k | 0 <= k < |parts| ensures '\'' !in parts[k] {
      JsonTextPlain(items[k]);
    }
    JoinPlain(", ", parts);
  }

  /** What MessagesSql can print so that it reads back: no text ends in its tag, no value name holds a quote. */
  predicate Printable(m: Message) {
    !EndsInTag(m.text) && forall k | 0 <= k < |m.values| :: '\'' !in m.values[k]
  }

  // ---- and nothing else can be

  /** A literal that can be followed by what follows it, read back or not. */
  predicate Placed(f: Field) {
    && Safe(f.after) && f.after != ""
    && (f.literal.Verbatim? && f.literal.text != "" ==> f.literal.text[|f.literal.text| - 1] != '\'')
  }

  ghost predicate AllPlaced(fields: seq<Field>) {
    forall k | 0 <= k < |fields| :: Placed(fields[k]) && (k + 1 < |fields| ==> Gap(fields[k].after))
  }

  lemma LiteralExact(l: Literal, r: string)
    requires (l.Verbatim? && l.text != "" ==> l.text[|l.text| - 1] != '\'') && (r != "" ==> r[0] != '\'')
    ensures var ls := Literals(CLEAN, Shape(l) + r); ls != [] && (ls[0] == Decoded(TextOf(l)) <==> ReadsBack(l))
  {
    hide Literals, EndsInTag, Dollared, Doubled;
    match l {
      case Dollar(t) => DollarLiteralExact(t, r);
      case Quoted(t) => QuoteReads(t, r);
      case Verbatim(t) => VerbatimExact(t, r);
    }
  }

  /** Printed fields decode to their texts only if every literal reads back. */
  lemma {:induction false} PrintExact(fields: seq<Field>, z: string)
    requires AllPlaced(fields) && (z == "" || z[0] == ';')
    requires Literals(CLEAN, Print(fields) + z) == Values(fields)
    ensures AllBack(fields)
    decreases |fields|
  {
    hide Seg, Scan, Literals, After, Shape, Safe, Gap, ReadsBack, Print;
    if fields != [] {
      var l, after, rest := fields[0].literal, fields[0].after, fields[1..];
      var tail := Print(rest) + z;
      assert Placed(fields[0]);
      PrintStep(fields, z);
      SafeStart(after, tail);
      LiteralExact(l, after + tail);
      assert Values(fields)[0] == Decoded(TextOf(l));
      assert ReadsBack(l);
      LiteralReads(l, after + tail);
      var g := After(CLEAN, Shape(l));
      PlainReads(g, after, tail);
      if rest != [] {
        GapIsClean(g, after);
        assert AllPlaced(rest) by { assert forall k | 0 <= k < |rest| :: rest[k] == fields[k + 1]; }
        var ls := Literals(CLEAN, Print(fields) + z);
        assert ls == [Decoded(TextOf(l))] + Literals(CLEAN, tail);
        assert Values(fields) == [Decoded(TextOf(l))] + Values(rest);
        assert Literals(CLEAN, tail) == ls[1..] == Values(fields)[1..] == Values(rest);
        PrintExact(rest, z);
        forall k | 0 <= k < |fields| ensures ReadsBack(fields[k].literal) {
          if k > 0 { assert fields[k] == rest[k - 1]; }
        }
      }
    }
  }

  lemma {:induction false} JsonTextHas(s: string)
    requires '\'' in s
    ensures '\'' in JsonText(s)
  {
    if s[0] == '\'' { assert JsonText(s)[0] == '\''; } else { JsonTextHas(s[1..]); }
  }

  lemma {:induction false} JoinHas(sep: string, parts: seq<string>, k: nat)
    requires k < |parts| && '\'' in parts[k]
    ensures '\'' in Join(sep, parts)
  {
    if |parts| > 1 && k > 0 { JoinHas(sep, parts[1..], k - 1); }
  }

  /** The list is printed without a quote exactly when no item holds one; it ends in a bracket. */
  lemma JsonListExact(items: seq<string>)
    ensures '\'' !in JsonList(items) <==> forall k | 0 <= k < |items| :: '\'' !in items[k]
    ensures JsonList(items) != "" && JsonList(items)[|JsonList(items)| - 1] == ']'
  {
    if k :| 0 <= k < |items| && '\'' in items[k] {
      JsonTextHas(items[k]);
      assert '\'' in JsonItems(items)[k];
      JoinHas(", ", JsonItems(items), k);
    } else {
      JsonListPlain(items);
    }
  }

  lemma MessageFieldsPlaced(m: Message, version: int, after: string)
    requires Safe(")" + after)
    ensures AllPlaced(MessageFields(m, version, after))
    ensures AllBack(MessageFields(m, version, after)) ==> Printable(m)
  {
    hide Decimal, EndsInTag, JsonList, Safe, Gap;
    DecimalSafe(version);
    JsonListExact(m.values);
    FixedSafe();
    var f := MessageFields(m, version, after);
    assert |f| == 8;
    assert f[4].literal == Literal.Dollar(m.text) && f[5].literal == Verbatim(JsonList(m.values));
    if AllBack(f) { assert ReadsBack(f[4].literal) && ReadsBack(f[5].literal); }
  }

  lemma PlacedAppend(a: seq<Field>, b: seq<Field>)
    requires AllPlaced(a) && AllPlaced(b) && a != [] && Gap(a[|a| - 1].after)
    ensures AllPlaced(a + b)
  {
    hide Placed;
    var c := a + b;
    forall k | 0 <= k < |c| ensures Placed(c[k]) && (k + 1 < |c| ==> Gap(c[k].after)) {
      if k < |a| { assert c[k] == a[k]; } else { assert c[k] == b[k - |a|]; }
    }
  }

  ghost predicate AllBack(fields: seq<Field>) { forall k | 0 <= k < |fields| :: ReadsBack(fields[k].literal) }

  lemma {:induction false} AllFieldsPlaced(messages: seq<Message>, version: int)
    requires messages != []
    ensures AllPlaced(AllFields(messages, version))
    ensures AllBack(AllFields(messages, version)) ==> forall k | 0 <= k < |messages| :: Printable(messages[k])
    decreases |messages|
  {
    hide MessageFields, Printable, Safe, ReadsBack, AllPlaced;
    SafeTails();
    if |messages| == 1 {
      MessageFieldsPlaced(messages[0], version, MESSAGES_TAIL);
      EightFields(messages[0], version, MESSAGES_TAIL);
    } else {
      var after := ",\n    (";
      MessageFieldsPlaced(messages[0], version, after);
      EightFields(messages[0], version, after);
      AllFieldsPlaced(messages[1..], version);
      assert Gap(")" + after);
      var first, rest := MessageFields(messages[0], version, after), AllFields(messages[1..], version);
      PlacedAppend(first, rest);
      FirstAndRest(first, rest);
      hide AllBack;
      forall k | 0 <= k < |messages| && AllBack(first + rest) ensures Printable(messages[k]) {
        if k > 0 { assert messages[1..][k - 1] == messages[k]; }
      }
    }
  }

  lemma FirstAndRest(first: seq<Field>, rest: seq<Field>)
    ensures AllBack(first + rest) ==> AllBack(first) && AllBack(rest)
  {
    hide ReadsBack;
    var all := first + rest;
    assert forall k | 0 <= k < |first| :: all[k] == first[k];
    assert forall k | 0 <= k < |rest| :: all[|first| + k] == rest[k];
  }

  lemma FixedSafe()
    ensures Safe(", ") && Gap(", ") && Safe("::jsonb, true, ") && Gap("::jsonb, true, ")
  {
  }

  lemma MessageFieldsReadable(m: Message, version: int, after: string)
    requires Printable(m) && Safe(")" + after)
    ensures Readable(MessageFields(m, version, after))
  {
    hide Decimal, EndsInTag, JsonList, Safe, Gap;
    DecimalSafe(version);
    JsonListPlain(m.values);
    FixedSafe();
  }

  lemma {:induction false} AllFieldsReadable(messages: seq<Message>, version: int)
    requires messages != [] && forall k | 0 <= k < |messages| :: Printable(messages[k])
    ensures AllFields(messages, version) != [] && Readable(AllFields(messages, version))
    decreases |messages|
  {
    hide MessageFields, Printable, Safe, ReadsBack;
    SafeTails();
    if |messages| == 1 {
      MessageFieldsReadable(messages[0], version, MESSAGES_TAIL);
      EightFields(messages[0], version, MESSAGES_TAIL);
    } else {
      var after := ",\n    (";
      MessageFieldsReadable(messages[0], version, after);
      EightFields(messages[0], version, after);
      AllFieldsReadable(messages[1..], version);
      assert Gap(")" + after);
      ReadableAppend(MessageFields(messages[0], version, after), AllFields(messages[1..], version));
    }
  }

  /** Letters, digits' neighbours and the few signs of the fixed parts. */
  predicate Words(t: string) {
    forall k | 0 <= k < |t| :: IsLetter(t[k]) || t[k] in " \n(),._"
  }

  lemma WordsAppend(a: string, b: string)
    requires Words(a) && Words(b)
    ensures Words(a + b) && Safe(a + b)
  {
  }

  lemma SafeTails()
    ensures Safe(")" + MESSAGES_TAIL) && Safe(")" + ",\n    (") && Gap(")" + ",\n    (")
    ensures Safe(MESSAGES_HEAD + "    (") && Gap(MESSAGES_HEAD + "    (")
  {
    hide Words, Safe;
    var a, b := "INSERT INTO public.system_messages\n", "    (key, locale, scope, scope_ref, ";
    var c, d := "version, body, variables, is_active, ", "note, created_by)\nVALUES\n";
    var e, f := "\nON CONFLICT (key, locale, scope, ", "scope_ref, version) DO NOTHING";
    WordLiterals();
    WordsAppend(a, b);
    WordsAppend(a + b, c);
    WordsAppend(a + b + c, d);
    WordsAppend(a + b + c + d, "    (");
    WordsAppend(e, f);
    WordsAppend(")", e + f);
    WordsAppend(")", ",\n    (");
  }

  lemma WordLiterals()
    ensures Words("INSERT INTO public.system_messages\n") && Words("    (key, locale, scope, scope_ref, ")
    ensures Words("version, body, variables, is_active, ") && Words("note, created_by)\nVALUES\n")
    ensures Words("\nON CONFLICT (key, locale, scope, ") && Words("scope_ref, version) DO NOTHING")
    ensures Words(")") && Words("    (") && Words(",\n    (")
  {
    hide Words;
    HeadLiterals();
    MiddleLiterals();
    TailLiterals();
  }

  lemma HeadLiterals()
    ensures Words("INSERT INTO public.system_messages\n") && Words("    (key, locale, scope, scope_ref, ")
  {
  }

  lemma MiddleLiterals()
    ensures Words("version, body, variables, is_active, ") && Words("note, created_by)\nVALUES\n")
  {
  }

  lemma TailLiterals()
    ensures Words("\nON CONFLICT (key, locale, scope, ") && Words("scope_ref, version) DO NOTHING")
    ensures Words(")") && Words("    (") && Words(",\n    (")
  {
  }

  lemma EightFields(m: Message, version: int, after: string)
    ensures |MessageFields(m, version, after)| == 8 && MessageFields(m, version, after)[7].after == ")" + after
  {
  }

  lemma ReadableAppend(a: seq<Field>, b: seq<Field>)
    requires Readable(a) && Readable(b) && a != [] && Gap(a[|a| - 1].after)
    ensures Readable(a + b)
  {
    hide Safe, ReadsBack;
    var c := a + b;
    forall k | 0 <= k < |c|
      ensures ReadsBack(c[k].literal) && Safe(c[k].after) && c[k].after != "" && (k + 1 < |c| ==> Gap(c[k].after))
    {
      if k < |a| { assert c[k] == a[k]; } else { assert c[k] == b[k - |a|]; }
    }
  }

  /** Printed SQL reads back exactly when it can: the INSERT with any number of messages is one statement for the
      migration lexer whose literals decode to the keys, texts and lists it was printed from, in order, if and only
      if no text ends in its tag and no value name holds a quote. */
  lemma {:induction false} MessagesReadBack(messages: seq<Message>, version: int)
    requires messages != []
    ensures var sql := MessagesSql(messages, version);
            (Split(sql).Ok? && |Split(sql).value| == 1 && Literals(CLEAN, sql) == Rowwise(messages))
            <==> forall k | 0 <= k < |messages| :: Printable(messages[k])
  {
    RowwiseIs(messages, version);
    hide Split, Literals, Print, Printable, MessageFields, AllFields, Values, Safe, MessagesSql, Readable, Gap;
    var sql := MessagesSql(messages, version);
    SafeTails();
    MessagesPrint(messages, version);
    if forall k | 0 <= k < |messages| :: Printable(messages[k]) {
      AllFieldsReadable(messages, version);
      DocumentReads(MESSAGES_HEAD + "    (", AllFields(messages, version));
    } else if Literals(CLEAN, sql) == Values(AllFields(messages, version)) {
      OnlyPrintable(messages, version);
    }
  }

  /** The values of a row in the order of the columns, as they are to be in the table. */
  function Row(m: Message): seq<Reading> {
    [Decoded(m.key), Decoded("en-IN"), Decoded("global"), Decoded(""), Decoded(m.text), Decoded(JsonList(m.values)),
     Decoded("Standard wording"), Decoded("seed")]
  }

  function Rowwise(messages: seq<Message>): seq<Reading> {
    if messages == [] then [] else Row(messages[0]) + Rowwise(messages[1..])
  }

  lemma ValuesJoin(a: seq<Field>, b: seq<Field>)
    ensures Values(a + b) == Values(a) + Values(b)
  {
  }

  lemma {:induction false} RowwiseIs(messages: seq<Message>, version: int)
    requires messages != []
    ensures Values(AllFields(messages, version)) == Rowwise(messages)
  {
    hide Values, MessageFields, Row;
    if |messages| == 1 {
      RowIs(messages[0], version, MESSAGES_TAIL);
      assert Rowwise(messages[1..]) == [];
      assert Row(messages[0]) + [] == Row(messages[0]);
    } else {
      RowIs(messages[0], version, ",\n    (");
      RowwiseIs(messages[1..], version);
      ValuesJoin(MessageFields(messages[0], version, ",\n    ("), AllFields(messages[1..], version));
    }
  }

  lemma RowIs(m: Message, version: int, after: string)
    ensures Values(MessageFields(m, version, after)) == Row(m)
  {
    hide JsonList, Decimal;
  }

  lemma OnlyPrintable(messages: seq<Message>, version: int)
    requires messages != [] && Literals(CLEAN, MessagesSql(messages, version)) == Values(AllFields(messages, version))
    ensures forall k | 0 <= k < |messages| :: Printable(messages[k])
  {
    hide Seg, Literals, Print, Printable, MessageFields, AllFields, Values, Safe, MessagesSql, Gap, AllPlaced,
        ReadsBack;
    var head, fields := MESSAGES_HEAD + "    (", AllFields(messages, version);
    SafeTails();
    MessagesPrint(messages, version);
    PlainReads(CLEAN, head, Print(fields) + ";\n");
    GapIsClean(CLEAN, head);
    assert MessagesSql(messages, version) == head + (Print(fields) + ";\n");
    AllFieldsPlaced(messages, version);
    PrintExact(fields, ";\n");
  }

  lemma MessagesPrint(messages: seq<Message>, version: int)
    requires messages != []
    ensures MessagesSql(messages, version) == MESSAGES_HEAD + "    (" + Print(AllFields(messages, version)) + ";\n"
  {
    hide Print, AllFields, MessageRow;
    AllFieldsPrint(messages, version);
    var body := Print(AllFields(messages, version));
    assert MESSAGES_HEAD + "    (" + body == MESSAGES_HEAD + ("    (" + body);
    var joined := Join(",\n", Rows(messages, version));
    assert MESSAGES_HEAD + joined + MESSAGES_TAIL == MESSAGES_HEAD + (joined + MESSAGES_TAIL);
  }
}
