// check_file of tools/migrate.py: what a migration file may not say. The checks look at the code of the
// statements only, so nothing written in a comment or between quotes can decide them.
module CheckFile {
  import opened Wrappers
  import opened Chars
  import opened Lexer
  import opened Locality
  import opened Resplit

  datatype Flags = Flags(noTransaction: bool, allowDestructive: bool)

  datatype Rule = DropObject | DropColumn | Rename | Truncate

  datatype Refusal = OpensTransaction(word: string) | Concurrent | Destructive(rule: Rule)

  datatype Verdict = Accepted | Refused(why: Refusal) | Unreadable(error: LexError)

  // ---- the text a check looks at: upper case, single spaces

  // Upper case outside ASCII is left open: it may be several characters.
  const OTHER_UPPER: map<char, string>

  function UpperChar(c: char): string {
    if 'a' <= c <= 'z' then [c - 'a' + 'A']
    else if 128 <= c as int && !IsSpace(c) && c in OTHER_UPPER then OTHER_UPPER[c]
    else [c]
  }

  function Upper(s: string): string {
    if s == "" then "" else UpperChar(s[0]) + Upper(s[1..])
  }

  function WordRun(s: string): (n: nat)
    ensures n <= |s|
  {
    if s == "" || IsSpace(s[0]) then 0 else 1 + WordRun(s[1..])
  }

  /** Python's s.split(). */
  function Words(s: string): seq<string>
    decreases |s|
  {
    var l := LStrip(s);
    if l == "" then [] else
    LStripShorter(s);
    [l[..WordRun(l)]] + Words(l[WordRun(l)..])
  }

  lemma LStripShorter(s: string)
    ensures |LStrip(s)| <= |s|
    ensures LStrip(s) != "" ==> WordRun(LStrip(s)) > 0
  {
    LStripParts(s);
  }

  function Normal(code: string): string { Join(" ", Words(Upper(code))) }

  // ---- the checks

  const TRANSACTION_WORDS: set<string> := {"BEGIN", "START", "COMMIT", "END", "ROLLBACK", "ABORT"}
  const DROPPED: seq<string> := ["TABLE", "COLUMN", "SCHEMA", "DATABASE", "EXTENSION"]
  const DROPPABLE: seq<string> := ["CONSTRAINT", "DEFAULT", "NOT NULL", "IDENTITY", "EXPRESSION"]
  const RULES: seq<Rule> := [DropObject, DropColumn, Rename, Truncate]

  /** A word boundary of Python's re. */
  predicate Boundary(t: string, i: nat) {
    (0 < i <= |t| && WordChar(t[i - 1])) != (i < |t| && WordChar(t[i]))
  }

  predicate WordChar(c: char) { IsAlnum(c) || c == '_' }

  /** The word stands at i, with a boundary after it. */
  predicate WordAt(t: string, i: nat, word: string) {
    StartsAt(t, i, word) && Boundary(t, i + |word|)
  }

  predicate Whole(t: string, word: string) {
    exists i | 0 <= i < |t| :: Boundary(t, i) && WordAt(t, i, word)
  }

  predicate DropsAt(t: string, j: nat) { Boundary(t, j) && StartsAt(t, j, "DROP ") }

  predicate Breaks(t: string, rule: Rule) {
    match rule
    case DropObject =>
      exists i | 0 <= i < |t| :: DropsAt(t, i) && exists w | w in DROPPED :: WordAt(t, i + 5, w)
    case DropColumn =>
      exists i | 0 <= i < |t| :: Boundary(t, i) && WordAt(t, i, "ALTER TABLE") &&
        exists j | i + 11 <= j < |t| :: ';' !in t[i + 11..j] && DropsAt(t, j) &&
          forall w | w in DROPPABLE :: !WordAt(t, j + 5, w)
    case Rename => Whole(t, "RENAME")
    case Truncate => Whole(t, "TRUNCATE")
  }

  function FirstWord(t: string): string {
    t[..Find(t, " ", 0)]
  }

  predicate Contains(t: string, part: string)
    requires part != ""
  {
    Find(t, part, 0) < |t|
  }

  function FirstBroken(t: string, rules: seq<Rule>): Option<Refusal> {
    if rules == [] then None
    else if Breaks(t, rules[0]) then Some(Destructive(rules[0]))
    else FirstBroken(t, rules[1..])
  }

  /** What is wrong with the code of one statement, if anything. */
  function Wrong(code: string, flags: Flags): Option<Refusal> {
    var t := Normal(code);
    if FirstWord(t) in TRANSACTION_WORDS then Some(OpensTransaction(FirstWord(t)))
    else if Contains(t, "CONCURRENTLY") && !flags.noTransaction then Some(Concurrent)
    else if flags.allowDestructive then None
    else FirstBroken(t, RULES)
  }

  // ---- what the checks are to refuse, said of the text alone

  predicate InWord(c: char) { IsAlnum(c) || c == '_' }

  /** A whole word or phrase stands at i. */
  predicate Stands(t: string, i: nat, w: string) {
    && i + |w| <= |t| && t[i..i + |w|] == w
    && (i > 0 ==> !InWord(t[i - 1])) && (i + |w| < |t| ==> !InWord(t[i + |w|]))
  }

  predicate Drops(t: string, i: nat) { Stands(t, i, "DROP") && i + 4 < |t| && t[i + 4] == ' ' }

  /** What each rule is about: DROP TABLE and the like, a column dropped by ALTER TABLE, RENAME, TRUNCATE. */
  ghost predicate Says(t: string, rule: Rule) {
    match rule
    case DropObject =>
      exists i: nat :: Drops(t, i) && (Stands(t, i + 5, "TABLE") || Stands(t, i + 5, "COLUMN")
        || Stands(t, i + 5, "SCHEMA") || Stands(t, i + 5, "DATABASE") || Stands(t, i + 5, "EXTENSION"))
    case DropColumn =>
      exists i: nat, j: nat :: Stands(t, i, "ALTER TABLE") && Drops(t, j) && i + 11 <= j && ';' !in t[i + 11..j]
        && !(Stands(t, j + 5, "CONSTRAINT") || Stands(t, j + 5, "DEFAULT") || Stands(t, j + 5, "NOT NULL")
             || Stands(t, j + 5, "IDENTITY") || Stands(t, j + 5, "EXPRESSION"))
    case Rename => exists i: nat :: Stands(t, i, "RENAME")
    case Truncate => exists i: nat :: Stands(t, i, "TRUNCATE")
  }

  predicate Begins(t: string, w: string) { t == w || (|w| < |t| && t[..|w|] == w && t[|w|] == ' ') }

  predicate OpensOrCloses(t: string) {
    Begins(t, "BEGIN") || Begins(t, "START") || Begins(t, "COMMIT")
    || Begins(t, "END") || Begins(t, "ROLLBACK") || Begins(t, "ABORT")
  }

  ghost predicate Names(t: string, w: string) { exists i: nat :: StartsAt(t, i, w) }

  /** A statement that may be in a file with these flags. */
  ghost predicate Passes(code: string, flags: Flags) {
    var t := Normal(code);
    && !OpensOrCloses(t)
    && (flags.noTransaction || !Names(t, "CONCURRENTLY"))
    && (flags.allowDestructive || forall rule :: !Says(t, rule))
  }

  /** The order in which the rules are looked at. */
  function Place(rule: Rule): nat {
    match rule
    case DropObject => 0
    case DropColumn => 1
    case Rename => 2
    case Truncate => 3
  }

  /** A refusal that tells what is wrong with a statement, first of all. */
  ghost predicate Explains(why: Refusal, code: string, flags: Flags) {
    var t := Normal(code);
    match why
    case OpensTransaction(w) => OpensOrCloses(t) && Begins(t, w)
    case Concurrent => !OpensOrCloses(t) && !flags.noTransaction && Names(t, "CONCURRENTLY")
    case Destructive(rule) =>
      && !OpensOrCloses(t) && (flags.noTransaction || !Names(t, "CONCURRENTLY"))
      && !flags.allowDestructive && Says(t, rule) && forall r | Place(r) < Place(rule) :: !Says(t, r)
  }

  lemma WholeIs(t: string, i: nat, w: string)
    requires i < |t| && w != "" && InWord(w[0]) && InWord(w[|w| - 1])
    ensures Boundary(t, i) && WordAt(t, i, w) <==> Stands(t, i, w)
  {
    if StartsAt(t, i, w) { PartEnds(t, i, w); }
  }

  lemma PartEnds(t: string, i: nat, w: string)
    requires w != "" && StartsAt(t, i, w)
    ensures t[i] == w[0] && t[i + |w| - 1] == w[|w| - 1]
  {
    assert t[i] == t[i..i + |w|][0] && t[i + |w| - 1] == t[i..i + |w|][|w| - 1];
  }

  lemma AfterGap(t: string, i: nat, w: string)
    requires 0 < i <= |t| && !InWord(t[i - 1]) && w != "" && InWord(w[|w| - 1])
    ensures WordAt(t, i, w) <==> Stands(t, i, w)
  {
    if StartsAt(t, i, w) { PartEnds(t, i, w); }
  }

  lemma DropsIs(t: string, i: nat)
    requires i < |t|
    ensures DropsAt(t, i) <==> Drops(t, i)
  {
    DropSpace(t, i, "DROP", "DROP ");
  }

  lemma DropSpace(t: string, i: nat, d: string, ds: string)
    requires i < |t| && |d| == 4 && InWord(d[0]) && InWord(d[3]) && ds == d + " "
    ensures Boundary(t, i) && StartsAt(t, i, ds) <==> Stands(t, i, d) && i + 4 < |t| && t[i + 4] == ' '
  {
    if StartsAt(t, i, ds) {
      assert t[i..i + 4] == t[i..i + 5][..4] == d && t[i + 4] == t[i..i + 5][4];
      PartEnds(t, i, d);
    }
    if Stands(t, i, d) && i + 4 < |t| && t[i + 4] == ' ' {
      PartEnds(t, i, d);
      assert t[i..i + 5] == t[i..i + 4] + [t[i + 4]];
    }
  }

  lemma DropObjectIs(t: string)
    ensures Breaks(t, DropObject) <==> Says(t, DropObject)
  {
    hide WordAt, Stands, DropsAt, Drops;
    forall i: nat | i < |t|
      ensures DropsAt(t, i) <==> Drops(t, i)
      ensures Drops(t, i) ==> forall w | w in DROPPED :: WordAt(t, i + 5, w) <==> Stands(t, i + 5, w)
    {
      DropsIs(t, i);
      if Drops(t, i) { forall w | w in DROPPED ensures WordAt(t, i + 5, w)
          <==> Stands(t, i + 5, w) { GapHere(t, i, w); } }
    }
    forall i: nat | Drops(t, i) ensures i < |t| { GapEnd(t, i); }
    assert DROPPED[0] == "TABLE" && DROPPED[1] == "COLUMN" && DROPPED[2] == "SCHEMA" && DROPPED[3] == "DATABASE"
      && DROPPED[4] == "EXTENSION";
    assert "TABLE" in DROPPED && "COLUMN" in DROPPED && "SCHEMA" in DROPPED && "DATABASE" in DROPPED
        && "EXTENSION" in DROPPED;
  }

  lemma GapEnd(t: string, i: nat)
    requires Drops(t, i)
    ensures i + 5 <= |t|
  {
  }

  lemma GapHere(t: string, i: nat, w: string)
    requires Drops(t, i) && w != "" && InWord(w[|w| - 1])
    ensures WordAt(t, i + 5, w) <==> Stands(t, i + 5, w)
  {
    hide WordAt, Stands;
    AfterGap(t, i + 5, w);
  }

  lemma DropColumnIs(t: string)
    ensures Breaks(t, DropColumn) <==> Says(t, DropColumn)
  {
    hide WordAt, Stands, DropsAt, Drops, Boundary;
    var at := "ALTER TABLE";
    forall i: nat | i < |t| ensures Boundary(t, i) && WordAt(t, i, at) <==> Stands(t, i, at) { WholeIs(t, i, at); }
    forall j: nat | j < |t|
      ensures DropsAt(t, j) <==> Drops(t, j)
      ensures Drops(t, j) ==> forall w | w in DROPPABLE :: WordAt(t, j + 5, w) <==> Stands(t, j + 5, w)
    {
      DropsIs(t, j);
      if Drops(t, j) { forall w | w in DROPPABLE ensures WordAt(t, j + 5, w)
          <==> Stands(t, j + 5, w) { GapHere(t, j, w); } }
    }
    forall j: nat | Drops(t, j) ensures j < |t| { GapEnd(t, j); }
    assert DROPPABLE[0] == "CONSTRAINT" && DROPPABLE[1] == "DEFAULT" && DROPPABLE[2] == "NOT NULL"
      && DROPPABLE[3] == "IDENTITY" && DROPPABLE[4] == "EXPRESSION";
    assert "CONSTRAINT" in DROPPABLE && "DEFAULT" in DROPPABLE && "NOT NULL" in DROPPABLE && "IDENTITY" in DROPPABLE
      && "EXPRESSION" in DROPPABLE;
  }

  lemma StandsShort(t: string, i: nat, w: string)
    requires Stands(t, i, w) && w != ""
    ensures i < |t|
  {
  }

  lemma WordRuleIs(t: string, w: string)
    requires w != "" && InWord(w[0]) && InWord(w[|w| - 1])
    ensures Whole(t, w) <==> exists i: nat :: Stands(t, i, w)
  {
    hide WordAt, Stands, Boundary;
    forall i: nat | i < |t| ensures Boundary(t, i) && WordAt(t, i, w) <==> Stands(t, i, w) { WholeIs(t, i, w); }
    forall i: nat | Stands(t, i, w) ensures i < |t| { StandsShort(t, i, w); }
  }

  /** The patterns find just what the rules are about. */
  lemma BreaksIs(t: string, rule: Rule)
    ensures Breaks(t, rule) <==> Says(t, rule)
  {
    hide Whole, Stands, Breaks;
    match rule {
      case DropObject => DropObjectIs(t);
      case DropColumn => DropColumnIs(t);
      case Rename => RenameIs(t, "RENAME");
      case Truncate => TruncateIs(t, "TRUNCATE");
    }
  }

  lemma RenameIs(t: string, w: string)
    requires w == "RENAME"
    ensures Breaks(t, Rename) <==> Says(t, Rename)
  {
    hide Whole, Stands;
    WordRuleIs(t, w);
  }

  lemma TruncateIs(t: string, w: string)
    requires w == "TRUNCATE"
    ensures Breaks(t, Truncate) <==> Says(t, Truncate)
  {
    hide Whole, Stands;
    WordRuleIs(t, w);
  }

  lemma {:induction false} FirstBrokenIs(t: string, rules: seq<Rule>)
    ensures FirstBroken(t, rules).None? <==> forall rule | rule in rules :: !Says(t, rule)
    ensures FirstBroken(t, rules).Some? ==>
              var why := FirstBroken(t, rules).value;
              why.Destructive? && exists k :: 0 <= k < |rules| && rules[k] == why.rule && Says(t, rules[k])
                                              && forall j | 0 <= j < k :: !Says(t, rules[j])
  {
    hide Breaks, Says;
    if rules != [] {
      BreaksIs(t, rules[0]);
      var more := rules[1..];
      FirstBrokenIs(t, more);
      assert rules == [rules[0]] + more;
      assert forall k | 0 <= k < |more| :: more[k] == rules[k + 1];
    }
  }

  lemma FirstWordIs(t: string, w: string)
    requires ' ' !in w
    ensures FirstWord(t) == w <==> Begins(t, w)
  {
    var n := Find(t, " ", 0);
    if n < |t| { assert t[n] == t[n..n + 1][0]; }
    if Begins(t, w) && t != w {
      assert StartsAt(t, |w|, " ");
      forall k | 0 <= k < |w| ensures !StartsAt(t, k, " ") {
        assert t[..|w|][k] == t[k] && t[k..k + 1][0] == t[k];
      }
      FindIs(t, " ", 0, |w|);
    } else if t == w {
      forall k | 0 <= k < |t| ensures !StartsAt(t, k, " ") { assert t[k..k + 1][0] == t[k]; }
      FindIs(t, " ", 0, |t|);
    }
  }

  lemma OpensIs(t: string)
    ensures FirstWord(t) in TRANSACTION_WORDS <==> OpensOrCloses(t)
    ensures Begins(t, FirstWord(t))
  {
    hide FirstWord, Begins;
    FirstWordIs(t, "BEGIN");
    FirstWordIs(t, "START");
    FirstWordIs(t, "COMMIT");
    FirstWordIs(t, "END");
    FirstWordIs(t, "ROLLBACK");
    FirstWordIs(t, "ABORT");
    FirstWordPlain(t);
    FirstWordIs(t, FirstWord(t));
  }

  lemma FirstWordPlain(t: string)
    ensures ' ' !in FirstWord(t)
  {
    var n := Find(t, " ", 0);
    forall k | 0 <= k < n ensures t[k] != ' ' {
      assert !StartsAt(t, k, " ");
      assert t[k..k + 1] == [t[k]];
    }
  }

  lemma NamesIs(t: string, w: string)
    requires w != ""
    ensures Contains(t, w) <==> Names(t, w)
  {
    var e := Find(t, w, 0);
    if Names(t, w) {
      var i: nat :| StartsAt(t, i, w);
    }
  }

  lemma AllRules()
    ensures forall rule :: Place(rule) < |RULES| && RULES[Place(rule)] == rule
    ensures forall k | 0 <= k < |RULES| :: Place(RULES[k]) == k
  {
    assert RULES[0] == DropObject && RULES[1] == DropColumn && RULES[2] == Rename && RULES[3] == Truncate;
    forall rule: Rule ensures RULES[Place(rule)] == rule {
      match rule {
        case DropObject =>
        case DropColumn =>
        case Rename =>
        case Truncate =>
      }
    }
  }

  /** A statement is found wrong exactly when it may not be in the file, and for a reason that tells why. */
  lemma WrongIs(code: string, flags: Flags)
    ensures Wrong(code, flags).None? <==> Passes(code, flags)
    ensures Wrong(code, flags).Some? ==> Explains(Wrong(code, flags).value, code, flags)
  {
    hide Normal, FirstWord, Contains, FirstBroken, Says, Begins, Names, OpensOrCloses;
    var t := Normal(code);
    OpensIs(t);
    NamesIs(t, "CONCURRENTLY");
    FirstBrokenIs(t, RULES);
    AllRules();
    forall rule: Rule ensures rule in RULES { assert RULES[Place(rule)] == rule; }
    if forall rule | rule in RULES :: !Says(t, rule) {
      forall rule: Rule ensures !Says(t, rule) { assert rule in RULES; }
    }
  }

  function FirstWrong(codes: seq<string>, flags: Flags): Option<Refusal> {
    if codes == [] then None
    else if Wrong(codes[0], flags).Some? then Wrong(codes[0], flags)
    else FirstWrong(codes[1..], flags)
  }

  /** The checks over the statements of one file, as they are written: a loop that stops at the first refusal. */
  method Check(statements: seq<Statement>, flags: Flags) returns (r: Option<Refusal>)
    ensures r == FirstWrong(Codes(statements), flags)
    ensures r.None? <==> forall k | 0 <= k < |statements| :: Wrong(statements[k].code, flags).None?
    ensures r.None? <==> forall k | 0 <= k < |statements| :: Passes(statements[k].code, flags)
    ensures r.Some? ==> exists k :: 0 <= k < |statements| && Explains(r.value, statements[k].code, flags)
                                   && forall j | 0 <= j < k :: Passes(statements[j].code, flags)
  {
    hide Normal, FirstWord, Contains, FirstBroken, Passes, Explains;
    forall k | 0 <= k < |statements|
      ensures Wrong(statements[k].code, flags).None? <==> Passes(statements[k].code, flags)
      ensures Wrong(statements[k].code, flags).Some? ==>
                Explains(Wrong(statements[k].code, flags).value, statements[k].code, flags)
    {
      WrongIs(statements[k].code, flags);
    }
    ghost var codes := Codes(statements);
    var i := 0;
    while i < |statements|
      invariant 0 <= i <= |statements|
      invariant FirstWrong(codes, flags) == FirstWrong(codes[i..], flags)
      invariant forall k | 0 <= k < i :: Wrong(statements[k].code, flags).None?
    {
      var t := Normal(statements[i].code);
      assert codes[i..][0] == statements[i].code && codes[i..][1..] == codes[i + 1..];
      assert forall j | 0 <= j < i :: Passes(statements[j].code, flags);
      if FirstWord(t) in TRANSACTION_WORDS {
        return Some(OpensTransaction(FirstWord(t)));
      }
      if Contains(t, "CONCURRENTLY") && !flags.noTransaction {
        return Some(Concurrent);
      }
      if !flags.allowDestructive {
        var broken := CheckRules(t);
        if broken.Some? {
          return broken;
        }
      }
      i := i + 1;
    }
    r := None;
  }

  /** The inner loop, over the destructive patterns. */
  method CheckRules(t: string) returns (r: Option<Refusal>)
    ensures r == FirstBroken(t, RULES)
  {
    hide Breaks;
    var n := 0;
    while n < |RULES|
      invariant 0 <= n <= |RULES|
      invariant FirstBroken(t, RULES) == FirstBroken(t, RULES[n..])
    {
      assert RULES[n..][0] == RULES[n] && RULES[n..][1..] == RULES[n + 1..];
      if Breaks(t, RULES[n]) {
        return Some(Destructive(RULES[n]));
      }
      n := n + 1;
    }
    r := None;
  }

  /** What the tool says about a file with these flags. */
  function Judge(sql: string, flags: Flags): Verdict {
    match Split(sql)
    case Err(e) => Unreadable(e)
    case Ok(statements) =>
      match FirstWrong(Codes(statements), flags) case None => Accepted case Some(why) => Refused(why)
  }

  lemma {:induction false} FirstWrongIs(statements: seq<Statement>, flags: Flags)
    ensures var r := FirstWrong(Codes(statements), flags);
            && (r.None? <==> forall k | 0 <= k < |statements| :: Passes(statements[k].code, flags))
            && (r.Some? ==> exists k :: 0 <= k < |statements| && Explains(r.value, statements[k].code, flags))
  {
    hide Wrong, Passes, Explains;
    if statements != [] {
      WrongIs(statements[0].code, flags);
      var more := statements[1..];
      FirstWrongIs(more, flags);
      assert Codes(statements)[1..] == Codes(more) && Codes(statements)[0] == statements[0].code;
      assert forall k | 0 <= k < |more| :: more[k] == statements[k + 1];
      assert forall k | 0 < k < |statements| :: statements[k] == more[k - 1];
    }
  }

  /** A file is accepted exactly when it splits and each of its statements may be in it, and a refusal tells what is
      wrong with one of them: a destructive rule only without allow-destructive, CONCURRENTLY only without
      no-transaction. Setting a flag never turns an accepted file into a refused one. */
  lemma JudgedExactly(sql: string, flags: Flags, more: Flags)
    requires (flags.noTransaction ==> more.noTransaction) && (flags.allowDestructive ==> more.allowDestructive)
    ensures Judge(sql, flags) == Accepted
            <==> Split(sql).Ok? && forall k | 0 <= k < |Split(sql).value| :: Passes(Split(sql).value[k].code, flags)
    ensures Judge(sql, flags).Refused? ==> Split(sql).Ok? && exists k ::
              0 <= k < |Split(sql).value| && Explains(Judge(sql, flags).why, Split(sql).value[k].code, flags)
    ensures Judge(sql, flags).Refused? && Judge(sql, flags).why.Destructive? ==> !flags.allowDestructive
    ensures Judge(sql, flags).Refused? && Judge(sql, flags).why.Concurrent? ==> !flags.noTransaction
    ensures Judge(sql, flags) == Accepted ==> Judge(sql, more) == Accepted
    ensures Judge(sql, flags).Unreadable? <==> Split(sql).Err?
  {
    hide Split, FirstWrong, Normal, OpensOrCloses, Says, Names;
    if Split(sql).Ok? {
      FirstWrongIs(Split(sql).value, flags);
      FirstWrongIs(Split(sql).value, more);
    }
  }

  // ---- a change inside one comment or one quoted text

  /** t is s with one token changed, the one that starts at i: a comment, a quoted text or a quoted name that
      still closes at the same place, or such a change inside the body of a dollar quote with the same tag. */
  ghost predicate EditAt(g: Glue, s: string, t: string, i: nat)
    decreases |s|, 1
  {
    && i < |s| == |t|
    && s[..i] == t[..i]
    && match Scan(g, s)
       case Bad(_) => false
       case Semicolon => i > 0 && EditAt(CLEAN, s[1..], t[1..], i - 1)
       case Token(kind, n) =>
         if i == 0 then Scan(g, t) == Token(kind, n) && s[n..] == t[n..] && Inside(kind, s[..n], t[..n])
         else n <= i && EditAt(After(g, s[..n]), s[n..], t[n..], i - n)
  }

  ghost predicate Inside(kind: Kind, a: string, b: string)
    requires a != "" && b != ""
    decreases |a|, 0
  {
    match kind
    case Other => false
    case Dollar =>
      && IsDollarQuote(a) && IsDollarQuote(b)
      && a[..Tag(a).value] == b[..Tag(b).value]
      && exists j: nat :: EditAt(CLEAN, Body(a), Body(b), j)
    case _ => true
  }

  ghost predicate Edited(s: string, t: string) { exists i: nat :: EditAt(CLEAN, s, t, i) }

  ghost predicate SameCodes(a: Result<seq<Statement>>, b: Result<seq<Statement>>) {
    match (a, b)
    case (Ok(x), Ok(y)) => Codes(x) == Codes(y)
    case (Err(x), Err(y)) => x == y
    case _ => false
  }

  /** A changed token starts with the same delimiter in both texts. */
  lemma {:induction false} EditHead(g: Glue, s: string, t: string, i: nat)
    requires EditAt(g, s, t, i)
    ensures s[i] == t[i] && s[i] in "-/'\"$"
    decreases |s|
  {
    hide After;
    match Scan(g, s) {
      case Semicolon => EditHead(CLEAN, s[1..], t[1..], i - 1);
      case Token(kind, n) =>
        if i == 0 {
          FirstChar(g, s);
          FirstChar(g, t);
        } else {
          EditHead(After(g, s[..n]), s[n..], t[n..], i - n);
        }
    }
  }

  lemma FirstChar(g: Glue, s: string)
    requires s != "" && Scan(g, s).Token?
    ensures match Scan(g, s).kind
            case LineComment => s[0] == '-'
            case BlockComment => s[0] == '/'
            case Text => s[0] == '\''
            case Name => s[0] == '"'
            case Dollar => s[0] == '$'
            case Other => true
  {
    hide Find, CommentEnd, QuoteEnd, Tag;
    assert 2 <= |s| ==> s[0..2][0] == s[0];
  }

  /** The tokens before the changed one are not changed. */
  lemma EditKeeps(g: Glue, s: string, t: string, i: nat)
    requires EditAt(g, s, t, i) && i > 0 && Scan(g, s).Token?
    ensures Scan(g, t) == Scan(g, s) && Scan(g, s).len <= i && t[..Scan(g, s).len] == s[..Scan(g, s).len]
  {
    hide Find, CommentEnd, QuoteEnd, Tag, After, Scan;
    EditHead(g, s, t, i);
    var n := Scan(g, s).len;
    assert s == s[..i] + s[i..] && t == s[..i] + t[i..];
    if Scan(g, s) == Token(LineComment, i) { CommentStop(g, s); }
    ScanSame(g, s[..i], s[i..], t[i..]);
    assert s[..n] == s[..i][..n] && t[..n] == t[..i][..n];
  }

  lemma CommentStop(g: Glue, s: string)
    requires s != "" && Scan(g, s).Token? && Scan(g, s).kind == LineComment
    ensures var n := Scan(g, s).len; n < |s| ==> s[n] == '\n'
  {
    TokenEnd(g, s);
    var n := Scan(g, s).len;
    if n < |s| { assert s[n..n + 1] == "\n"; }
  }

  /** After a changed token the text goes on as before. */
  lemma AfterEdit(g: Glue, a: string, b: string, r: string, kind: Kind)
    requires a != "" && b != "" && |a| == |b| && kind != Other
    requires Scan(g, a + r) == Token(kind, |a|) && Scan(g, b + r) == Token(kind, |b|)
    ensures Seg(After(g, a), r) == Seg(After(g, b), r)
  {
    hide Seg;
    if kind == LineComment {
      CommentStop(g, a + r);
      if r != "" {
        assert (a + r)[|a|] == r[0];
        assert r == r[..1] + r[1..];
        SegSpace(After(g, a), r[..1], r[1..]);
        SegSpace(After(g, b), r[..1], r[1..]);
      } else {
        SemiStop(After(g, a), r);
        SemiStop(After(g, b), r);
      }
    } else {
      LastChar(g, a + r);
      LastChar(g, b + r);
      assert (a + r)[|a| - 1] == a[|a| - 1] && (b + r)[|b| - 1] == b[|b| - 1];
    }
  }

  lemma LastChar(g: Glue, s: string)
    requires s != "" && Scan(g, s).Token?
    ensures var c := s[Scan(g, s).len - 1];
            match Scan(g, s).kind
            case LineComment => true
            case BlockComment => c == '/'
            case Text => c == '\''
            case Name => c == '"'
            case Dollar => c == '$'
            case Other => true
  {
    hide Find, CommentEnd, QuoteEnd, Tag, StartsAt;
    if s[0] == '$' && !g.ident && Tag(s).Some? { TagLast(s, Tag(s).value); }
  }

  lemma TagLast(s: string, n: nat)
    requires 0 < n <= |s|
    ensures var e := Find(s, s[..n], n); e < |s| ==> e + n <= |s| && s[e + n - 1] == s[n - 1]
  {
    hide Find;
    var e := Find(s, s[..n], n);
    if e < |s| { assert s[e + n - 1] == s[e..e + n][n - 1] == s[..n][n - 1]; }
  }

  /** One segment with a change in it, or before it: the same code, and the same rest or a change in the rest. */
  lemma {:induction false} EditSeg(g: Glue, s: string, t: string, i: nat)
    requires EditAt(g, s, t, i)
    ensures Seg(g, s) == Seg(g, t)
    ensures Seg(g, s).Stop? ==> var m := Seg(g, s).len;
            s[m..] == t[m..] || (m < i && EditAt(CLEAN, s[m + 1..], t[m + 1..], i - m - 1))
    decreases |s|, 1
  {
    hide After, Shown, Seg, Scan;
    match Scan(g, s) {
      case Semicolon =>
        SemiHead(g, s);
        assert t[0] == t[..i][0] == s[..i][0] == s[0];
        SemiStop(g, s);
        SemiStop(g, t);
      case Token(kind, n) =>
        if i == 0 {
          assert s == s[..n] + s[n..] && t == t[..n] + s[n..];
          EditHere(g, s[..n], t[..n], s[n..], kind);
          SegTails(g, s, t, n);
        } else {
          EditKeeps(g, s, t, i);
          EditSeg(After(g, s[..n]), s[n..], t[n..], i - n);
          SegStep(g, s, kind, n);
          SegStep(g, t, kind, n);
          EditShift(g, s, t, i, n);
        }
    }
  }

  lemma SemiHead(g: Glue, s: string)
    requires s != ""
    ensures Scan(g, s) == Semicolon <==> s[0] == ';'
  {
  }

  lemma SegTails(g: Glue, s: string, t: string, n: nat)
    requires n <= |s| == |t| && s[n..] == t[n..] && s != "" && Scan(g, s).Token? && Scan(g, s).len == n
    ensures Seg(g, s).Stop? ==> s[Seg(g, s).len..] == t[Seg(g, s).len..]
  {
    hide After, Shown, Scan;
    if Seg(g, s).Stop? {
      var m := Seg(g, s).len;
      assert m >= n;
      assert s[m..] == s[n..][m - n..] && t[m..] == t[n..][m - n..];
    }
  }

  lemma EditShift(g: Glue, s: string, t: string, i: nat, n: nat)
    requires s != "" && Scan(g, s).Token? && Scan(g, s).len == n <= |s| == |t| && n <= i
    requires var next := Seg(After(g, s[..n]), s[n..]);
             next.Stop? ==> s[n..][next.len..] == t[n..][next.len..] ||
                            (next.len < i - n
                             && EditAt(CLEAN, s[n..][next.len + 1..], t[n..][next.len + 1..], i - n - next.len - 1))
    ensures Seg(g, s).Stop? ==> var m := Seg(g, s).len;
            s[m..] == t[m..] || (m < i && EditAt(CLEAN, s[m + 1..], t[m + 1..], i - m - 1))
  {
    hide After, Shown, Scan, EditAt, Seg;
    SegStep(g, s, Scan(g, s).kind, n);
    var next := Seg(After(g, s[..n]), s[n..]);
    if next.Stop? {
      var m := n + next.len;
      assert s[n..][next.len..] == s[m..] && t[n..][next.len..] == t[m..];
      if m < |s| { assert s[n..][next.len + 1..] == s[m + 1..] && t[n..][next.len + 1..] == t[m + 1..]; }
    }
  }

  /** The changed token itself is shown the same. */
  lemma EditHere(g: Glue, a: string, b: string, r: string, kind: Kind)
    requires a != "" && b != "" && |a| == |b|
    requires Scan(g, a + r) == Token(kind, |a|) && Scan(g, b + r) == Token(kind, |b|) && Inside(kind, a, b)
    ensures Seg(g, a + r) == Seg(g, b + r)
    decreases |a|, 0
  {
    hide After, Seg, Scan;
    AfterEdit(g, a, b, r, kind);
    SegCons(g, a, r, kind);
    SegCons(g, b, r, kind);
    if kind == Text || kind == Name { QuoteLength(g, a + r); }
    if kind == Dollar {
      var j: nat :| EditAt(CLEAN, Body(a), Body(b), j);
      EditSplit(Body(a), Body(b), j);
      InnerSame(Body(a), Body(b));
    }
    ShownSame(kind, a, b);
  }

  lemma InnerSame(a: string, b: string)
    requires SameCodes(Split(a), Split(b))
    ensures InnerCode(a) == InnerCode(b)
  {
    hide Split, Join;
  }

  lemma QuoteLength(g: Glue, s: string)
    requires s != "" && Scan(g, s).Token? && (Scan(g, s).kind == Text || Scan(g, s).kind == Name)
    ensures Scan(g, s).len >= 2
  {
    hide Find, CommentEnd, Tag;
  }

  lemma ShownSame(kind: Kind, a: string, b: string)
    requires a != "" && |a| == |b| && kind != Other && (kind == Text || kind == Name ==> |a| >= 2)
    requires kind == Dollar ==> IsDollarQuote(a) && IsDollarQuote(b) && a[..Tag(a).value] == b[..Tag(b).value]
                                && InnerCode(Body(a)) == InnerCode(Body(b))
    ensures Shown(kind, a) == Shown(kind, b)
  {
    hide Split, InnerCode, Tag, Body;
  }

  lemma {:induction false} EditSplit(s: string, t: string, i: nat)
    requires EditAt(CLEAN, s, t, i)
    ensures SameCodes(Split(s), Split(t))
    decreases |s|, 2
  {
    hide Seg, Strip, Scan, Split, Kept, SameCodes, EditAt, Codes;
    EditLength(s, t, i);
    EditSeg(CLEAN, s, t, i);
    var r := Seg(CLEAN, s);
    if r.Stop? {
      var m := r.len;
      if m < |s| {
        if s[m..] == t[m..] {
          assert s[m + 1..] == s[m..][1..] && t[m + 1..] == t[m..][1..];
          SameItself(Split(s[m + 1..]));
        } else {
          EditSplit(s[m + 1..], t[m + 1..], i - m - 1);
        }
      }
      SplitTogether(s, t, m);
    } else {
      SplitFails(s);
      SplitFails(t);
      SameItself(Split(s));
    }
  }

  lemma EditLength(s: string, t: string, i: nat)
    requires EditAt(CLEAN, s, t, i)
    ensures i < |s| == |t|
  {
    hide Scan;
  }

  lemma SameItself(a: Result<seq<Statement>>)
    ensures SameCodes(a, a)
  {
  }

  lemma SplitTogether(s: string, t: string, m: nat)
    requires |s| == |t| && Seg(CLEAN, s).Stop? && Seg(CLEAN, s) == Seg(CLEAN, t) && Seg(CLEAN, s).len == m
    requires m < |s| ==> SameCodes(Split(s[m + 1..]), Split(t[m + 1..]))
    ensures SameCodes(Split(s), Split(t))
  {
    hide Seg, Strip, Split, Kept;
    var code := Seg(CLEAN, s).code;
    SplitStep(s, m);
    SplitStep(t, m);
    if m < |s| {
      CodesKept(s[..m], t[..m], code, Split(s[m + 1..]), Split(t[m + 1..]));
    } else {
      CodesKept(s, t, code, Ok([]), Ok([]));
      assert Kept(s, code) + [] == Kept(s, code) && Kept(t, code) + [] == Kept(t, code);
    }
  }

  lemma SplitFails(s: string)
    requires Seg(CLEAN, s).Fail?
    ensures Split(s) == Err(Seg(CLEAN, s).error)
  {
  }

  lemma CodesKept(u: string, v: string, code: string, a: Result<seq<Statement>>, b: Result<seq<Statement>>)
    requires SameCodes(a, b)
    ensures a.Ok? && b.Ok? ==> Codes(Kept(u, code) + a.value) == Codes(Kept(v, code) + b.value)
  {
    hide Strip;
    if a.Ok? && b.Ok? {
      forall k | 0 <= k < |a.value| ensures a.value[k].code == b.value[k].code {
        assert Codes(a.value)[k] == Codes(b.value)[k];
      }
      assert |a.value| == |Codes(a.value)| == |Codes(b.value)| == |b.value|;
    }
  }

  /** The keyword checks see only code: for fixed flags, a change inside a comment or a quoted text that still
      closes at the same place never changes what the tool says about a file. */
  lemma ChecksSeeOnlyCode(s: string, t: string, flags: Flags)
    requires Edited(s, t)
    ensures Judge(s, flags) == Judge(t, flags)
  {
    var i: nat :| EditAt(CLEAN, s, t, i);
    EditSplit(s, t, i);
  }

  /** A line comment stays one while no line end is written into it. */
  lemma LineCommentMayChange(g: Glue, a: string, b: string, r: string)
    requires a != "" && Scan(g, a + r) == Token(LineComment, |a|)
    requires |b| == |a| && StartsAt(b, 0, "--") && '\n' !in b
    ensures Scan(g, b + r) == Token(LineComment, |a|)
  {
    CommentStop(g, a + r);
    var y := b + r;
    assert y[0..2] == b[0..2] == "--";
    forall k | 0 <= k < |b| ensures !StartsAt(y, k, "\n") {
      assert y[k..k + 1] == [b[k]];
    }
    if r != "" {
      assert (a + r)[|a|] == r[0];
      assert y[|b|..|b| + 1] == [r[0]];
    }
    FindIs(y, "\n", 0, |b|);
    LineLength(g, y);
  }

  /** A quoted text stays one while no quote and no backslash is written into it. */
  lemma TextMayChange(g: Glue, a: string, b: string, r: string)
    requires a != "" && Scan(g, a + r) == Token(Text, |a|)
    requires |b| == |a| && b[0] == '\'' && b[|b| - 1] == '\'' && forall k | 0 < k < |b| - 1 :: b[k] !in "'\\"
    ensures Scan(g, b + r) == Token(Text, |a|)
  {
    hide Find, CommentEnd, Tag;
    var x, y := a + r, b + r;
    QuoteLength(g, x);
    FirstChar(g, x);
    assert x[0..2][0] == '\'' && y[0..2][0] == '\'';
    assert r != "" ==> x[|a|] == r[0];
    PlainQuote(y, 1, |b|, g.escape);
  }

  lemma {:induction false} PlainQuote(y: string, j: nat, n: nat, escapes: bool)
    requires 1 <= j < n <= |y| && y[n - 1] == '\'' && (n < |y| ==> y[n] != '\'')
    requires forall k | j <= k < n - 1 :: y[k] !in "'\\"
    ensures QuoteEnd(y, j, '\'', escapes) == Some(n)
    decreases n - j
  {
    if j < n - 1 { PlainQuote(y, j + 1, n, escapes); }
  }

  // ---- the checks say the same about a text that was split and joined again

  lemma {:induction false} UpperAppend(a: string, b: string)
    ensures Upper(a + b) == Upper(a) + Upper(b)
  {
    if a == "" {
      assert a + b == b;
    } else {
      assert (a + b)[1..] == a[1..] + b;
      UpperAppend(a[1..], b);
    }
  }

  lemma {:induction false} UpperBlank(w: string)
    requires Blank(w)
    ensures Upper(w) == w
  {
    if w != "" { UpperBlank(w[1..]); }
  }

  lemma {:induction false} RunThenSpace(l: string, v: string)
    requires Blank(v)
    ensures WordRun(l + v) == WordRun(l)
  {
    if l == "" {
      assert l + v == v;
    } else {
      assert (l + v)[1..] == l[1..] + v;
      RunThenSpace(l[1..], v);
    }
  }

  lemma {:induction false} WordsTrail(y: string, v: string)
    requires Blank(v)
    ensures Words(y + v) == Words(y)
    decreases |y|
  {
    hide Upper;
    var l := LStrip(y);
    LStripAppend(y, v);
    BlankStrip(y);
    BlankStrip(v);
    if l != "" {
      LStripShorter(y);
      RunThenSpace(l, v);
      var n := WordRun(l);
      assert (l + v)[n..] == l[n..] + v && (l + v)[..n] == l[..n];
      WordsTrail(l[n..], v);
    }
  }

  lemma NormalOfStrip(c: string)
    ensures Normal(c) == Normal(Strip(c))
  {
    hide Words, Upper;
    LStripParts(c);
    var l := LStrip(c);
    var w, m := c[..|c| - |l|], Strip(c);
    RStripParts(l);
    var v := l[|m|..];
    assert c == w + l && l == m + v;
    UpperAppend(w, l);
    UpperAppend(m, v);
    UpperBlank(w);
    UpperBlank(v);
    WordsLead(w, Upper(l));
    WordsTrail(Upper(m), v);
  }

  lemma WordsLead(w: string, x: string)
    requires Blank(w)
    ensures Words(w + x) == Words(x)
  {
    LStripAppend(w, x);
  }

  lemma {:induction false} SameWrong(a: seq<Statement>, b: seq<Statement>, flags: Flags)
    requires SameStatements(a, b)
    ensures FirstWrong(Codes(a), flags) == FirstWrong(Codes(b), flags)
  {
    hide Normal, Breaks, FirstWord, Contains;
    if a != [] {
      NormalOfStrip(a[0].code);
      NormalOfStrip(b[0].code);
      assert Codes(a)[1..] == Codes(a[1..]) && Codes(b)[1..] == Codes(b[1..]);
      SameWrong(a[1..], b[1..], flags);
    }
  }

  /** What the tool says about a file, it says about the file split and joined again. */
  lemma {:induction false} JudgeOfJoined(s: string, flags: Flags)
    requires Split(s).Ok?
    ensures Judge(Join(BETWEEN, Texts(Split(s).value)), flags) == Judge(s, flags)
  {
    hide Split;
    SplittingIsStable(s);
    SameWrong(Split(s).value, Split(Join(BETWEEN, Texts(Split(s).value))).value, flags);
  }
}
