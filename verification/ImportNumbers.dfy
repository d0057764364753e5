// clean_number of app/admin_panel/people_import.py: a phone number the way the chat bot knows it.
module ImportNumbers {
  import opened Chars

  // Digits outside ASCII are left open.
  const OTHER_DIGITS: set<char>

  predicate Decimal(c: char) { '0' <= c <= '9' || (128 <= c as int && !IsSpace(c) && c in OTHER_DIGITS) }

  predicate AllDecimal(s: string) { forall i | 0 <= i < |s| :: Decimal(s[i]) }

  /** Characters people put between digits. */
  predicate Between(c: char) { IsSpace(c) || c in "().-" }

  function Bare(s: string): string {
    if s == "" then "" else (if Between(s[0]) then "" else [s[0]]) + Bare(s[1..])
  }

  function Decimals(s: string): string {
    if s == "" then "" else (if Decimal(s[0]) then [s[0]] else "") + Decimals(s[1..])
  }

  datatype Number = Number(text: string) | NeedsCountry | NotANumber

  predicate Proper(text: string) { text != "" && text[0] == '+' && 9 <= |text| <= 16 && AllDecimal(text[1..]) }

  /** The number with its plus sign, as far as the country code from the screen can tell. */
  function Plus(text: string, code: string): string {
    var t := if |text| >= 2 && text[..2] == "00" then "+" + text[2..] else text;
    if code != "" && |t| == 10 && AllDecimal(t) then "+" + code + t
    else if code != "" && |t| == 11 && t[0] == '0' && AllDecimal(t) then "+" + code + t[1..]
    else if code != "" && |t| == |code| + 10 && t[..|code|] == code && AllDecimal(t[|code|..]) then "+" + t
    else t
  }

  function Clean(raw: string, country: string): Number {
    var code := Decimals(country);
    var text := Plus(Bare(raw), code);
    if Proper(text) then Number(text) else if code == "" then NeedsCountry else NotANumber
  }

  lemma {:induction false} BareKeeps(s: string)
    requires forall i | 0 <= i < |s| :: !Between(s[i])
    ensures Bare(s) == s
  {
    if s != "" { BareKeeps(s[1..]); }
  }

  lemma {:induction false} DecimalsAre(s: string)
    ensures AllDecimal(Decimals(s))
  {
    if s != "" { DecimalsAre(s[1..]); }
  }

  lemma {:induction false} DecimalsKeep(s: string)
    requires AllDecimal(s)
    ensures Decimals(s) == s
  {
    if s != "" { DecimalsKeep(s[1..]); }
  }

  /** A clean number cleaned again, with any country, is itself; so the plan and the saving see the same number. */
  lemma CleanTwice(raw: string, country: string, other: string)
    requires Clean(raw, country).Number?
    ensures var n := Clean(raw, country).text; Proper(n) && Clean(n, other) == Number(n)
  {
    hide Plus, Bare, Decimals, Decimal;
    var n := Clean(raw, country).text;
    DecimalsAre(other);
    Spelled(n);
    PlusKeeps(n, Decimals(other));
  }

  /** However a ten-digit number is written - alone, with a leading 0, with the country code, with + or 00 before
      that - it is one number, as long as neither it nor the code begins with 0. */
  lemma SpellingsAgree(n: string, country: string)
    requires |n| == 10 && AllDecimal(n) && n[0] != '0'
    requires var code := Decimals(country); 1 <= |code| <= 5 && code[0] != '0'
    ensures var code := Decimals(country); var whole := Number("+" + code + n);
            && Clean(n, country) == whole && Clean("0" + n, country) == whole && Clean(code + n, country) == whole
            && Clean("+" + code + n, country) == whole && Clean("00" + code + n, country) == whole
  {
    hide Decimals, Decimal, AllDecimal, Clean, Plus, Bare, Proper;
    var code := Decimals(country);
    DecimalsAre(country);
    Joined(code, n);
    var whole := "+" + code + n;
    Alone(n, code);
    CleanGives(n, country, whole);
    WithZero(n, code);
    CleanGives("0" + n, country, whole);
    WithCode(n, code);
    CleanGives(code + n, country, whole);
    PlusKeeps(whole, code);
    CleanGives(whole, country, whole);
    PlusOf(code + n, code);
    assert "+" + (code + n) == whole && "00" + (code + n) == "00" + code + n;
    CleanGives("00" + code + n, country, whole);
  }

  lemma CleanGives(raw: string, country: string, text: string)
    requires Bare(raw) == raw && Plus(raw, Decimals(country)) == text && Proper(text)
    ensures Clean(raw, country) == Number(text)
  {
    hide Decimals, Plus, Bare, Proper;
  }

  /** All the spellings are digits, perhaps with a plus sign, and hold nothing that is taken out. */
  lemma Joined(code: string, n: string)
    requires |n| == 10 && AllDecimal(n) && AllDecimal(code) && 1 <= |code| <= 5
    ensures AllDecimal(code + n) && Proper("+" + code + n)
    ensures Bare(n) == n && Bare("0" + n) == "0" + n && Bare(code + n) == code + n
    ensures Bare("+" + code + n) == "+" + code + n && Bare("00" + code + n) == "00" + code + n
  {
    hide Bare;
    assert ("+" + code + n)[1..] == code + n;
    assert AllDecimal("0" + n) && AllDecimal(code + n) && AllDecimal("00" + code + n);
    hide Decimal, AllDecimal;
    Spelled(n);
    Spelled("0" + n);
    Spelled(code + n);
    Spelled("+" + code + n);
    Spelled("00" + code + n);
  }

  lemma Spelled(s: string)
    requires AllDecimal(s) || (s != "" && s[0] == '+' && AllDecimal(s[1..]))
    ensures Bare(s) == s
  {
    if s != "" && s[0] == '+' { assert forall i | 0 < i < |s| :: s[i] == s[1..][i - 1]; }
    BareKeeps(s);
  }

  lemma Alone(n: string, code: string)
    requires |n| == 10 && AllDecimal(n) && n[0] != '0' && code != ""
    ensures Plus(n, code) == "+" + code + n
  {
    assert n[..2][0] == n[0];
  }

  lemma WithZero(n: string, code: string)
    requires |n| == 10 && AllDecimal(n) && n[0] != '0' && code != ""
    ensures Plus("0" + n, code) == "+" + code + n
  {
    var t := "0" + n;
    assert t[..2][1] == n[0] && t[1..] == n;
  }

  lemma WithCode(n: string, code: string)
    requires |n| == 10 && AllDecimal(n) && AllDecimal(code) && code != "" && code[0] != '0'
    ensures Plus(code + n, code) == "+" + code + n
  {
    var t := code + n;
    assert t[..2][0] == code[0] && t[..|code|] == code && t[|code|..] == n;
    assert t[0] == code[0];
  }

  lemma PlusKeeps(t: string, code: string)
    requires t != "" && t[0] == '+' && AllDecimal(code)
    ensures Plus(t, code) == t
  {
    assert !Decimal(t[0]);
    if |t| >= 2 { assert t[..2][0] == '+'; }
    if code != "" && |t| >= |code| { assert t[..|code|][0] == '+' && Decimal(code[0]); }
  }

  lemma PlusOf(digits: string, code: string)
    requires AllDecimal(code)
    ensures Plus("00" + digits, code) == "+" + digits
  {
    assert ("00" + digits)[..2] == "00" && ("00" + digits)[2..] == digits;
    var t := "+" + digits;
    assert !Decimal(t[0]);
    if code != "" && |t| >= |code| { assert t[..|code|][0] == '+' && Decimal(code[0]); }
  }

  /** A number that does begin with 0, written with one more 0 before it, is read as dialled from abroad: nothing of
      the country is put before it. */
  lemma LeadingZeroDiffers(rest: string, code: string)
    requires |rest| == 9 && AllDecimal(rest) && AllDecimal(code) && code != "" && (rest[0] != '0')
    ensures Plus("0" + rest, code) == "+" + code + "0" + rest && Plus("00" + rest, code) == "+" + rest
  {
    var t := "0" + rest;
    assert t[..2][1] == rest[0];
    assert AllDecimal(t);
    assert "+" + code + t == "+" + code + "0" + rest;
    PlusOf(rest, code);
  }

  /** A number with its plus sign and 8 to 15 digits is taken as it is, with 00 for the plus sign too; fewer or more
      digits are not a number, or may be one once the country is known. */
  lemma WholeNumbers(digits: string, country: string)
    requires AllDecimal(digits)
    ensures 8 <= |digits| <= 15 ==> Clean("+" + digits, country) == Number("+" + digits)
                                    && Clean("00" + digits, country) == Number("+" + digits)
    ensures !(8 <= |digits| <= 15) ==>
              Clean("+" + digits, country) == if Decimals(country) == "" then NeedsCountry else NotANumber
  {
    hide Plus, Bare, Decimals;
    var whole := "+" + digits;
    assert whole[1..] == digits;
    DecimalsAre(country);
    Spelled(whole);
    PlusKeeps(whole, Decimals(country));
    assert AllDecimal("00" + digits);
    Spelled("00" + digits);
    PlusOf(digits, Decimals(country));
  }

  /** Whatever is taken as a number has a plus sign and 8 to 15 digits. */
  lemma OnlyWholeNumbers(raw: string, country: string)
    requires Clean(raw, country).Number?
    ensures var n := Clean(raw, country).text;
            9 <= |n| <= 16 && n[0] == '+' && forall k | 1 <= k < |n| :: Decimal(n[k])
  {
    hide Plus, Bare, Decimals, Decimal;
    var n := Clean(raw, country).text;
    assert forall k | 1 <= k < |n| :: n[k] == n[1..][k - 1];
  }
}
