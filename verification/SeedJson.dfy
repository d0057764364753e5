// A list printed by json.dumps, as in tools/seed_texts.py, read again.
module SeedJson {
  import opened Wrappers
  import opened Chars
  import opened SeedTexts

  /** A text up to its closing quote, and what follows. */
  datatype Reading = Reading(text: string, rest: string) | Unreadable

  function HexValue(c: char): Option<nat> {
    if '0' <= c <= '9' then Some((c - '0') as nat)
    else if 'a' <= c <= 'f' then Some((c - 'a') as nat + 10)
    else None
  }

  /** Four hexadecimal digits at i. */
  function HexAt(s: string, i: nat): Option<nat> {
    if i + 4 > |s| then None
    else match (HexValue(s[i]), HexValue(s[i + 1]), HexValue(s[i + 2]), HexValue(s[i + 3]))
         case (Some(a), Some(b), Some(c), Some(d)) => Some(a * 4096 + b * 256 + c * 16 + d)
         case _ => None
  }

  function With(c: char, r: Reading): Reading {
    match r case Reading(text, rest) => Reading([c] + text, rest) case Unreadable => Unreadable
  }

  /** The character a backslash and one letter stand for. */
  function Short(c: char): Option<char> {
    match c
    case '"' => Some('"')
    case '\\' => Some('\\')
    case 'n' => Some(10 as char)
    case 'r' => Some(13 as char)
    case 't' => Some(9 as char)
    case 'b' => Some(8 as char)
    case 'f' => Some(12 as char)
    case _ => None
  }

  /** A character written as \\u and four digits, or as two of those: the character, and how many were read. */
  function Long(s: string): Option<(char, nat)> {
    match HexAt(s, 2)
    case None => None
    case Some(v) =>
      if v < 0xD800 || v >= 0xE000 then (if v < 0x1_0000 then Some((v as char, 6)) else None)
      else if v < 0xDC00 && |s| >= 8 && s[6] == '\\' && s[7] == 'u' then
        match HexAt(s, 8)
        case None => None
        case Some(w) =>
          if 0xDC00 <= w < 0xE000 then Some(((0x1_0000 + (v - 0xD800) * 0x400 + (w - 0xDC00)) as char, 12)) else None
      else None
  }

  function ReadText(s: string): Reading
    decreases |s|
  {
    if s == "" then Unreadable
    else if s[0] == '"' then Reading("", s[1..])
    else if s[0] != '\\' then With(s[0], ReadText(s[1..]))
    else if |s| < 2 then Unreadable
    else if s[1] == 'u' then
      match Long(s)
      case Some((c, n)) => if n <= |s| && n > 0 then With(c, ReadText(s[n..])) else Unreadable
      case None => Unreadable
    else
      match Short(s[1]) case Some(c) => With(c, ReadText(s[2..])) case None => Unreadable
  }

  /** Texts between quotes, with a comma and a space between them, up to the closing bracket. */
  function ReadItems(s: string): Option<seq<string>>
    decreases |s|
  {
    if s == "" || s[0] != '"' then None
    else match ReadText(s[1..])
         case Unreadable => None
         case Reading(text, rest) =>
           if rest == "]" then Some([text])
           else if |rest| < |s| && |rest| > 2 && rest[..2] == ", " then
             match ReadItems(rest[2..]) case Some(more) => Some([text] + more) case None => None
           else None
  }

  function ReadList(s: string): Option<seq<string>> {
    if s == "[]" then Some([]) else if s != "" && s[0] == '[' then ReadItems(s[1..]) else None
  }

  lemma HexBack(d: nat)
    requires d < 16
    ensures HexValue(HexDigit(d)) == Some(d)
  {
  }

  lemma FourDigits(n: nat)
    requires n < 0x1_0000
    ensures n / 4096 < 16 && n == n / 4096 * 4096 + n / 256 % 16 * 256 + n / 16 % 16 * 16 + n % 16
  {
    assert n == n / 16 * 16 + n % 16;
    var m := n / 16;
    assert m == m / 16 * 16 + m % 16;
    assert m / 16 == n / 256;
    var k := n / 256;
    assert k == k / 16 * 16 + k % 16 && k / 16 == n / 4096;
  }

  lemma HexRead(s: string, i: nat, n: nat)
    requires n < 0x1_0000 && i >= 2 && i + 4 <= |s| && s[i - 2..i + 4] == Hex4(n)
    ensures HexAt(s, i) == Some(n) && s[i - 2] == '\\' && s[i - 1] == 'u'
  {
    var h := Hex4(n);
    FourDigits(n);
    HexBack(n / 4096);
    HexBack(n / 256 % 16);
    HexBack(n / 16 % 16);
    HexBack(n % 16);
    assert s[i - 2] == h[0] && s[i - 1] == h[1];
    assert s[i] == h[2] && s[i + 1] == h[3] && s[i + 2] == h[4] && s[i + 3] == h[5];
  }

  lemma LongReads(c: char, r: string)
    requires var n := c as int; n >= 127 || n < 32
    ensures var n := c as int;
            var code := if n < 0x1_0000 then Hex4(n)
                else Hex4(0xD800 + (n - 0x1_0000) / 0x400) + Hex4(0xDC00 + (n - 0x1_0000) % 0x400);
            && |code| >= 6 && code[0] == '\\' && code[1] == 'u' && Long(code + r) == Some((c, |code|))
  {
    hide Hex4, HexAt;
    var n := c as int;
    HexLength(if n < 0x1_0000 then n else 0xD800 + (n - 0x1_0000) / 0x400);
    if n < 0x1_0000 {
      var s := Hex4(n) + r;
      assert s[0..6] == Hex4(n);
      HexRead(s, 2, n);
    } else {
      var v, w := 0xD800 + (n - 0x1_0000) / 0x400, 0xDC00 + (n - 0x1_0000) % 0x400;
      HexLength(w);
      var s := Hex4(v) + Hex4(w) + r;
      assert s[0..6] == Hex4(v) && s[6..12] == Hex4(w);
      HexRead(s, 2, v);
      HexRead(s, 8, w);
    }
  }

  lemma HexLength(n: nat)
    requires n < 0x1_0000
    ensures |Hex4(n)| == 6 && Hex4(n)[0] == '\\' && Hex4(n)[1] == 'u'
  {
  }

  lemma CharReads(c: char, r: string)
    ensures ReadText(JsonChar(c) + r) == With(c, ReadText(r))
  {
    hide Hex4, Long;
    var n := c as int;
    if c == '"' || c == '\\' || n in {10, 13, 9, 8, 12} {
      ShortReads(c, r);
    } else if 32 <= n < 127 {
      assert ([c] + r)[1..] == r;
    } else {
      LongReads(c, r);
      var code := JsonChar(c);
      assert (code + r)[|code|..] == r && (code + r)[0] == code[0] && (code + r)[1] == code[1];
    }
  }

  lemma ShortReads(c: char, r: string)
    requires c == '"' || c == '\\' || c as int in {10, 13, 9, 8, 12}
    ensures ReadText(JsonChar(c) + r) == With(c, ReadText(r))
  {
    var code := JsonChar(c);
    assert |code| == 2 && code[0] == '\\' && Short(code[1]) == Some(c) && code[1] != 'u';
    assert (code + r)[0] == code[0] && (code + r)[1] == code[1] && (code + r)[2..] == r;
  }

  lemma {:induction false} TextReads(s: string, r: string)
    ensures ReadText(JsonText(s) + "\"" + r) == Reading(s, r)
  {
    hide JsonChar;
    if s == "" {
      assert JsonText(s) + "\"" + r == "\"" + r && ("\"" + r)[1..] == r;
    } else {
      TextReads(s[1..], r);
      var more := JsonText(s[1..]) + "\"" + r;
      assert JsonText(s) + "\"" + r == JsonChar(s[0]) + more;
      CharReads(s[0], more);
    }
  }

  lemma {:induction false} ItemsRead(items: seq<string>)
    requires items != []
    ensures ReadItems(Join(", ", JsonItems(items)) + "]") == Some(items)
    decreases |items|
  {
    hide JsonText, ReadText;
    var parts := JsonItems(items);
    var t := JsonText(items[0]);
    if |items| == 1 {
      OneRead(items[0], "]");
      assert Join(", ", parts) == parts[0] && [items[0]] == items;
    } else {
      var more := items[1..];
      assert parts[1..] == JsonItems(more);
      ItemsRead(more);
      var tail := Join(", ", JsonItems(more)) + "]";
      assert Join(", ", parts) + "]" == "\"" + t + "\"" + (", " + tail);
      OneRead(items[0], ", " + tail);
      assert (", " + tail)[..2] == ", " && (", " + tail)[2..] == tail;
      assert |", " + tail| > 2;
      var s := Join(", ", parts) + "]";
      ReadsMore(s, items[0], ", " + tail, more);
      assert [items[0]] + more == items;
    }
  }

  lemma ReadsMore(s: string, item: string, rest: string, more: seq<string>)
    requires s != "" && s[0] == '"' && ReadText(s[1..]) == Reading(item, rest)
    requires |rest| < |s| && |rest| > 2 && rest[..2] == ", " && ReadItems(rest[2..]) == Some(more)
    ensures ReadItems(s) == Some([item] + more)
  {
    hide ReadText;
  }

  lemma OneRead(item: string, r: string)
    ensures var s := "\"" + JsonText(item) + "\"" + r;
            s[0] == '"' && |r| < |s| && ReadText(s[1..]) == Reading(item, r)
  {
    hide JsonText, ReadText;
    var s := "\"" + JsonText(item) + "\"" + r;
    assert s[1..] == JsonText(item) + "\"" + r;
    TextReads(item, r);
  }

  /** A printed list reads back, whatever characters its texts hold. */
  lemma ListReads(items: seq<string>)
    ensures ReadList(JsonList(items)) == Some(items)
  {
    hide ReadItems, JsonText;
    if items == [] {
      assert JsonItems(items) == [];
      assert JsonList(items) == "[]";
    } else {
      ItemsRead(items);
      var s := JsonList(items);
      assert s[1..] == Join(", ", JsonItems(items)) + "]";
      assert Join(", ", JsonItems(items)) != "";
      assert s != "[]" by { assert |s| > 2; }
    }
  }
}
