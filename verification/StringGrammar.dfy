/** The texts of a string, character by character: section 7 of RFC 8259, and the parser reads exactly that. */
module StringGrammar {
  import opened Wrappers
  import opened JsonText
  import opened Text

  /** A hex digit of the number `d`, in either case, by its code. */
  predicate HexDigitOf(h: char, d: nat) {
    if d < 10 then h as int == 0x30 + d
    else d < 16 && (h as int == 0x61 + (d - 10) || h as int == 0x41 + (d - 10))
  }

  /** `\uXXXX`, most significant digit first. */
  predicate UnitOf(t: string, n: nat) {
    && |t| == 6 && t[0] == '\\' && t[1] == 'u' && n < 0x1_0000
    && HexDigitOf(t[2], n / 0x1000) && HexDigitOf(t[3], n / 0x100 % 0x10)
    && HexDigitOf(t[4], n / 0x10 % 0x10) && HexDigitOf(t[5], n % 0x10)
  }

  /** The escapes of two characters. */
  predicate ShortOf(t: string, c: char) {
    && |t| == 2 && t[0] == '\\'
    && (|| (t[1] == '"' && c == '"') || (t[1] == '\\' && c == '\\') || (t[1] == '/' && c == '/')
        || (t[1] == 'b' && c == '\U{0008}') || (t[1] == 'f' && c == '\U{000C}') || (t[1] == 'n' && c == '\U{000A}')
        || (t[1] == 'r' && c == '\U{000D}') || (t[1] == 't' && c == '\U{0009}'))
  }

  /** Two code units for a character beyond the first 65536. */
  predicate PairOf(t: string, c: char) {
    && |t| == 12 && c as int >= 0x1_0000
    && UnitOf(t[..6], 0xD800 + (c as int - 0x1_0000) / 0x400)
    && UnitOf(t[6..], 0xDC00 + (c as int - 0x1_0000) % 0x400)
  }

  /** Every way to write a character inside quotes. */
  predicate Spells(t: string, c: char) {
    || (t == [c] && c >= ' ' && c != '"' && c != '\\')
    || ShortOf(t, c) || UnitOf(t, c as int) || PairOf(t, c)
  }

  /** Part by part. */
  predicate SpellsAll(parts: seq<string>, s: string) {
    |parts| == |s| && forall i | 0 <= i < |s| :: Spells(parts[i], s[i])
  }

  function Joined(parts: seq<string>): string {
    if parts == [] then "" else parts[0] + Joined(parts[1..])
  }

  // ---------- one character ----------

  /** What the parser makes of the next character of a string. */
  function ReadOne(s: string): Option<(char, string)> {
    if s == "" || s[0] == '"' || s[0] < ' ' then None
    else if s[0] == '\\' then ParseEscape(s[1..])
    else Some((s[0], s[1..]))
  }

  lemma ParseStrStep(s: string)
    requires s != "" && s[0] != '"'
    ensures ParseStr(s) ==
            match ReadOne(s)
            case None => None
            case Some((c, rest)) =>
              match ParseStr(rest)
              case None => None
              case Some((t, k)) => Some(([c] + t, k))
  {
  }

  lemma HexRead(h: char, d: nat)
    ensures HexValue(h) == Some(d) <==> HexDigitOf(h, d)
  {
  }

  lemma LastDigit(high: nat, low: nat)
    requires low < 0x10
    ensures (high * 0x10 + low) / 0x10 == high && (high * 0x10 + low) % 0x10 == low
  {
  }

  lemma LastTwoDigits(high: nat, low: nat)
    requires low < 0x100
    ensures (high * 0x100 + low) / 0x100 == high && (high * 0x100 + low) % 0x100 == low
  {
  }

  lemma LastThreeDigits(high: nat, low: nat)
    requires low < 0x1000
    ensures (high * 0x1000 + low) / 0x1000 == high && (high * 0x1000 + low) % 0x1000 == low
  {
  }

  /** The four digits of a number below 65536. */
  lemma FourDigits(a: nat, b: nat, c: nat, d: nat)
    requires a < 0x10 && b < 0x10 && c < 0x10 && d < 0x10
    ensures var n := a * 0x1000 + b * 0x100 + c * 0x10 + d;
            n < 0x1_0000 && n / 0x1000 == a && n / 0x100 % 0x10 == b && n / 0x10 % 0x10 == c && n % 0x10 == d
  {
    LastThreeDigits(a, b * 0x100 + c * 0x10 + d);
    LastTwoDigits(a * 0x10 + b, c * 0x10 + d);
    LastDigit(a, b);
    LastDigit(a * 0x100 + b * 0x10 + c, d);
    LastDigit(a * 0x10 + b, c);
  }

  lemma FromDigits(n: nat)
    requires n < 0x1_0000
    ensures n / 0x1000 < 0x10
    ensures n == n / 0x1000 * 0x1000 + n / 0x100 % 0x10 * 0x100 + n / 0x10 % 0x10 * 0x10 + n % 0x10
  {
    var x, y, z := n / 0x10, n / 0x100, n / 0x1000;
    assert n == x * 0x10 + n % 0x10;
    TwoDivisions(n);
    TwoDivisions(x);
    assert x == y * 0x10 + x % 0x10;
    assert y == z * 0x10 + y % 0x10;
  }

  lemma TwoDivisions(n: nat)
    ensures n / 0x10 / 0x10 == n / 0x100 && n / 0x100 / 0x10 == n / 0x1000
  {
  }

  lemma UnitReads(t: string, n: nat, k: string)
    requires UnitOf(t, n)
    ensures ParseHex4(t[2..] + k) == Some(n) && (t[2..] + k)[4..] == k
  {
    FromDigits(n);
    var a, b, c, d := n / 0x1000, n / 0x100 % 0x10, n / 0x10 % 0x10, n % 0x10;
    HexRead(t[2], a);
    HexRead(t[3], b);
    HexRead(t[4], c);
    HexRead(t[5], d);
    HexIs(t[2..] + k, a, b, c, d);
  }

  lemma HexIs(s: string, a: nat, b: nat, c: nat, d: nat)
    requires |s| >= 4 && HexValue(s[0]) == Some(a) && HexValue(s[1]) == Some(b)
    requires HexValue(s[2]) == Some(c) && HexValue(s[3]) == Some(d)
    ensures ParseHex4(s) == Some(a * 0x1000 + b * 0x100 + c * 0x10 + d)
  {
  }

  lemma HexParts(s: string) returns (a: nat, b: nat, c: nat, d: nat)
    requires ParseHex4(s).Some?
    ensures HexDigitOf(s[0], a) && HexDigitOf(s[1], b) && HexDigitOf(s[2], c) && HexDigitOf(s[3], d)
    ensures ParseHex4(s) == Some(a * 0x1000 + b * 0x100 + c * 0x10 + d)
  {
    a, b, c, d := HexValue(s[0]).value, HexValue(s[1]).value, HexValue(s[2]).value, HexValue(s[3]).value;
    HexRead(s[0], a);
    HexRead(s[1], b);
    HexRead(s[2], c);
    HexRead(s[3], d);
  }

  lemma UnitRead(s: string, n: nat)
    requires ParseHex4(s) == Some(n)
    ensures UnitOf("\\u" + s[..4], n)
  {
    var t := "\\u" + s[..4];
    var a, b, c, d := HexParts(s);
    FourDigits(a, b, c, d);
    assert t[2] == s[0] && t[3] == s[1] && t[4] == s[2] && t[5] == s[3];
  }

  /** Every spelling of a character is read as that character. */
  lemma CharReads(t: string, c: char, k: string)
    requires Spells(t, c)
    ensures t != "" && t[0] != '"' && ReadOne(t + k) == Some((c, k))
  {
    if |t| == 1 {
      assert (t + k)[1..] == k;
    } else if ShortOf(t, c) {
      assert (t + k)[1..] == [t[1]] + k && ([t[1]] + k)[1..] == k;
    } else if UnitOf(t, c as int) {
      assert (t + k)[1..] == ['u'] + (t[2..] + k) && (['u'] + (t[2..] + k))[1..] == t[2..] + k;
      UnitReads(t, c as int, k);
    } else {
      PairReads(t, c, k);
    }
  }

  /** The two code units of a character beyond the first 65536. */
  lemma Surrogates(n: nat)
    requires 0x1_0000 <= n < 0x11_0000
    ensures var high, low := 0xD800 + (n - 0x1_0000) / 0x400, 0xDC00 + (n - 0x1_0000) % 0x400;
            0xD800 <= high < 0xDC00 <= low < 0xE000 && 0x1_0000 + (high - 0xD800) * 0x400 + (low - 0xDC00) == n
  {
  }

  lemma FromSurrogates(high: nat, low: nat)
    requires 0xD800 <= high < 0xDC00 <= low < 0xE000
    ensures var n := 0x1_0000 + (high - 0xD800) * 0x400 + (low - 0xDC00);
            && 0x1_0000 <= n < 0x11_0000
            && high == 0xD800 + (n - 0x1_0000) / 0x400 && low == 0xDC00 + (n - 0x1_0000) % 0x400
  {
  }

  lemma PairParses(s: string, high: nat, low: nat, k: string)
    requires ParseHex4(s) == Some(high) && |s| >= 6 && s[4] == '\\' && s[5] == 'u' && ParseHex4(s[6..]) == Some(low)
    requires 0xD800 <= high < 0xDC00 <= low < 0xE000 && s[10..] == k
    ensures ParseUnicode(s) == Some(((0x1_0000 + (high - 0xD800) * 0x400 + (low - 0xDC00)) as char, k))
  {
  }

  lemma PairReads(t: string, c: char, k: string)
    requires PairOf(t, c)
    ensures ReadOne(t + k) == Some((c, k))
  {
    var high, low := t[..6], t[6..];
    var h, l := 0xD800 + (c as int - 0x1_0000) / 0x400, 0xDC00 + (c as int - 0x1_0000) % 0x400;
    var after := t[2..] + k;
    Surrogates(c as int);
    assert (t + k)[1..] == ['u'] + after && (['u'] + after)[1..] == after;
    assert after == high[2..] + (low + k) && after[6..] == low[2..] + k && after[10..] == k;
    UnitReads(high, h, low + k);
    UnitReads(low, l, k);
    PairParses(after, h, l, k);
  }

  /** And whatever is read as a character is a spelling of it. */
  lemma CharRead(s: string) returns (t: string)
    requires ReadOne(s).Some?
    ensures var (c, rest) := ReadOne(s).value; s == t + rest && Spells(t, c)
  {
    var (c, rest) := ReadOne(s).value;
    if s[0] != '\\' {
      t := [s[0]];
    } else if s[1] != 'u' {
      t := s[..2];
      assert s[1..][1..] == s[2..];
    } else {
      t := UnicodeRead(s);
    }
  }

  lemma UnicodeRead(s: string) returns (t: string)
    requires |s| >= 2 && s[0] == '\\' && s[1] == 'u' && ParseUnicode(s[2..]).Some?
    ensures var (c, rest) := ParseUnicode(s[2..]).value; s == t + rest && Spells(t, c)
  {
    var after := s[2..];
    var (c, rest) := ParseUnicode(after).value;
    var n := ParseHex4(after).value;
    UnitRead(after, n);
    assert s[..6] == "\\u" + after[..4];
    if n < 0xD800 || 0xE000 <= n {
      t := s[..6];
      assert s[6..] == after[4..];
    } else {
      t := s[..12];
      var m := ParseHex4(after[6..]).value;
      UnitRead(after[6..], m);
      FromSurrogates(n, m);
      assert t[..6] == s[..6] && t[6..] == "\\u" + after[6..][..4];
      assert s[12..] == after[10..];
    }
  }

  // ---------- strings ----------

  /** Every spelling of a string is read as that string, whatever follows the closing quote. */
  lemma {:induction false} SpellingReads(parts: seq<string>, s: string, k: string)
    requires SpellsAll(parts, s)
    ensures ParseStr(Joined(parts) + ("\"" + k)) == Some((s, k))
  {
    var text := Joined(parts) + ("\"" + k);
    if s == "" {
      assert text[0] == '"' && text[1..] == k;
    } else {
      var after := Joined(parts[1..]) + ("\"" + k);
      assert text == parts[0] + after;
      CharReads(parts[0], s[0], after);
      ParseStrStep(text);
      SpellingReads(parts[1..], s[1..], k);
      assert s == [s[0]] + s[1..];
    }
  }

  lemma {:induction false} SpellingRead(text: string) returns (parts: seq<string>)
    requires ParseStr(text).Some?
    ensures var (s, k) := ParseStr(text).value; SpellsAll(parts, s) && text == Joined(parts) + ("\"" + k)
    decreases |text|
  {
    if text[0] == '"' {
      parts := [];
      assert text == "" + ("\"" + text[1..]);
    } else {
      ParseStrStep(text);
      var t := CharRead(text);
      var rest := ReadOne(text).value.1;
      var later := SpellingRead(rest);
      parts := [t] + later;
      assert parts[1..] == later;
      Regroup(t, Joined(later), "\"" + ParseStr(rest).value.1);
    }
  }

  /** What follows a quote is read as a string exactly when it is a spelling of it, up to the closing quote:
      characters as they are, short escapes, and code units with hex digits of either case. */
  lemma ReadsIffSpelled(text: string, s: string, k: string)
    ensures ParseStr(text) == Some((s, k)) <==>
            exists parts :: SpellsAll(parts, s) && text == Joined(parts) + ("\"" + k)
  {
    if ParseStr(text) == Some((s, k)) {
      var parts := SpellingRead(text);
    }
    if parts :| SpellsAll(parts, s) && text == Joined(parts) + ("\"" + k) {
      SpellingReads(parts, s, k);
    }
  }
}
