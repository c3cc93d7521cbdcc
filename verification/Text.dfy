/** Decimal text, white space, splitting, and UTF-8 length. */
module Text {
  import opened Wrappers

  predicate IsDigit(c: char) {
    '0' <= c <= '9'
  }

  function DigitValue(c: char): (d: nat)
    requires IsDigit(c)
    ensures d < 10
  {
    c as int - '0' as int
  }

  function DigitChar(d: nat): (c: char)
    requires d < 10
    ensures IsDigit(c) && DigitValue(c) == d
  {
    ('0' as int + d) as char
  }

  /** Shortest decimal text of a natural number. */
  function Digits(n: nat): (s: string)
    ensures s != "" && IsDigit(s[0]) && (n > 0 ==> s[0] != '0')
    ensures n == 0 ==> s == "0"
  {
    if n < 10 then [DigitChar(n)] else Digits(n / 10) + [DigitChar(n % 10)]
  }

  /** Reads every leading digit into `acc`. */
  function ReadDigits(s: string, acc: nat): (r: (nat, string))
    ensures |r.1| <= |s| && (r.1 == "" || !IsDigit(r.1[0]))
  {
    if s == "" || !IsDigit(s[0]) then (acc, s) else ReadDigits(s[1..], acc * 10 + DigitValue(s[0]))
  }

  lemma {:induction false} ReadsPrinted(n: nat, t: string)
    ensures ReadDigits(Digits(n) + t, 0) == ReadDigits(t, n)
  {
    if n < 10 {
      assert (Digits(n) + t)[1..] == t;
    } else {
      var last := [DigitChar(n % 10)];
      assert Digits(n) + t == Digits(n / 10) + (last + t);
      ReadsPrinted(n / 10, last + t);
      assert (last + t)[1..] == t;
    }
  }

  lemma {:induction false} DigitsOnly(n: nat)
    ensures forall c :: c in Digits(n) ==> IsDigit(c)
  {
    if n >= 10 {
      DigitsOnly(n / 10);
    }
  }

  /** Digits read after a number without leading zeros print back as they were. */
  lemma {:induction false} ReadShows(s: string, acc: nat)
    requires acc > 0
    ensures var (n, rest) := ReadDigits(s, acc); n > 0 && Digits(n) + rest == Digits(acc) + s
  {
    if s != "" && IsDigit(s[0]) {
      var d := DigitValue(s[0]);
      ReadShows(s[1..], acc * 10 + d);
      assert (acc * 10 + d) / 10 == acc && (acc * 10 + d) % 10 == d;
      assert DigitChar(d) == s[0];
      assert Digits(acc * 10 + d) + s[1..] == Digits(acc) + ([s[0]] + s[1..]);
    }
  }

  // ---------- positional notation ----------

  function TenTo(k: nat): nat {
    if k == 0 then 1 else 10 * TenTo(k - 1)
  }

  /** Digits from the left, each worth ten times the next. */
  function Weighted(s: string): nat
    requires forall c | c in s :: IsDigit(c)
  {
    if s == "" then 0
    else
      assert IsDigit(s[0]) by { assert s[0] in s; }
      (s[0] as int - 0x30) * TenTo(|s| - 1) + Weighted(s[1..])
  }

  lemma Carry(acc: nat, d: nat, weight: nat)
    ensures (acc * 10 + d) * weight == acc * (10 * weight) + d * weight
  {
  }

  lemma {:induction false} ReadsWeighted(s: string, acc: nat)
    requires forall c | c in s :: IsDigit(c)
    ensures ReadDigits(s, acc) == (acc * TenTo(|s|) + Weighted(s), "")
  {
    if s != "" {
      var d := DigitValue(s[0]);
      ReadsWeighted(s[1..], acc * 10 + d);
      Carry(acc, d, TenTo(|s| - 1));
    }
  }

  /** A number is printed in decimal notation without leading zeros. */
  lemma DigitsAreDecimal(n: nat)
    ensures forall c | c in Digits(n) :: '0' <= c <= '9'
    ensures Weighted(Digits(n)) == n && (n > 0 ==> Digits(n)[0] != '0') && (n == 0 ==> Digits(n) == "0")
  {
    DigitsOnly(n);
    ReadsWeighted(Digits(n), 0);
    ReadsPrinted(n, "");
    assert Digits(n) + "" == Digits(n);
  }

  function Zeros(n: nat): string {
    if n == 0 then "" else "0" + Zeros(n - 1)
  }

  lemma {:induction false} ZerosRead(n: nat, t: string)
    ensures ReadDigits(Zeros(n) + t, 0) == ReadDigits(t, 0)
  {
    if n == 0 {
      assert Zeros(n) + t == t;
    } else {
      assert (Zeros(n) + t)[1..] == Zeros(n - 1) + t;
      ZerosRead(n - 1, t);
    }
  }

  /** What digits alone make up is a number behind some zeros. */
  lemma {:induction false} DigitsShow(s: string) returns (zeros: nat)
    requires s != "" && ReadDigits(s, 0).1 == ""
    ensures s == Zeros(zeros) + Digits(ReadDigits(s, 0).0)
  {
    var d := DigitValue(s[0]);
    assert DigitChar(d) == s[0] && s == [s[0]] + s[1..];
    if d > 0 {
      ReadShows(s[1..], d);
      zeros := 0;
      assert Digits(ReadDigits(s, 0).0) + "" == s;
    } else if s[1..] == "" {
      zeros := 0;
    } else {
      zeros := DigitsShow(s[1..]);
      zeros := zeros + 1;
      assert s == "0" + s[1..];
    }
  }

  // ---------- white space ----------

  /** The property White_Space of Unicode, as `str::trim` uses it. */
  predicate IsSpace(c: char) {
    || '\t' <= c <= '\r' || c == ' ' || c == '\U{85}' || c == '\U{A0}' || c == '\U{1680}'
    || '\U{2000}' <= c <= '\U{200A}' || c == '\U{2028}' || c == '\U{2029}' || c == '\U{202F}'
    || c == '\U{205F}' || c == '\U{3000}'
  }

  /** The twenty-five characters that Unicode lists with that property. */
  const WHITE_SPACE: string :=
    "\t\n\U{000B}\U{000C}\r \U{0085}\U{00A0}\U{1680}\U{2000}\U{2001}\U{2002}\U{2003}\U{2004}\U{2005}\U{2006}\U{2007}"
    + "\U{2008}\U{2009}\U{200A}\U{2028}\U{2029}\U{202F}\U{205F}\U{3000}"

  lemma SpacesAreListed(c: char)
    ensures IsSpace(c) <==> c in WHITE_SPACE
    ensures |WHITE_SPACE| == 25
  {
  }

  function TrimStart(s: string): (r: string)
    ensures |r| <= |s| && (r == "" || !IsSpace(r[0]))
  {
    if s == "" || !IsSpace(s[0]) then s else TrimStart(s[1..])
  }

  function TrimEnd(s: string): (r: string)
    ensures |r| <= |s| && r == s[..|r|] && (r == "" || !IsSpace(r[|r| - 1]))
  {
    if s == "" || !IsSpace(s[|s| - 1]) then s else TrimEnd(s[..|s| - 1])
  }

  function Trim(s: string): string {
    TrimEnd(TrimStart(s))
  }

  predicate Trimmed(s: string) {
    s == "" || (!IsSpace(s[0]) && !IsSpace(s[|s| - 1]))
  }

  /** Trimming leaves trimmed text, and leaves trimmed text alone. */
  lemma TrimIsTrimmed(s: string)
    ensures Trimmed(Trim(s))
    ensures Trim(s) == s <==> Trimmed(s)
  {
  }

  lemma {:induction false} TrimKeepsHead(s: string)
    requires s != "" && !IsSpace(s[0])
    ensures TrimEnd(s) != "" && Trim(s) != ""
    decreases |s|
  {
    if |s| > 1 {
      TrimKeepsHead(s[..|s| - 1]);
    }
  }

  predicate AllSpace(s: string) {
    forall c | c in s :: IsSpace(c)
  }

  lemma {:induction false} TrimStartDrops(s: string) returns (before: string)
    ensures AllSpace(before) && s == before + TrimStart(s)
  {
    if s == "" || !IsSpace(s[0]) {
      before := "";
      assert "" + s == s;
    } else {
      var rest := TrimStartDrops(s[1..]);
      before := [s[0]] + rest;
      assert s == [s[0]] + s[1..];
      Regroup([s[0]], rest, TrimStart(s));
    }
  }

  lemma {:induction false} TrimEndDrops(s: string) returns (after: string)
    ensures AllSpace(after) && s == TrimEnd(s) + after
  {
    if s == "" || !IsSpace(s[|s| - 1]) {
      after := "";
    } else {
      after := TrimEndDrops(s[..|s| - 1]);
      after := after + [s[|s| - 1]];
    }
  }

  lemma {:induction false} TrimStartSkips(before: string, s: string)
    requires AllSpace(before)
    ensures TrimStart(before + s) == TrimStart(s)
  {
    if before == "" {
      assert before + s == s;
    } else {
      assert before[0] in before && (before + s)[1..] == before[1..] + s;
      TrimStartSkips(before[1..], s);
    }
  }

  lemma {:induction false} TrimEndSkips(s: string, after: string)
    requires AllSpace(after)
    ensures TrimEnd(s + after) == TrimEnd(s)
    decreases |after|
  {
    if after == "" {
      assert s + after == s;
    } else {
      var n := |after| - 1;
      assert after[n] in after && (s + after)[..|s + after| - 1] == s + after[..n];
      TrimEndSkips(s, after[..n]);
    }
  }

  /** Trimming to a text that is not empty means that it stands between white space. */
  lemma TrimsToIff(s: string, t: string)
    requires t != "" && Trimmed(t)
    ensures Trim(s) == t <==> exists before, after :: AllSpace(before) && AllSpace(after) && s == before + t + after
  {
    if Trim(s) == t {
      var before := TrimStartDrops(s);
      var after := TrimEndDrops(TrimStart(s));
      assert s == before + t + after;
    }
    if before, after :| AllSpace(before) && AllSpace(after) && s == before + t + after {
      Regroup(before, t, after);
      TrimStartSkips(before, t + after);
      assert (t + after)[0] == t[0];
      TrimEndSkips(t, after);
    }
  }

  // ---------- splitting ----------

  /** At the first `c`, as `split` does: what comes before it, and what comes after. */
  function SplitFirst(s: string, c: char): (r: Option<(string, string)>)
    ensures r.Some? ==> s == r.value.0 + [c] + r.value.1 && c !in r.value.0
    ensures r.None? ==> c !in s
  {
    if s == "" then None
    else if s[0] == c then Some(("", s[1..]))
    else
      var (a, b) :- SplitFirst(s[1..], c);
      Some(([s[0]] + a, b))
  }

  lemma {:induction false} SplitFirstAt(a: string, c: char, b: string)
    requires c !in a
    ensures SplitFirst(a + [c] + b, c) == Some((a, b))
  {
    var s := a + [c] + b;
    if a == "" {
      assert s[1..] == b;
    } else {
      assert s[1..] == a[1..] + [c] + b && s[0] == a[0] && a[0] in a;
      SplitFirstAt(a[1..], c, b);
      assert a == [a[0]] + a[1..];
    }
  }

  lemma {:induction false} NotSplit(s: string, c: char)
    requires c !in s
    ensures SplitFirst(s, c).None?
  {
    if s != "" {
      assert s[0] in s;
      NotSplit(s[1..], c);
    }
  }

  /** At the last `c`, as `rsplit_once` does. */
  function SplitLast(s: string, c: char): (r: Option<(string, string)>)
    ensures r.Some? ==> s == r.value.0 + [c] + r.value.1 && c !in r.value.1
    ensures r.None? ==> c !in s
  {
    if s == "" then None
    else
      var n := |s| - 1;
      if s[n] == c then Some((s[..n], ""))
      else
        var (a, b) :- SplitLast(s[..n], c);
        Some((a, b + [s[n]]))
  }

  lemma {:induction false} NotSplitLast(s: string, c: char)
    requires c !in s
    ensures SplitLast(s, c).None?
  {
    if s != "" {
      assert s[|s| - 1] in s;
      NotSplitLast(s[..|s| - 1], c);
    }
  }

  lemma {:induction false} SplitLastAt(a: string, c: char, b: string)
    requires c !in b
    ensures SplitLast(a + [c] + b, c) == Some((a, b))
  {
    var s := a + [c] + b;
    if b == "" {
      assert s[..|s| - 1] == a;
    } else {
      assert s[..|s| - 1] == a + [c] + b[..|b| - 1];
      SplitLastAt(a, c, b[..|b| - 1]);
      assert b == b[..|b| - 1] + [b[|b| - 1]];
    }
  }

  /** Concatenation is associative; stated once, so that proofs about text need not rediscover it. */
  lemma Regroup(a: string, b: string, c: string)
    ensures a + (b + c) == (a + b) + c
  {
  }

  // ---------- writing ----------

  /** How one write goes: whole, or broken off after some characters, possibly none. */
  datatype Write = Whole | Broken(kept: nat)

  /** What a write leaves behind; a broken one never gets to the end. */
  function Kept(text: string, write: Write): string {
    match write
    case Whole => text
    case Broken(kept) => if text == "" then "" else text[..if kept < |text| then kept else |text| - 1]
  }
}
