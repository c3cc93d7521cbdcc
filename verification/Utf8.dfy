/** UTF-8, and why the order on keys may compare characters. Rust compares strings by their bytes. */
module Utf8 {
  import opened Json

  type Byte = b: nat | b < 0x100

  /** Six bits to a byte. */
  function Rest(n: nat): nat {
    n / 0x40
  }

  /** A continuation byte. */
  function Tail(n: nat): Byte {
    0x80 + n % 0x40
  }

  /** The bytes of a character (section 3 of RFC 3629). */
  function Encode(c: char): (bytes: seq<Byte>)
    ensures 1 <= |bytes| <= 4
  {
    var n := c as int;
    if n < 0x80 then [n]
    else if n < 0x800 then [0xC0 + Rest(n), Tail(n)]
    else if n < 0x1_0000 then [0xE0 + Rest(Rest(n)), Tail(Rest(n)), Tail(n)]
    else [0xF0 + Rest(Rest(Rest(n))), Tail(Rest(Rest(n))), Tail(Rest(n)), Tail(n)]
  }

  function EncodeAll(s: string): seq<Byte> {
    if s == "" then [] else Encode(s[0]) + EncodeAll(s[1..])
  }

  /** `str::cmp`: byte by byte. */
  predicate BytesBefore(a: seq<Byte>, b: seq<Byte>) {
    if b == [] then false
    else if a == [] then true
    else if a[0] == b[0] then BytesBefore(a[1..], b[1..])
    else a[0] < b[0]
  }

  lemma RestKeepsOrder(m: nat, n: nat)
    requires m < n
    ensures Rest(m) < Rest(n) || (Rest(m) == Rest(n) && Tail(m) < Tail(n))
  {
    assert m == 0x40 * Rest(m) + m % 0x40 && n == 0x40 * Rest(n) + n % 0x40;
  }

  /** A smaller character has smaller bytes at the first place where the two differ, and neither is a
      beginning of the other. */
  lemma EncodingKeepsOrder(c: char, d: char) returns (i: nat)
    requires c < d
    ensures i < |Encode(c)| && i < |Encode(d)|
    ensures Encode(c)[..i] == Encode(d)[..i] && Encode(c)[i] < Encode(d)[i]
  {
    var m, n := c as int, d as int;
    RestKeepsOrder(m, n);
    if |Encode(c)| < |Encode(d)| || m < 0x80 {
      i := 0;
    } else if Rest(m) == Rest(n) {
      i := |Encode(c)| - 1;
    } else {
      RestKeepsOrder(Rest(m), Rest(n));
      if |Encode(c)| == 2 {
        i := 0;
      } else if Rest(Rest(m)) == Rest(Rest(n)) {
        i := |Encode(c)| - 2;
      } else {
        RestKeepsOrder(Rest(Rest(m)), Rest(Rest(n)));
        i := if |Encode(c)| == 3 || Rest(Rest(Rest(m))) < Rest(Rest(Rest(n))) then 0 else 1;
      }
    }
  }

  lemma {:induction false} SharedBytes(shared: seq<Byte>, a: seq<Byte>, b: seq<Byte>)
    ensures BytesBefore(shared + a, shared + b) <==> BytesBefore(a, b)
  {
    if shared == [] {
      assert shared + a == a && shared + b == b;
    } else {
      assert (shared + a)[1..] == shared[1..] + a && (shared + b)[1..] == shared[1..] + b;
      SharedBytes(shared[1..], a, b);
    }
  }

  lemma FirstCharDecides(c: char, a: string, d: char, b: string)
    requires c < d
    ensures BytesBefore(Encode(c) + EncodeAll(a), Encode(d) + EncodeAll(b))
    ensures !BytesBefore(Encode(d) + EncodeAll(b), Encode(c) + EncodeAll(a))
  {
    var i := EncodingKeepsOrder(c, d);
    var shared := Encode(c)[..i];
    var x, y := Encode(c)[i..] + EncodeAll(a), Encode(d)[i..] + EncodeAll(b);
    assert Encode(c) + EncodeAll(a) == shared + x && Encode(d) + EncodeAll(b) == shared + y;
    SharedBytes(shared, x, y);
    SharedBytes(shared, y, x);
  }

  /** Comparing characters one by one orders strings exactly as Rust's comparison of bytes does. */
  lemma {:induction false} BeforeIsByteOrder(a: string, b: string)
    ensures Before(a, b) <==> BytesBefore(EncodeAll(a), EncodeAll(b))
  {
    if a != "" && b != "" {
      if a[0] == b[0] {
        SharedBytes(Encode(a[0]), EncodeAll(a[1..]), EncodeAll(b[1..]));
        BeforeIsByteOrder(a[1..], b[1..]);
      } else if a[0] < b[0] {
        FirstCharDecides(a[0], a[1..], b[0], b[1..]);
      } else {
        FirstCharDecides(b[0], b[1..], a[0], a[1..]);
      }
    }
  }
}
