/** UTF-8 as sections 3 and 4 of RFC 3629 define it: well-formed byte sequences, encoding, decoding, and cutting. */
module Utf8 {
  import opened Common

  predicate Tail(b: Byte) {
    0x80 <= b <= 0xBF
  }

  /** The length of the well-formed character at the front of `b`, or 0 (the grammar of section 4). */
  function First(b: seq<Byte>): (k: nat)
    ensures k <= |b| && k <= 4
  {
    if b == [] then 0
    else if b[0] <= 0x7F then 1
    else if |b| >= 2 && 0xC2 <= b[0] <= 0xDF && Tail(b[1]) then 2
    else if |b| >= 3 && Three(b[0], b[1]) && Tail(b[2]) then 3
    else if |b| >= 4 && Four(b[0], b[1]) && Tail(b[2]) && Tail(b[3]) then 4
    else 0
  }

  predicate Three(a: Byte, b: Byte) {
    || (a == 0xE0 && 0xA0 <= b <= 0xBF)
    || (0xE1 <= a <= 0xEC && Tail(b))
    || (a == 0xED && 0x80 <= b <= 0x9F)
    || (0xEE <= a <= 0xEF && Tail(b))
  }

  predicate Four(a: Byte, b: Byte) {
    || (a == 0xF0 && 0x90 <= b <= 0xBF)
    || (0xF1 <= a <= 0xF3 && Tail(b))
    || (a == 0xF4 && 0x80 <= b <= 0x8F)
  }

  predicate Valid(b: seq<Byte>)
    decreases |b|
  {
    b == [] || (First(b) > 0 && Valid(b[First(b)..]))
  }

  function EncodeChar(c: char): (r: seq<Byte>)
    ensures 1 <= |r| <= 4
  {
    var n := c as int;
    if n < 0x80 then [n]
    else if n < 0x800 then [0xC0 + n / 64, 0x80 + n % 64]
    else if n < 0x10000 then [0xE0 + n / 64 / 64, 0x80 + n / 64 % 64, 0x80 + n % 64]
    else [0xF0 + n / 64 / 64 / 64, 0x80 + n / 64 / 64 % 64, 0x80 + n / 64 % 64, 0x80 + n % 64]
  }

  function Encode(s: string): seq<Byte> {
    if s == [] then [] else EncodeChar(s[0]) + Encode(s[1..])
  }

  /** Go's order of strings is the order of their bytes. */
  predicate BytesLess(a: seq<Byte>, b: seq<Byte>)
    decreases |a|
  {
    b != [] && (a == [] || a[0] < b[0] || (a[0] == b[0] && BytesLess(a[1..], b[1..])))
  }

  lemma {:induction false} BytesLessAfter(p: seq<Byte>, a: seq<Byte>, b: seq<Byte>)
    ensures BytesLess(p + a, p + b) <==> BytesLess(a, b)
    decreases |p|
  {
    if p == [] {
      assert p + a == a && p + b == b;
    } else {
      assert (p + a)[1..] == p[1..] + a && (p + b)[1..] == p[1..] + b;
      BytesLessAfter(p[1..], a, b);
    }
  }

  lemma {:induction false} BytesLessAsymmetric(a: seq<Byte>, b: seq<Byte>)
    requires BytesLess(a, b)
    ensures !BytesLess(b, a)
    decreases |a|
  {
    if a != [] && a[0] == b[0] {
      BytesLessAsymmetric(a[1..], b[1..]);
    }
  }

  /** The encodings of different characters part within both, at a byte that is smaller for the smaller one. */
  lemma CharsPart(c: char, d: char) returns (k: nat)
    requires c < d
    ensures k < |EncodeChar(c)| && k < |EncodeChar(d)|
    ensures EncodeChar(c)[..k] == EncodeChar(d)[..k] && EncodeChar(c)[k] < EncodeChar(d)[k]
  {
    var a, b := EncodeChar(c), EncodeChar(d);
    if |a| != |b| || a[0] != b[0] {
      k := 0;
    } else if |a| == 2 {
      k := 1;
    } else if |a| == 3 {
      k := if a[1] != b[1] then 1 else 2;
    } else {
      k := if a[1] != b[1] then 1 else if a[2] != b[2] then 2 else 3;
    }
  }

  lemma CharOrder(c: char, d: char, x: seq<Byte>, y: seq<Byte>)
    requires c < d
    ensures BytesLess(EncodeChar(c) + x, EncodeChar(d) + y)
  {
    var k := CharsPart(c, d);
    hide EncodeChar;
    var a, b := EncodeChar(c), EncodeChar(d);
    assert a + x == a[..k] + (a[k..] + x) && b + y == a[..k] + (b[k..] + y);
    BytesLessAfter(a[..k], a[k..] + x, b[k..] + y);
  }

  /** Comparing the characters of two strings is comparing their bytes. */
  lemma {:induction false} OrderIsByteOrder(a: string, b: string)
    ensures Less(a, b) <==> BytesLess(Encode(a), Encode(b))
    decreases |a|
  {
    hide EncodeChar;
    if a != [] && b != [] {
      if a[0] < b[0] {
        CharOrder(a[0], b[0], Encode(a[1..]), Encode(b[1..]));
      } else if b[0] < a[0] {
        CharOrder(b[0], a[0], Encode(b[1..]), Encode(a[1..]));
        BytesLessAsymmetric(Encode(b), Encode(a));
      } else {
        OrderIsByteOrder(a[1..], b[1..]);
        BytesLessAfter(EncodeChar(a[0]), Encode(a[1..]), Encode(b[1..]));
      }
    }
  }

  /** The character number a well-formed front stands for. */
  function Number(b: seq<Byte>): (n: int)
    requires First(b) > 0
    ensures 0 <= n < 0xD800 || 0xE000 <= n < 0x11_0000
  {
    match First(b)
    case 1 => b[0]
    case 2 => Join(b[0] - 0xC0, b[1])
    case 3 => Join(Join(b[0] - 0xE0, b[1]), b[2])
    case _ => Join(Join(Join(b[0] - 0xF0, b[1]), b[2]), b[3])
  }

  /** Appends the six bits of a continuation byte. */
  function Join(n: int, b: Byte): int {
    n * 64 + (b - 0x80)
  }

  function Decode(b: seq<Byte>): string
    requires Valid(b)
    decreases |b|
  {
    if b == [] then [] else [Number(b) as char] + Decode(b[First(b)..])
  }

  lemma FirstOfEncoded(c: char, rest: seq<Byte>)
    ensures First(EncodeChar(c) + rest) == |EncodeChar(c)|
    ensures Number(EncodeChar(c) + rest) == c as int
  {
    var n := c as int;
    assert n < 0xD800 || 0xE000 <= n < 0x11_0000;
    var e := EncodeChar(c);
    if n >= 0x80 {
      Split(n);
    }
    if n >= 0x800 {
      Split(n / 64);
    }
    if n >= 0x10000 {
      Split(n / 64 / 64);
    }
  }

  lemma Split(n: nat)
    ensures n == Join(n / 64, 0x80 + n % 64)
  {
  }

  lemma Joined(n: nat, b: Byte)
    requires Tail(b)
    ensures Join(n, b) / 64 == n && 0x80 + Join(n, b) % 64 == b
  {
  }

  lemma EncodedNumber(b: seq<Byte>)
    requires First(b) > 0
    ensures EncodeChar(Number(b) as char) == b[..First(b)]
  {
    hide Join;
    match First(b)
    case 1 =>
    case 2 =>
      Joined(b[0] - 0xC0, b[1]);
    case 3 =>
      Joined(b[0] - 0xE0, b[1]);
      Joined(Join(b[0] - 0xE0, b[1]), b[2]);
    case _ =>
      EncodedFour(b);
  }

  lemma EncodedFour(b: seq<Byte>)
    requires First(b) == 4
    ensures EncodeChar(Number(b) as char) == b[..4]
  {
  }

  lemma {:induction false} EncodedIsValid(s: string)
    ensures Valid(Encode(s)) && Decode(Encode(s)) == s
    decreases |s|
  {
    hide EncodeChar, First, Number;
    if s != [] {
      var rest := Encode(s[1..]);
      FirstOfEncoded(s[0], rest);
      EncodedIsValid(s[1..]);
      assert (EncodeChar(s[0]) + rest)[|EncodeChar(s[0])|..] == rest;
    }
  }

  lemma {:induction false} DecodedEncodes(b: seq<Byte>)
    requires Valid(b)
    ensures Encode(Decode(b)) == b
    decreases |b|
  {
    hide EncodeChar, First, Number;
    if b != [] {
      EncodedNumber(b);
      DecodedEncodes(b[First(b)..]);
      assert Decode(b)[1..] == Decode(b[First(b)..]);
      assert b[..First(b)] + b[First(b)..] == b;
    }
  }

  /** The well-formed byte sequences are exactly the encodings of texts. */
  lemma ValidExactly(b: seq<Byte>)
    ensures Valid(b) <==> exists s :: b == Encode(s)
  {
    hide Valid, Encode, Decode;
    if Valid(b) {
      DecodedEncodes(b);
    }
    if s :| b == Encode(s) {
      EncodedIsValid(s);
    }
  }

  lemma {:induction false} ValidConcat(a: seq<Byte>, b: seq<Byte>)
    requires Valid(a) && Valid(b)
    ensures Valid(a + b)
    decreases |a|
  {
    if a == [] {
      assert a + b == b;
    } else {
      var k := First(a);
      FirstStays(a, b);
      assert (a + b)[k..] == a[k..] + b;
      ValidConcat(a[k..], b);
    }
  }

  lemma FirstStays(a: seq<Byte>, b: seq<Byte>)
    requires First(a) > 0
    ensures First(a + b) == First(a)
  {
  }

  // ---- Cutting. ----

  /** What is left when bytes are dropped from the end until the rest is well-formed. */
  function Cut(b: seq<Byte>): (r: seq<Byte>)
    ensures r <= b && Valid(r)
    decreases |b|
  {
    if Valid(b) then b else Cut(b[..|b| - 1])
  }

  /** It is the longest well-formed prefix. */
  lemma {:induction false} CutIsLongest(b: seq<Byte>, p: seq<Byte>)
    requires p <= b && Valid(p)
    ensures |p| <= |Cut(b)|
    decreases |b|
  {
    hide Valid;
    if !Valid(b) {
      assert |p| == |b| ==> p == b;
      CutIsLongest(b[..|b| - 1], p);
    }
  }

  /** Cutting a well-formed text anywhere drops at most three bytes. */
  lemma CutDropsAtMostThree(v: seq<Byte>, n: nat)
    requires Valid(v) && n <= |v|
    ensures n <= |Cut(v[..n])| + 3
  {
    hide Valid, Cut;
    var k := Boundary(v, n);
    CutIsLongest(v[..n], v[..k]);
  }

  /** The last character boundary at or before `n`. */
  lemma {:induction false} Boundary(v: seq<Byte>, n: nat) returns (k: nat)
    requires Valid(v) && n <= |v|
    ensures k <= n <= k + 3 && Valid(v[..k])
    decreases |v|
  {
    hide First;
    if v == [] || n < First(v) {
      k := 0;
    } else {
      var f := First(v);
      var j := Boundary(v[f..], n - f);
      k := f + j;
      assert v[..k] == v[..f] + v[f..][..j];
      FrontIsValid(v);
      ValidConcat(v[..f], v[f..][..j]);
    }
  }

  lemma FrontIsValid(v: seq<Byte>)
    requires First(v) > 0
    ensures Valid(v[..First(v)])
  {
    var f := v[..First(v)];
    assert First(f) == |f|;
    assert f[|f|..] == [];
  }
}
