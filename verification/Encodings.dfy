/** UTF-8 (RFC 3629, section 4) and padded Base64 (RFC 4648, section 4). */
module Encodings {
  import opened Wrappers

  type Byte = x: int | 0 <= x < 256

  // ---------------------------------------------------------------- UTF-8

  function EncodeChar(c: char): seq<Byte> {
    var n := c as int;
    if n < 0x80 then [n]
    else if n < 0x800 then [0xC0 + n / 64, 0x80 + n % 64]
    else if n < 0x1_0000 then [0xE0 + n / 4096, 0x80 + n / 64 % 64, 0x80 + n % 64]
    else [0xF0 + n / 262144, 0x80 + n / 4096 % 64, 0x80 + n / 64 % 64, 0x80 + n % 64]
  }

  function Utf8(t: string): seq<Byte> {
    if t == [] then [] else EncodeChar(t[0]) + Utf8(t[1..])
  }

  predicate Tail(b: Byte) { 0x80 <= b <= 0xBF }

  /** The second octet's range depends on the first: no overlong forms, surrogates or values above 10FFFF. */
  predicate Second(first: Byte, b: Byte) {
    (if first == 0xE0 then 0xA0 else if first == 0xF0 then 0x90 else 0x80) <= b
    <= (if first == 0xED then 0x9F else if first == 0xF4 then 0x8F else 0xBF)
  }

  predicate Scalar(n: int) { 0 <= n < 0xD800 || 0xE000 <= n < 0x11_0000 }

  function Chars(n: int, k: nat): Option<(char, nat)> {
    if Scalar(n) then Some((n as char, k)) else None
  }

  function Bits2(a: int, b: int): int { (a - 0xC0) * 64 + (b - 0x80) }

  function Bits3(a: int, b: int, c: int): int { (a - 0xE0) * 4096 + (b - 0x80) * 64 + (c - 0x80) }

  function Bits4(a: int, b: int, c: int, d: int): int {
    (a - 0xF0) * 262144 + (b - 0x80) * 4096 + (c - 0x80) * 64 + (d - 0x80)
  }

  /** The first character of some text and the number of its octets. */
  function FirstChar(bs: seq<Byte>): (r: Option<(char, nat)>)
    ensures r.Some? ==> 1 <= r.value.1 <= |bs|
  {
    if bs == [] then None
    else
      var b := bs[0];
      if b < 0x80 then Chars(b, 1)
      else if 0xC2 <= b <= 0xDF && |bs| >= 2 && Tail(bs[1]) then Chars(Bits2(b, bs[1]), 2)
      else if 0xE0 <= b <= 0xEF && |bs| >= 3 && Second(b, bs[1]) && Tail(bs[2]) then Chars(Bits3(b, bs[1], bs[2]), 3)
      else if 0xF0 <= b <= 0xF4 && |bs| >= 4 && Second(b, bs[1]) && Tail(bs[2]) && Tail(bs[3]) then
        Chars(Bits4(b, bs[1], bs[2], bs[3]), 4)
      else None
  }

  /** The ranges of the octets leave only scalar values, so nothing well-formed is refused. */
  lemma OctetsAreScalars(b: Byte, b1: Byte)
    requires Second(b, b1)
    ensures 0xE0 <= b <= 0xEF ==> forall b2: Byte :: Tail(b2) ==> 0x800 <= Bits3(b, b1, b2) < 0x1_0000 && Scalar(Bits3(b, b1, b2))
    ensures 0xF0 <= b <= 0xF4 ==> forall b2: Byte, b3: Byte :: Tail(b2) && Tail(b3) ==> 0x1_0000 <= Bits4(b, b1, b2, b3) < 0x11_0000
  {}

  /** The text of well-formed UTF-8, nothing for anything else. */
  function FromUtf8(bs: seq<Byte>): Option<string>
    decreases |bs|
  {
    if bs == [] then Some([])
    else
      var first := FirstChar(bs);
      if first.None? then None
      else
        var rest := FromUtf8(bs[first.value.1..]);
        if rest.None? then None else Some([first.value.0] + rest.value)
  }

  lemma FirstCharEncodes(bs: seq<Byte>)
    requires FirstChar(bs).Some?
    ensures EncodeChar(FirstChar(bs).value.0) == bs[..FirstChar(bs).value.1]
  {
    var k := FirstChar(bs).value.1;
    if k == 3 {
      OctetsAreScalars(bs[0], bs[1]);
      Digits3(bs[0] - 0xE0, bs[1] - 0x80, bs[2] - 0x80);
    } else if k == 4 {
      OctetsAreScalars(bs[0], bs[1]);
      Digits4(bs[0] - 0xF0, bs[1] - 0x80, bs[2] - 0x80, bs[3] - 0x80);
    }
  }

  lemma Digits3(a: int, b: int, c: int)
    requires 0 <= a && 0 <= b < 64 && 0 <= c < 64
    ensures var n := a * 4096 + b * 64 + c; n / 4096 == a && n / 64 % 64 == b && n % 64 == c
  {
    var n := a * 4096 + b * 64 + c;
    assert n / 64 == a * 64 + b;
    assert n / 4096 == a;
  }

  lemma Digits4(a: int, b: int, c: int, d: int)
    requires 0 <= a && 0 <= b < 64 && 0 <= c < 64 && 0 <= d < 64
    ensures var n := a * 262144 + b * 4096 + c * 64 + d;
      n / 262144 == a && n / 4096 % 64 == b && n / 64 % 64 == c && n % 64 == d
  {
    var n := a * 262144 + b * 4096 + c * 64 + d;
    assert n / 64 == a * 4096 + b * 64 + c;
    assert n / 4096 == a * 64 + b;
    assert n / 262144 == a;
  }

  lemma FirstCharOf(c: char, rest: seq<Byte>)
    ensures FirstChar(EncodeChar(c) + rest) == Some((c, |EncodeChar(c)|))
  {
    var n, bs := c as int, EncodeChar(c) + rest;
    assert Chars(n, |EncodeChar(c)|) == Some((c, |EncodeChar(c)|));
    if n < 0x80 {
      assert bs[0] == n;
    } else if n < 0x800 {
      assert Bits2(bs[0], bs[1]) == n && 0xC2 <= bs[0] <= 0xDF && Tail(bs[1]);
    } else if n < 0x1_0000 {
      Octets3(n);
      assert FirstChar(bs) == Chars(Bits3(bs[0], bs[1], bs[2]), 3);
    } else {
      Octets4(n);
      assert FirstChar(bs) == Chars(Bits4(bs[0], bs[1], bs[2], bs[3]), 4);
    }
  }

  lemma Octets3(n: int)
    requires Scalar(n) && 0x800 <= n < 0x1_0000
    ensures var a, b, c := 0xE0 + n / 4096, 0x80 + n / 64 % 64, 0x80 + n % 64;
      0xE0 <= a <= 0xEF && Second(a, b) && Tail(c) && Bits3(a, b, c) == n
  {
    assert n / 64 == n / 4096 * 64 + n / 64 % 64;
  }

  lemma Octets4(n: int)
    requires 0x1_0000 <= n < 0x11_0000
    ensures var a, b, c, d := 0xF0 + n / 262144, 0x80 + n / 4096 % 64, 0x80 + n / 64 % 64, 0x80 + n % 64;
      0xF0 <= a <= 0xF4 && Second(a, b) && Tail(c) && Tail(d) && Bits4(a, b, c, d) == n
  {
    assert n / 64 == n / 4096 * 64 + n / 64 % 64;
    assert n / 4096 == n / 262144 * 64 + n / 4096 % 64;
  }

  /** Decoding inverts encoding, and only what encoding produces is decoded. */
  lemma {:induction false} Utf8RoundTrip(t: string)
    ensures FromUtf8(Utf8(t)) == Some(t)
  {
    if t != [] {
      var head, rest := EncodeChar(t[0]), Utf8(t[1..]);
      FirstCharOf(t[0], rest);
      assert (head + rest)[|head|..] == rest;
      Utf8RoundTrip(t[1..]);
      assert t == [t[0]] + t[1..];
    }
  }

  lemma {:induction false} FromUtf8IsExact(bs: seq<Byte>)
    requires FromUtf8(bs).Some?
    ensures Utf8(FromUtf8(bs).value) == bs
    decreases |bs|
  {
    if bs != [] {
      var parts := DecodedChar(bs);
      FromUtf8IsExact(parts.1);
      Utf8Cons(parts.0, FromUtf8(parts.1).value);
    }
  }

  lemma DecodedChar(bs: seq<Byte>) returns (parts: (char, seq<Byte>))
    requires bs != [] && FromUtf8(bs).Some?
    ensures bs == EncodeChar(parts.0) + parts.1 && |parts.1| < |bs|
    ensures FromUtf8(parts.1).Some? && FromUtf8(bs).value == [parts.0] + FromUtf8(parts.1).value
  {
    var (c, k) := FirstChar(bs).value;
    FirstCharEncodes(bs);
    assert bs == bs[..k] + bs[k..];
    parts := (c, bs[k..]);
  }

  lemma Utf8Cons(c: char, t: string)
    ensures Utf8([c] + t) == EncodeChar(c) + Utf8(t)
  {
    assert ([c] + t)[1..] == t;
  }

  lemma {:induction false} Utf8Concat(a: string, b: string)
    ensures Utf8(a + b) == Utf8(a) + Utf8(b)
  {
    if a == [] {
      assert a + b == b;
    } else {
      assert (a + b)[1..] == a[1..] + b;
      Utf8Concat(a[1..], b);
    }
  }

  // ---------------------------------------------------------------- Base64

  type Sextet = x: int | 0 <= x < 64

  function Digit(v: Sextet): char {
    if v < 26 then ('A' as int + v) as char
    else if v < 52 then ('a' as int + v - 26) as char
    else if v < 62 then ('0' as int + v - 52) as char
    else if v == 62 then '+' else '/'
  }

  function ValueOf(c: char): (r: Option<Sextet>)
    ensures r.Some? ==> Digit(r.value) == c
  {
    if 'A' <= c <= 'Z' then Some(c as int - 'A' as int)
    else if 'a' <= c <= 'z' then Some(c as int - 'a' as int + 26)
    else if '0' <= c <= '9' then Some(c as int - '0' as int + 52)
    else if c == '+' then Some(62)
    else if c == '/' then Some(63)
    else None
  }

  lemma ValueOfDigit(v: Sextet)
    ensures ValueOf(Digit(v)) == Some(v) && Digit(v) != '='
  {}

  /** Three octets as four digits. */
  function Quad(a: Byte, b: Byte, c: Byte): string {
    [Digit(a / 4), Digit(a % 4 * 16 + b / 16), Digit(b % 16 * 4 + c / 64), Digit(c % 64)]
  }

  /** Four digits spell the same 24-bit number, base 64, as the three octets do, base 256. */
  lemma QuadIsNumber(a: Byte, b: Byte, c: Byte)
    ensures exists v: Sextet, w: Sextet, x: Sextet, y: Sextet ::
      && Quad(a, b, c) == [Digit(v), Digit(w), Digit(x), Digit(y)]
      && ((v * 64 + w) * 64 + x) * 64 + y == (a * 256 + b) * 256 + c
  {
    var v, w, x, y := a / 4, a % 4 * 16 + b / 16, b % 16 * 4 + c / 64, c % 64;
    assert Quad(a, b, c) == [Digit(v), Digit(w), Digit(x), Digit(y)];
    assert ((v * 64 + w) * 64 + x) * 64 + y == (a * 256 + b) * 256 + c;
  }

  function Base64(bs: seq<Byte>): string
    decreases |bs|
  {
    if |bs| == 0 then []
    else if |bs| == 1 then Quad(bs[0], 0, 0)[..2] + "=="
    else if |bs| == 2 then Quad(bs[0], bs[1], 0)[..3] + "="
    else Quad(bs[0], bs[1], bs[2]) + Base64(bs[3..])
  }

  /** Test vectors of RFC 4648, section 10, and one with the last two digits of the alphabet. */
  lemma Base64Vectors()
    ensures Base64([0x66]) == "Zg==" && Base64([0x66, 0x6F]) == "Zm8=" && Base64([0x66, 0x6F, 0x6F]) == "Zm9v"
    ensures Base64([0x66, 0x6F, 0x6F, 0x62, 0x61, 0x72]) == "Zm9vYmFy" && Base64([0xFB, 0xFF, 0xFE]) == "+//+"
  {
    assert [0x66, 0x6F, 0x6F][3..] == [] && [0xFB, 0xFF, 0xFE][3..] == [];
    var rest := [0x66, 0x6F, 0x6F, 0x62, 0x61, 0x72][3..];
    assert rest == [0x62, 0x61, 0x72] && rest[3..] == [];
  }

  /** One character of each length of encoding. */
  lemma Utf8Vectors()
    ensures Utf8("A") == [0x41] && Utf8("\U{E9}") == [0xC3, 0xA9]
    ensures Utf8("\U{20AC}") == [0xE2, 0x82, 0xAC] && Utf8("\U{1F600}") == [0xF0, 0x9F, 0x98, 0x80]
  {
    assert "A"[1..] == "" && "\U{E9}"[1..] == "" && "\U{20AC}"[1..] == "" && "\U{1F600}"[1..] == "";
  }

  /** Four digits as three octets. */
  function Triple(s: string): Option<(Byte, Byte, Byte)>
    requires |s| == 4
  {
    var v, w, x, y := ValueOf(s[0]), ValueOf(s[1]), ValueOf(s[2]), ValueOf(s[3]);
    if v.None? || w.None? || x.None? || y.None? then None else Some(Regroup(v.value, w.value, x.value, y.value))
  }

  function Regroup(v: int, w: int, x: int, y: int): (Byte, Byte, Byte)
    requires 0 <= v < 64 && 0 <= w < 64 && 0 <= x < 64 && 0 <= y < 64
  {
    (v * 4 + w / 16, w % 16 * 16 + x / 4, x % 4 * 64 + y)
  }

  /** The last quad, with one or two padding characters; `strict` wants the unused bits to be zero. */
  function DecodeLast(s: string, strict: bool): Option<seq<Byte>>
    requires |s| == 4 && s[3] == '='
  {
    var two := s[2] == '=';
    var t := Triple([s[0], s[1], if two then 'A' else s[2], 'A']);
    if t.None? then None
    else if two then (if strict && t.value.1 != 0 then None else Some([t.value.0]))
    else (if strict && t.value.2 != 0 then None else Some([t.value.0, t.value.1]))
  }

  /** Padding is required. A strict decoder also rejects non-zero unused bits. */
  function Decode64(s: string, strict: bool): Option<seq<Byte>>
    decreases |s|
  {
    if s == [] then Some([])
    else if |s| < 4 then None
    else if |s| == 4 && s[3] == '=' then DecodeLast(s, strict)
    else
      var t, rest := Triple(s[..4]), Decode64(s[4..], strict);
      if t.None? || rest.None? then None
      else Some([t.value.0, t.value.1, t.value.2] + rest.value)
  }

  lemma TripleOfQuad(a: Byte, b: Byte, c: Byte)
    ensures Triple(Quad(a, b, c)) == Some((a, b, c)) && forall i :: 0 <= i < 4 ==> Quad(a, b, c)[i] != '='
    ensures b == 0 && c == 0 ==> Quad(a, b, c)[2] == 'A'
    ensures c == 0 ==> Quad(a, b, c)[3] == 'A'
  {
    ValueOfDigit(a / 4);
    ValueOfDigit(a % 4 * 16 + b / 16);
    ValueOfDigit(b % 16 * 4 + c / 64);
    ValueOfDigit(c % 64);
    RegroupOf(a, b, c);
  }

  lemma RegroupOf(a: Byte, b: Byte, c: Byte)
    ensures Regroup(a / 4, a % 4 * 16 + b / 16, b % 16 * 4 + c / 64, c % 64) == (a, b, c)
  {}

  lemma QuadOfTriple(s: string)
    requires |s| == 4 && Triple(s).Some?
    ensures var (a, b, c) := Triple(s).value; Quad(a, b, c) == s
  {
    RegroupBack(ValueOf(s[0]).value, ValueOf(s[1]).value, ValueOf(s[2]).value, ValueOf(s[3]).value);
  }

  lemma RegroupBack(v: Sextet, w: Sextet, x: Sextet, y: Sextet)
    ensures var (a, b, c) := Regroup(v, w, x, y);
      a / 4 == v && a % 4 * 16 + b / 16 == w && b % 16 * 4 + c / 64 == x && c % 64 == y
  {}

  /** Both decoders invert the encoder. */
  lemma {:induction false} Base64RoundTrip(bs: seq<Byte>, strict: bool)
    ensures Decode64(Base64(bs), strict) == Some(bs)
    decreases |bs|
  {
    if |bs| < 3 {
      ShortRoundTrip(bs, strict);
    } else {
      var head, rest := bs[..3], bs[3..];
      Base64RoundTrip(rest, strict);
      LongRoundTrip(head, rest, strict);
      assert head + rest == bs;
    }
  }

  lemma ShortRoundTrip(bs: seq<Byte>, strict: bool)
    requires |bs| < 3
    ensures Decode64(Base64(bs), strict) == Some(bs)
  {
    if |bs| == 1 {
      EncodedOne(bs[0], strict);
      assert bs == [bs[0]];
    } else if |bs| == 2 {
      EncodedTwo(bs[0], bs[1], strict);
      assert bs == [bs[0], bs[1]];
    }
  }

  lemma LongRoundTrip(head: seq<Byte>, rest: seq<Byte>, strict: bool)
    requires |head| == 3 && Decode64(Base64(rest), strict) == Some(rest)
    ensures Decode64(Base64(head + rest), strict) == Some(head + rest)
  {
    assert head == [head[0], head[1], head[2]];
    Base64Cons(head[0], head[1], head[2], rest);
    DecodeCons(head[0], head[1], head[2], Base64(rest), strict);
  }

  lemma DecodeCons(a: Byte, b: Byte, c: Byte, text: string, strict: bool)
    requires Decode64(text, strict).Some?
    ensures Decode64(Quad(a, b, c) + text, strict) == Some([a, b, c] + Decode64(text, strict).value)
  {
    var quad := Quad(a, b, c);
    TripleOfQuad(a, b, c);
    assert (quad + text)[..4] == quad && (quad + text)[4..] == text && (quad + text)[3] == quad[3];
  }

  lemma EncodedOne(a: Byte, strict: bool)
    ensures Decode64(Base64([a]), strict) == Some([a])
  {
    var s := Base64([a]);
    TripleOfQuad(a, 0, 0);
    assert Quad(a, 0, 0) == [s[0], s[1], 'A', 'A'];
  }

  lemma EncodedTwo(a: Byte, b: Byte, strict: bool)
    ensures Decode64(Base64([a, b]), strict) == Some([a, b])
  {
    var s := Base64([a, b]);
    TripleOfQuad(a, b, 0);
    assert Quad(a, b, 0) == [s[0], s[1], s[2], 'A'];
  }

  /** The strict decoder accepts only what the encoder produces. */
  lemma {:induction false} StrictIsCanonical(s: string)
    requires Decode64(s, true).Some?
    ensures Base64(Decode64(s, true).value) == s
    decreases |s|
  {
    if s != [] {
      if |s| == 4 && s[3] == '=' {
        LastIsCanonical(s);
      } else {
        var parts := DecodedQuad(s, true);
        StrictIsCanonical(s[4..]);
        QuadOfTriple(s[..4]);
        Base64Cons(parts.0, parts.1, parts.2, parts.3);
        assert s == s[..4] + s[4..];
      }
    }
  }

  lemma DecodedQuad(s: string, strict: bool) returns (parts: (Byte, Byte, Byte, seq<Byte>))
    requires s != [] && !(|s| == 4 && s[3] == '=') && Decode64(s, strict).Some?
    ensures |s| >= 4 && Triple(s[..4]) == Some((parts.0, parts.1, parts.2)) && Decode64(s[4..], strict) == Some(parts.3)
    ensures Decode64(s, strict) == Some([parts.0, parts.1, parts.2] + parts.3)
  {
    var t := Triple(s[..4]).value;
    parts := (t.0, t.1, t.2, Decode64(s[4..], strict).value);
  }

  lemma Base64Cons(a: Byte, b: Byte, c: Byte, rest: seq<Byte>)
    ensures Base64([a, b, c] + rest) == Quad(a, b, c) + Base64(rest)
  {
    assert ([a, b, c] + rest)[3..] == rest;
  }

  lemma LastIsCanonical(s: string)
    requires |s| == 4 && s[3] == '=' && DecodeLast(s, true).Some?
    ensures Base64(DecodeLast(s, true).value) == s
  {
    var two := s[2] == '=';
    var quad := [s[0], s[1], if two then 'A' else s[2], 'A'];
    QuadOfTriple(quad);
    var (a, b, c) := Triple(quad).value;
    LastOctet(quad, a, b, c);
    if two {
      assert s == quad[..2] + "==";
    } else {
      assert s == quad[..3] + "=";
    }
  }

  /** A last digit of zero leaves no third octet, so the octets before it encode to the digits before it. */
  lemma LastOctet(quad: string, a: Byte, b: Byte, c: Byte)
    requires |quad| == 4 && quad[3] == 'A' && Quad(a, b, c) == quad
    ensures b == 0 && quad[2] == 'A' ==> c == 0 && Base64([a]) == quad[..2] + "=="
    ensures c == 0 ==> Base64([a, b]) == quad[..3] + "="
  {
    ValueOfDigit(c % 64);
    ValueOfDigit(b % 16 * 4 + c / 64);
    assert ValueOf('A') == Some(0);
  }

  /** The lenient decoder agrees wherever the strict one accepts, which is exactly on canonical texts. */
  lemma LenientAgrees(s: string)
    ensures Decode64(s, true).Some? ==> Decode64(s, false) == Decode64(s, true)
    ensures Decode64(s, true).Some? <==> Decode64(s, false).Some? && Base64(Decode64(s, false).value) == s
  {
    if Decode64(s, true).Some? {
      StrictIsCanonical(s);
      Base64RoundTrip(Decode64(s, true).value, false);
    }
    if Decode64(s, false).Some? {
      Base64RoundTrip(Decode64(s, false).value, true);
    }
  }

  /** Unused bits that are not zero: the lenient decoder reads one octet, the strict one rejects. */
  lemma LenientAcceptsMore()
    ensures Decode64("AB==", false) == Some([0]) && Decode64("AB==", true).None?
  {
    var s := "AB==";
    var padded := [s[0], s[1], 'A', 'A'];
    assert ValueOf(padded[0]) == Some(0) && ValueOf(padded[1]) == Some(1) && ValueOf(padded[2]) == Some(0);
    assert Regroup(0, 1, 0, 0) == (0, 16, 0);
    assert Triple(padded) == Some((0, 16, 0));
    assert DecodeLast(s, false) == Some([0]) && DecodeLast(s, true).None?;
  }

  lemma {:induction false} Base64Length(bs: seq<Byte>)
    ensures |Base64(bs)| == (|bs| + 2) / 3 * 4
    decreases |bs|
  {
    if |bs| >= 3 {
      Base64Length(bs[3..]);
      assert (|bs| + 2) / 3 == (|bs[3..]| + 2) / 3 + 1;
    }
  }
}
