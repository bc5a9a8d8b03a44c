/** Percent-encoding of components of a URL, over strings of 16-bit code units. */
module PercentEncoding {
  import opened Options

  type Unit = x: nat | x < 0x10000

  type Text = seq<Unit>

  type Byte = x: nat | x < 0x100

  /** A text of characters below U+10000. */
  function Ascii(s: string): (t: Text)
    ensures |t| == |s| && forall i :: 0 <= i < |s| ==> t[i] == s[i] as int % 0x10000
  {
    seq(|s|, i requires 0 <= i < |s| => s[i] as int % 0x10000)
  }

  const PERCENT: Unit := 0x25
  const SLASH: Unit := 0x2F

  predicate High(u: Unit) { 0xD800 <= u < 0xDC00 }

  predicate Low(u: Unit) { 0xDC00 <= u < 0xE000 }

  /** Letters, digits and - _ . ! ~ * ' ( ), which stand for themselves. */
  predicate Unreserved(u: Unit) {
    || 0x41 <= u <= 0x5A || 0x61 <= u <= 0x7A || 0x30 <= u <= 0x39
    || u == 0x2D || u == 0x5F || u == 0x2E || u == 0x21 || u == 0x7E || u == 0x2A || u == 0x27 || u == 0x28 || u == 0x29
  }

  // ---------------------------------------------------------------- code points

  type CodePoint = x: nat | x < 0x110000

  /** A code point that is not half of a surrogate pair. */
  predicate Scalar(c: nat) {
    c < 0xD800 || 0xE000 <= c < 0x110000
  }

  /** How many units the first code point takes: 0 when it is half of a pair. */
  function Width(s: Text): nat
    requires s != []
  {
    if !High(s[0]) && !Low(s[0]) then 1
    else if High(s[0]) && |s| > 1 && Low(s[1]) then 2
    else 0
  }

  function First(s: Text): (c: CodePoint)
    requires s != [] && Width(s) > 0
    ensures Scalar(c) && Units(c) == s[..Width(s)]
  {
    if Width(s) == 1 then s[0]
    else
      var high: int, low: int := s[0], s[1];
      0x10000 + (high - 0xD800) * 0x400 + (low - 0xDC00)
  }

  function Units(c: CodePoint): Text {
    if c < 0x10000 then [c] else [0xD800 + (c - 0x10000) / 0x400, 0xDC00 + (c - 0x10000) % 0x400]
  }

  // ---------------------------------------------------------------- octets

  function Octets(c: CodePoint): seq<Byte> {
    if c < 0x80 then [c]
    else if c < 0x800 then [0xC0 + c / 0x40, 0x80 + c % 0x40]
    else if c < 0x10000 then [0xE0 + c / 0x1000, 0x80 + c / 0x40 % 0x40, 0x80 + c % 0x40]
    else [0xF0 + c / 0x40000, 0x80 + c / 0x1000 % 0x40, 0x80 + c / 0x40 % 0x40, 0x80 + c % 0x40]
  }

  /** How many octets a first octet announces; 0 when it cannot be a first one. */
  function Announced(b: Byte): nat {
    if b < 0x80 then 1
    else if 0xC0 <= b < 0xE0 then 2
    else if 0xE0 <= b < 0xF0 then 3
    else if 0xF0 <= b < 0xF8 then 4
    else 0
  }

  predicate Continues(b: Byte) { 0x80 <= b < 0xC0 }

  /** The six bits a continuation octet carries. */
  function Payload(b: Byte): nat
    requires Continues(b)
  {
    b - 0x80
  }

  /** The number the octets spell. */
  function Spelled(bs: seq<Byte>): nat
    requires 1 <= |bs| <= 4 && Announced(bs[0]) == |bs| && forall i :: 1 <= i < |bs| ==> Continues(bs[i])
  {
    var first: int := bs[0];
    if |bs| == 1 then first
    else if |bs| == 2 then (first - 0xC0) * 0x40 + Payload(bs[1])
    else if |bs| == 3 then (first - 0xE0) * 0x1000 + Payload(bs[1]) * 0x40 + Payload(bs[2])
    else (first - 0xF0) * 0x40000 + Payload(bs[1]) * 0x1000 + Payload(bs[2]) * 0x40 + Payload(bs[3])
  }

  /** The least number that needs so many octets. */
  function Least(n: nat): nat {
    if n == 2 then 0x80 else if n == 3 then 0x800 else if n == 4 then 0x10000 else 0
  }

  /** The code point of valid octets: no overlong form, no surrogate, nothing past U+10FFFF. */
  function Point(bs: seq<Byte>): Option<CodePoint>
    requires 1 <= |bs| <= 4 && Announced(bs[0]) == |bs|
  {
    if forall i :: 1 <= i < |bs| ==> Continues(bs[i]) then
      var c := Spelled(bs);
      if Least(|bs|) <= c && Scalar(c) then Some(c) else None
    else None
  }

  lemma OctetsValid(c: CodePoint)
    ensures 1 <= |Octets(c)| <= 4 && Announced(Octets(c)[0]) == |Octets(c)|
    ensures forall i :: 1 <= i < |Octets(c)| ==> Continues(Octets(c)[i])
  {}

  lemma PointOfOctets(c: CodePoint)
    requires Scalar(c)
    ensures 1 <= |Octets(c)| <= 4 && Announced(Octets(c)[0]) == |Octets(c)| && Point(Octets(c)) == Some(c)
  {
    OctetsValid(c);
    if c < 0x80 {
    } else if c < 0x800 {
      assert Spelled(Octets(c)) == c / 0x40 * 0x40 + c % 0x40;
    } else if c < 0x10000 {
      assert c / 0x1000 == c / 0x40 / 0x40;
      assert Spelled(Octets(c)) == c / 0x1000 * 0x1000 + c / 0x40 % 0x40 * 0x40 + c % 0x40;
    } else {
      assert c / 0x1000 == c / 0x40 / 0x40 && c / 0x40000 == c / 0x1000 / 0x40;
      assert Spelled(Octets(c)) == c / 0x40000 * 0x40000 + c / 0x1000 % 0x40 * 0x1000 + c / 0x40 % 0x40 * 0x40 + c % 0x40;
    }
  }

  // ---------------------------------------------------------------- escapes

  function HexUnit(n: nat): Unit
    requires n < 16
  {
    if n < 10 then 0x30 + n else 0x41 + n - 10
  }

  function HexValue(u: Unit): Option<nat> {
    if 0x30 <= u <= 0x39 then Some(u - 0x30)
    else if 0x41 <= u <= 0x46 then Some(u - 0x41 + 10)
    else if 0x61 <= u <= 0x66 then Some(u - 0x61 + 10)
    else None
  }

  function Escape(b: Byte): Text {
    [PERCENT, HexUnit(b / 16), HexUnit(b % 16)]
  }

  function Escapes(bs: seq<Byte>): Text {
    if bs == [] then [] else Escape(bs[0]) + Escapes(bs[1..])
  }

  /** The octet of an escape at the start of a text. */
  function Unescape(s: Text): (r: Option<Byte>)
    ensures r.Some? ==> |s| >= 3
  {
    if |s| >= 3 && s[0] == PERCENT && HexValue(s[1]).Some? && HexValue(s[2]).Some? then
      Some(HexValue(s[1]).value * 16 + HexValue(s[2]).value)
    else None
  }

  /** `n` octets from as many escapes. */
  function Unescapes(s: Text, n: nat): (r: Option<seq<Byte>>)
    ensures r.Some? ==> |r.value| == n && |s| >= 3 * n
    ensures r.Some? && n > 0 ==> Unescape(s) == Some(r.value[0])
  {
    if n == 0 then Some([])
    else
      var b := Unescape(s);
      if b.None? then None
      else
        var rest := Unescapes(s[3..], n - 1);
        if rest.None? then None else Some([b.value] + rest.value)
  }

  lemma EscapeUndone(b: Byte, more: Text)
    ensures Unescape(Escape(b) + more) == Some(b) && (Escape(b) + more)[3..] == more
  {
    var s := Escape(b) + more;
    assert s[0] == PERCENT && s[1] == HexUnit(b / 16) && s[2] == HexUnit(b % 16);
    assert b == b / 16 * 16 + b % 16;
  }

  lemma {:induction false} EscapesUndone(bs: seq<Byte>, more: Text)
    ensures |Escapes(bs)| == 3 * |bs| && Unescapes(Escapes(bs) + more, |bs|) == Some(bs)
  {
    if bs != [] {
      EscapesUndone(bs[1..], more);
      EscapeUndone(bs[0], Escapes(bs[1..]) + more);
      assert Escapes(bs) + more == Escape(bs[0]) + (Escapes(bs[1..]) + more);
      assert bs == [bs[0]] + bs[1..];
    }
  }

  // ---------------------------------------------------------------- components

  /** Encoding fails on half a surrogate pair. */
  function Encode(s: Text): Option<Text> {
    if s == [] then Some([])
    else if Unreserved(s[0]) then Before([s[0]], Encode(s[1..]))
    else if Width(s) == 0 then None
    else Before(Escapes(Octets(First(s))), Encode(s[Width(s)..]))
  }

  function Before(first: Text, rest: Option<Text>): Option<Text> {
    if rest.None? then None else Some(first + rest.value)
  }

  /** Decoding fails on a bad escape and on octets that are not UTF-8. */
  function Decode(s: Text): Option<Text>
    decreases |s|
  {
    if s == [] then Some([])
    else if s[0] != PERCENT then Before([s[0]], Decode(s[1..]))
    else
      var b := Unescape(s);
      if b.None? || Announced(b.value) == 0 then None
      else
        var n := Announced(b.value);
        var bs := Unescapes(s, n);
        if bs.None? then None
        else
          var c := Point(bs.value);
          if c.None? then None else Before(Units(c.value), Decode(s[3 * n..]))
  }

  lemma DecodeEscapes(c: CodePoint, more: Text)
    requires Scalar(c)
    ensures Decode(Escapes(Octets(c)) + more) == Before(Units(c), Decode(more))
  {
    var bs := Octets(c);
    var s := Escapes(bs) + more;
    PointOfOctets(c);
    EscapesUndone(bs, more);
    assert s[3 * |bs|..] == more;
    assert s[0] == PERCENT;
  }

  lemma DecodePlain(u: Unit, more: Text)
    requires u != PERCENT
    ensures Decode([u] + more) == Before([u], Decode(more))
  {
    assert ([u] + more)[1..] == more;
  }

  /** Decoding undoes encoding, on every text that can be encoded. */
  lemma {:induction false} RoundTrip(s: Text)
    requires Encode(s).Some?
    ensures Decode(Encode(s).value) == Some(s)
    decreases |s|
  {
    if s != [] {
      if Unreserved(s[0]) {
        RoundTrip(s[1..]);
        DecodePlain(s[0], Encode(s[1..]).value);
        assert s == [s[0]] + s[1..];
      } else {
        var w := Width(s);
        RoundTrip(s[w..]);
        DecodeEscapes(First(s), Encode(s[w..]).value);
        assert s == Units(First(s)) + s[w..];
      }
    }
  }

  /** No half of a pair stands alone. */
  ghost predicate WellFormed(s: Text) {
    && (forall i :: 0 <= i < |s| && High(s[i]) ==> i + 1 < |s| && Low(s[i + 1]))
    && (forall i :: 0 <= i < |s| && Low(s[i]) ==> i > 0 && High(s[i - 1]))
  }

  lemma {:induction false} EncodeDefined(s: Text)
    ensures Encode(s).Some? <==> WellFormed(s)
    decreases |s|
  {
    if s != [] && Width(s) == 0 {
      assert !WellFormed(s) && Encode(s).None?;
    } else if s != [] {
      EncodeDefined(s[Width(s)..]);
      WellFormedRest(s);
    }
  }

  lemma WellFormedRest(s: Text)
    requires s != [] && Width(s) > 0
    ensures WellFormed(s) <==> WellFormed(s[Width(s)..])
  {
    var w := Width(s);
    var t := s[w..];
    if WellFormed(s) {
      forall i | 0 <= i < |t| && High(t[i]) ensures i + 1 < |t| && Low(t[i + 1]) { assert High(s[w + i]); }
      forall i | 0 <= i < |t| && Low(t[i]) ensures i > 0 && High(t[i - 1]) { assert Low(s[w + i]); }
    }
    if WellFormed(t) {
      forall i | 0 <= i < |s| && High(s[i]) ensures i + 1 < |s| && Low(s[i + 1]) { if i >= w { assert High(t[i - w]); } }
      forall i | 0 <= i < |s| && Low(s[i]) ensures i > 0 && High(s[i - 1]) { if i >= w { assert Low(t[i - w]); } }
    }
  }

  /** What an encoded component is made of. */
  ghost predicate Plain(s: Text) {
    forall i :: 0 <= i < |s| ==> Unreserved(s[i]) || s[i] == PERCENT
  }

  lemma {:induction false} EscapesPlain(bs: seq<Byte>)
    ensures Plain(Escapes(bs))
  {
    if bs != [] { EscapesPlain(bs[1..]); }
  }

  /** An encoded component holds unreserved characters and escapes only, so no slash. */
  lemma {:induction false} EncodedPlain(s: Text)
    requires Encode(s).Some?
    ensures Plain(Encode(s).value) && SLASH !in Encode(s).value
    decreases |s|
  {
    if s != [] {
      if Unreserved(s[0]) {
        EncodedPlain(s[1..]);
      } else {
        EncodedPlain(s[Width(s)..]);
        EscapesPlain(Octets(First(s)));
      }
    }
  }

  /** Unreserved characters stay as they are. */
  lemma {:induction false} EncodePlain(s: Text)
    requires forall i :: 0 <= i < |s| ==> Unreserved(s[i])
    ensures Encode(s) == Some(s)
  {
    if s != [] {
      EncodePlain(s[1..]);
      assert s == [s[0]] + s[1..];
    }
  }

  // ---------------------------------------------------------------- exactly these characters and octets

  /** What stands for itself, in characters. */
  lemma UnreservedAre(u: Unit)
    requires u < 0x80
    ensures Unreserved(u) <==>
      var c := u as char;
      'A' <= c <= 'Z' || 'a' <= c <= 'z' || '0' <= c <= '9' || c in {'-', '_', '.', '!', '~', '*', '\'', '(', ')'}
  {}

  lemma OnlyAsciiUnreserved(u: Unit)
    requires Unreserved(u)
    ensures u < 0x80
  {}

  lemma TwoOctets(b: Byte, x: Byte)
    requires Announced(b) == 2 && Continues(x) && Spelled([b, x]) >= 0x80
    ensures Spelled([b, x]) < 0x800 && Octets(Spelled([b, x])) == [b, x]
  {}

  lemma ThreeOctets(b: Byte, x: Byte, y: Byte)
    requires Announced(b) == 3 && Continues(x) && Continues(y) && Spelled([b, x, y]) >= 0x800
    ensures Spelled([b, x, y]) < 0x10000 && Octets(Spelled([b, x, y])) == [b, x, y]
  {
    var c := Spelled([b, x, y]);
    assert c / 0x40 == (b - 0xE0) * 0x40 + (x - 0x80);
  }

  lemma FourOctets(b: Byte, x: Byte, y: Byte, z: Byte)
    requires Announced(b) == 4 && Continues(x) && Continues(y) && Continues(z)
    requires 0x10000 <= Spelled([b, x, y, z]) < 0x110000
    ensures Octets(Spelled([b, x, y, z])) == [b, x, y, z]
  {
    var c := Spelled([b, x, y, z]);
    var first: int := b;
    assert c / 0x40 == (first - 0xF0) * 0x1000 + (x - 0x80) * 0x40 + (y - 0x80);
    assert c / 0x1000 == (first - 0xF0) * 0x40 + (x - 0x80);
  }

  /** The decoder takes octets for a code point exactly when they are its UTF-8 form: it accepts no overlong
      form, no surrogate and nothing past the last code point. */
  lemma PointExactly(bs: seq<Byte>, c: CodePoint)
    requires 1 <= |bs| <= 4 && Announced(bs[0]) == |bs|
    ensures Point(bs) == Some(c) <==> Scalar(c) && bs == Octets(c)
  {
    if Scalar(c) && bs == Octets(c) { PointOfOctets(c); }
    if Point(bs) == Some(c) {
      if |bs| == 2 {
        assert bs == [bs[0], bs[1]];
        TwoOctets(bs[0], bs[1]);
      } else if |bs| == 3 {
        assert bs == [bs[0], bs[1], bs[2]];
        ThreeOctets(bs[0], bs[1], bs[2]);
      } else if |bs| == 4 {
        assert bs == [bs[0], bs[1], bs[2], bs[3]];
        FourOctets(bs[0], bs[1], bs[2], bs[3]);
      }
    }
  }

  /** A slash and an accented letter, escaped in upper case. */
  lemma EscapedExamples()
    ensures Encode([0x2F]) == Some(Escape(0x2F)) && Escape(0x2F) == Ascii("%2F")
    ensures Encode([0xE9]) == Some(Escape(0xC3) + Escape(0xA9)) && Escape(0xC3) + Escape(0xA9) == Ascii("%C3%A9")
  {
    EncodedOne(0x2F);
    EncodedOne(0xE9);
    OneEscape(0x2F);
    OneEscape(0xA9);
    assert Octets(0xE9) == [0xC3, 0xA9] && [0xC3, 0xA9][1..] == [0xA9];
    assert Escapes([0xC3, 0xA9]) == Escape(0xC3) + Escapes([0xA9]);
  }

  lemma OneEscape(b: Byte)
    ensures Escapes([b]) == Escape(b)
  {
    assert [b][1..] == [] && Escape(b) + [] == Escape(b);
  }

  lemma EncodedOne(u: Unit)
    requires !Unreserved(u) && !High(u) && !Low(u)
    ensures Encode([u]) == Some(Escapes(Octets(u)))
  {
    assert [u][1..] == [];
    assert Encode([]) == Some([]);
    assert Escapes(Octets(u)) + [] == Escapes(Octets(u));
  }

  // ---------------------------------------------------------------- prefixes

  lemma {:induction false} EncodePrefix(p: Text, x: Text)
    requires forall i :: 0 <= i < |p| ==> Unreserved(p[i])
    ensures Encode(p + x) == Before(p, Encode(x))
  {
    if p == [] {
      assert p + x == x;
      if Encode(x).Some? { assert [] + Encode(x).value == Encode(x).value; }
    } else {
      assert (p + x)[1..] == p[1..] + x && (p + x)[0] == p[0];
      EncodePrefix(p[1..], x);
      if Encode(x).Some? { assert [p[0]] + (p[1..] + Encode(x).value) == p + Encode(x).value; }
    }
  }

  lemma {:induction false} DecodePrefix(p: Text, y: Text)
    requires PERCENT !in p
    ensures Decode(p + y) == Before(p, Decode(y))
  {
    if p == [] {
      assert p + y == y;
      if Decode(y).Some? { assert [] + Decode(y).value == Decode(y).value; }
    } else {
      assert (p + y)[1..] == p[1..] + y && (p + y)[0] == p[0];
      DecodePrefix(p[1..], y);
      if Decode(y).Some? { assert [p[0]] + (p[1..] + Decode(y).value) == p + Decode(y).value; }
    }
  }
}
