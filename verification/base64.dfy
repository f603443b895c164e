/** `base64.StdEncoding.EncodeToString`: the Base64 encoding of section 4 of
    RFC 4648 with the standard alphabet and '=' padding. The decoder is here
    as the encoder's inverse; the source itself never decodes. */
module Base64 {
  import opened GoTypes

  const Pad: Byte := '='

  /** The symbol for a 6-bit value: Table 1 of RFC 4648, written as its four ranges. */
  function Sym(v: nat): (c: Byte)
    requires v < 64
  {
    if v < 26 then ('A' as int + v) as char
    else if v < 52 then ('a' as int + (v - 26)) as char
    else if v < 62 then ('0' as int + (v - 52)) as char
    else if v == 62 then '+'
    else '/'
  }

  predicate IsSym(c: Byte) {
    ('A' <= c <= 'Z') || ('a' <= c <= 'z') || ('0' <= c <= '9') || c == '+' || c == '/'
  }

  /** The 6-bit value of a symbol. */
  function Value(c: Byte): (v: nat)
    requires IsSym(c)
    ensures v < 64 && Sym(v) == c
  {
    if 'A' <= c <= 'Z' then c as int - 'A' as int
    else if 'a' <= c <= 'z' then c as int - 'a' as int + 26
    else if '0' <= c <= '9' then c as int - '0' as int + 52
    else if c == '+' then 62
    else 63
  }

  lemma SymValue(v: nat)
    requires v < 64
    ensures IsSym(Sym(v)) && Value(Sym(v)) == v
  {
  }

  /** The four 6-bit values of a group of three bytes `x`, `y`, `z`
      (a missing byte of a final group counts as zero). */
  function Sextet0(x: nat): nat requires x < 256 { x / 4 }
  function Sextet1(x: nat, y: nat): nat requires x < 256 && y < 256 { x % 4 * 16 + y / 16 }
  function Sextet2(y: nat, z: nat): nat requires y < 256 && z < 256 { y % 16 * 4 + z / 64 }
  function Sextet3(z: nat): nat requires z < 256 { z % 64 }

  /** Three bytes as four symbols. */
  function Quad(b0: Byte, b1: Byte, b2: Byte): (q: Bytes)
    ensures |q| == 4
  {
    var x, y, z := b0 as int, b1 as int, b2 as int;
    [Sym(Sextet0(x)), Sym(Sextet1(x, y)), Sym(Sextet2(y, z)), Sym(Sextet3(z))]
  }

  /** The encoding: whole groups of three bytes, then a final group of one
      or two bytes padded with '=' to four symbols. */
  function Encode(s: Bytes): (r: Bytes)
    ensures |r| == 4 * ((|s| + 2) / 3)
    decreases |s|
  {
    if |s| == 0 then []
    else if |s| == 1 then
      var x := s[0] as int;
      [Sym(Sextet0(x)), Sym(Sextet1(x, 0)), Pad, Pad]
    else if |s| == 2 then
      var x, y := s[0] as int, s[1] as int;
      [Sym(Sextet0(x)), Sym(Sextet1(x, y)), Sym(Sextet2(y, 0)), Pad]
    else Quad(s[0], s[1], s[2]) + Encode(s[3..])
  }

  /** The byte with code `n`. */
  function ByteOf(n: nat): Byte
    requires n < 256
  {
    n as char
  }

  /** The three bytes a group of four 6-bit values `a`, `b`, `c`, `d` stands for. */
  function Byte0(a: nat, b: nat): Byte requires a < 64 && b < 64 { ByteOf(a * 4 + b / 16) }
  function Byte1(b: nat, c: nat): Byte requires b < 64 && c < 64 { ByteOf(b % 16 * 16 + c / 4) }
  function Byte2(c: nat, d: nat): Byte requires c < 64 && d < 64 { ByteOf(c % 4 * 64 + d) }

  /** Decoding, the inverse of `Encode`: `None` for a length that is not a
      multiple of four or a character outside the alphabet. */
  function Decode(t: Bytes): (r: Option<Bytes>)
    decreases |t|
  {
    if |t| == 0 then Some([])
    else if |t| < 4 || !IsSym(t[0]) || !IsSym(t[1]) then None
    else
      var a, b := Value(t[0]), Value(t[1]);
      if |t| == 4 && t[2] == Pad && t[3] == Pad then Some([Byte0(a, b)])
      else if !IsSym(t[2]) then None
      else
        var c := Value(t[2]);
        if |t| == 4 && t[3] == Pad then Some([Byte0(a, b), Byte1(b, c)])
        else if !IsSym(t[3]) then None
        else
          match Decode(t[4..])
          case None => None
          case Some(rest) => Some([Byte0(a, b), Byte1(b, c), Byte2(c, Value(t[3]))] + rest)
  }

  lemma DivMod16(q: int, r: int)
    requires 0 <= r < 16
    ensures (q * 16 + r) / 16 == q && (q * 16 + r) % 16 == r
  {
  }

  lemma DivMod4(q: int, r: int)
    requires 0 <= r < 4
    ensures (q * 4 + r) / 4 == q && (q * 4 + r) % 4 == r
  {
  }

  /** The first byte of a group comes back from its first two symbols. */
  lemma FirstByteBack(x: nat, y: nat)
    requires x < 256 && y < 256
    ensures Sextet0(x) < 64 && Sextet1(x, y) < 64
    ensures Byte0(Sextet0(x), Sextet1(x, y)) == x as char
  {
    DivMod16(x % 4, y / 16);
  }

  /** The second byte comes back from the second and third symbols. */
  lemma SecondByteBack(x: nat, y: nat, z: nat)
    requires x < 256 && y < 256 && z < 256
    ensures Sextet1(x, y) < 64 && Sextet2(y, z) < 64
    ensures Byte1(Sextet1(x, y), Sextet2(y, z)) == y as char
  {
    DivMod16(x % 4, y / 16);
    DivMod4(y % 16, z / 64);
  }

  /** The third byte comes back from the third and fourth symbols. */
  lemma ThirdByteBack(y: nat, z: nat)
    requires y < 256 && z < 256
    ensures Sextet2(y, z) < 64 && Sextet3(z) < 64
    ensures Byte2(Sextet2(y, z), Sextet3(z)) == z as char
  {
    DivMod4(y % 16, z / 64);
  }

  /** Decoding a final group "ab==". */
  lemma DecodeOne(a: Byte, b: Byte)
    requires IsSym(a) && IsSym(b)
    ensures Decode([a, b, Pad, Pad]) == Some([Byte0(Value(a), Value(b))])
  {
  }

  /** Decoding a final group "abc=". */
  lemma DecodeTwo(a: Byte, b: Byte, c: Byte)
    requires IsSym(a) && IsSym(b) && IsSym(c)
    ensures Decode([a, b, c, Pad]) == Some([Byte0(Value(a), Value(b)), Byte1(Value(b), Value(c))])
  {
  }

  /** Decoding a whole group "abcd" followed by more. */
  lemma DecodeGroup(a: Byte, b: Byte, c: Byte, d: Byte, rest: Bytes, tail: Bytes)
    requires IsSym(a) && IsSym(b) && IsSym(c) && IsSym(d)
    requires Decode(rest) == Some(tail)
    ensures Decode([a, b, c, d] + rest)
            == Some([Byte0(Value(a), Value(b)), Byte1(Value(b), Value(c)), Byte2(Value(c), Value(d))] + tail)
  {
    var t := [a, b, c, d] + rest;
    assert t[0] == a && t[1] == b && t[2] == c && t[3] == d && t[4..] == rest;
  }

  /** A final group of one byte decodes back. */
  lemma OneByteBack(s: Bytes)
    requires |s| == 1
    ensures Decode(Encode(s)) == Some(s)
  {
    var x := s[0] as int;
    FirstByteBack(x, 0);
    var a, b := Sextet0(x), Sextet1(x, 0);
    SymValue(a);
    SymValue(b);
    DecodeOne(Sym(a), Sym(b));
    assert [Byte0(a, b)] == s;
  }

  /** A final group of two bytes decodes back. */
  lemma TwoBytesBack(s: Bytes)
    requires |s| == 2
    ensures Decode(Encode(s)) == Some(s)
  {
    var x, y := s[0] as int, s[1] as int;
    FirstByteBack(x, y);
    SecondByteBack(x, y, 0);
    var a, b, c := Sextet0(x), Sextet1(x, y), Sextet2(y, 0);
    SymValue(a);
    SymValue(b);
    SymValue(c);
    DecodeTwo(Sym(a), Sym(b), Sym(c));
    assert [Byte0(a, b), Byte1(b, c)] == s;
  }

  lemma Regroup(s: Bytes)
    requires |s| >= 3
    ensures s == [s[0], s[1], s[2]] + s[3..]
  {
  }

  /** A whole group decodes back, given that the groups after it do. */
  lemma GroupBack(s: Bytes)
    requires |s| >= 3
    requires Decode(Encode(s[3..])) == Some(s[3..])
    ensures Decode(Encode(s)) == Some(s)
  {
    var x, y, z := s[0] as int, s[1] as int, s[2] as int;
    FirstByteBack(x, y);
    SecondByteBack(x, y, z);
    ThirdByteBack(y, z);
    var a, b, c, d := Sextet0(x), Sextet1(x, y), Sextet2(y, z), Sextet3(z);
    SymValue(a);
    SymValue(b);
    SymValue(c);
    SymValue(d);
    assert Encode(s) == [Sym(a), Sym(b), Sym(c), Sym(d)] + Encode(s[3..]);
    DecodeGroup(Sym(a), Sym(b), Sym(c), Sym(d), Encode(s[3..]), s[3..]);
    assert Byte0(a, b) == s[0] && Byte1(b, c) == s[1] && Byte2(c, d) == s[2];
    Regroup(s);
  }

  /** Decoding an encoding gives the bytes back. */
  lemma {:induction false} RoundTrip(s: Bytes)
    ensures Decode(Encode(s)) == Some(s)
    decreases |s|
  {
    if |s| == 1 {
      OneByteBack(s);
    } else if |s| == 2 {
      TwoBytesBack(s);
    } else if |s| >= 3 {
      RoundTrip(s[3..]);
      GroupBack(s);
    }
  }

  /** Every character is a symbol of the alphabet or '=', and '=' appears
      only in the last two places. */
  predicate Canonical(r: Bytes) {
    forall i :: 0 <= i < |r| ==> IsSym(r[i]) || (r[i] == Pad && i >= |r| - 2)
  }

  lemma CanonicalGroup(a: Byte, b: Byte, c: Byte, d: Byte, rest: Bytes)
    requires IsSym(a) && IsSym(b) && IsSym(c) && IsSym(d)
    requires Canonical(rest)
    ensures Canonical([a, b, c, d] + rest)
  {
    var r := [a, b, c, d] + rest;
    forall i | 0 <= i < |r| ensures IsSym(r[i]) || (r[i] == Pad && i >= |r| - 2) {
      if i >= 4 {
        assert r[i] == rest[i - 4];
      }
    }
  }

  /** Each of the four 6-bit values of a group is below 64. */
  lemma SextetsBelow64(x: nat, y: nat, z: nat)
    requires x < 256 && y < 256 && z < 256
    ensures Sextet0(x) < 64 && Sextet1(x, y) < 64 && Sextet2(y, z) < 64 && Sextet3(z) < 64
  {
  }

  /** The four symbols of a whole group are all in the alphabet. */
  lemma QuadSymbols(b0: Byte, b1: Byte, b2: Byte)
    ensures var q := Quad(b0, b1, b2); IsSym(q[0]) && IsSym(q[1]) && IsSym(q[2]) && IsSym(q[3])
  {
    var x, y, z := b0 as int, b1 as int, b2 as int;
    SextetsBelow64(x, y, z);
    SymValue(Sextet0(x));
    SymValue(Sextet1(x, y));
    SymValue(Sextet2(y, z));
    SymValue(Sextet3(z));
  }

  /** A final group "ab==" or "abc=" is canonical. */
  lemma CanonicalFinal(a: Byte, b: Byte, c: Byte)
    requires IsSym(a) && IsSym(b) && (IsSym(c) || c == Pad)
    ensures Canonical([a, b, c, Pad])
  {
  }

  /** The encoding of one or two final bytes is canonical. */
  lemma FinalGroupCanonical(s: Bytes)
    requires 1 <= |s| <= 2
    ensures Canonical(Encode(s))
  {
    var x := s[0] as int;
    var y := if |s| == 2 then s[1] as int else 0;
    SextetsBelow64(x, y, 0);
    var a, b, c := Sym(Sextet0(x)), Sym(Sextet1(x, y)), Sym(Sextet2(y, 0));
    SymValue(Sextet0(x));
    SymValue(Sextet1(x, y));
    SymValue(Sextet2(y, 0));
    if |s| == 1 {
      CanonicalFinal(a, b, Pad);
    } else {
      CanonicalFinal(a, b, c);
    }
  }

  /** What an encoding is made of. */
  lemma {:induction false} EncodeAlphabet(s: Bytes)
    ensures Canonical(Encode(s))
    decreases |s|
  {
    if 1 <= |s| <= 2 {
      FinalGroupCanonical(s);
    } else if |s| >= 3 {
      var q := Quad(s[0], s[1], s[2]);
      QuadSymbols(s[0], s[1], s[2]);
      EncodeAlphabet(s[3..]);
      CanonicalGroup(q[0], q[1], q[2], q[3], Encode(s[3..]));
      assert [q[0], q[1], q[2], q[3]] == q;
    }
  }

  /** The two credential examples: an empty key and secret give "Og==",
      and ("foo", "bar") gives "Zm9vOmJhcg==". */
  lemma Examples()
    ensures Encode(":") == "Og=="
    ensures Encode("foo:bar") == "Zm9vOmJhcg=="
  {
    var foo, cba, r := Quad('f', 'o', 'o'), Quad(':', 'b', 'a'), Encode("r");
    assert foo == "Zm9v";
    assert cba == "OmJh";
    assert r == "cg==";
    assert Encode(":bar") == cba + r;
    assert Encode("foo:bar") == foo + Encode(":bar");
  }
}
