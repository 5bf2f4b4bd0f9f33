/** UTF-8 as section 3 of RFC 3629 defines it, with Go's reading of malformed bytes. */
module Utf8 {
  import opened FlatMaps

  type Byte = b: int | 0 <= b < 256

  /** A Unicode scalar value. */
  type Rune = r: int | 0 <= r < 0xD800 || 0xE000 <= r < 0x110000

  const REPLACEMENT: Rune := 0xFFFD

  function EncodeRune(r: Rune): (s: seq<Byte>)
    ensures 1 <= |s| <= 4
  {
    if r < 0x80 then [r]
    else if r < 0x800 then [0xC0 + r / 0x40, 0x80 + r % 0x40]
    else if r < 0x10000 then [0xE0 + r / 0x1000, 0x80 + r / 0x40 % 0x40, 0x80 + r % 0x40]
    else [0xF0 + r / 0x40000, 0x80 + r / 0x1000 % 0x40, 0x80 + r / 0x40 % 0x40, 0x80 + r % 0x40]
  }

  function Encode(rs: seq<Rune>): seq<Byte> {
    FlatMap(EncodeRune, rs)
  }

  predicate Continues(b: Byte) {
    0x80 <= b < 0xC0
  }

  /** utf8.RuneStart. */
  predicate RuneStart(b: Byte) {
    !Continues(b)
  }

  /** The second bytes that may follow a three- or four-byte lead. */
  predicate Second(lead: Byte, b: Byte) {
    match lead
    case 0xE0 => 0xA0 <= b < 0xC0
    case 0xED => 0x80 <= b < 0xA0
    case 0xF0 => 0x90 <= b < 0xC0
    case 0xF4 => 0x80 <= b < 0x90
    case _ => Continues(b)
  }

  /** The six bits a continuation byte carries. */
  function Low(b: Byte): int {
    b - 0x80
  }

  /** utf8.DecodeRune: anything malformed reads as one replacement rune for one byte. */
  function DecodeRune(s: seq<Byte>): (d: (Rune, nat))
    requires s != []
    ensures 1 <= d.1 <= |s|
  {
    var b: int := s[0];
    if b < 0x80 then (b, 1)
    else if 0xC2 <= b < 0xE0 && |s| >= 2 && Continues(s[1]) then ((b - 0xC0) * 0x40 + Low(s[1]), 2)
    else if 0xE0 <= b < 0xF0 && |s| >= 3 && Second(b, s[1]) && Continues(s[2]) then
      ((b - 0xE0) * 0x1000 + Low(s[1]) * 0x40 + Low(s[2]), 3)
    else if 0xF0 <= b < 0xF5 && |s| >= 4 && Second(b, s[1]) && Continues(s[2]) && Continues(s[3]) then
      ((b - 0xF0) * 0x40000 + Low(s[1]) * 0x1000 + Low(s[2]) * 0x40 + Low(s[3]), 4)
    else (REPLACEMENT, 1)
  }

  /** The runes a range loop over the string sees. */
  function Runes(s: seq<Byte>): seq<Rune>
    decreases |s|
  {
    if s == [] then [] else var (r, width) := DecodeRune(s); [r] + Runes(s[width..])
  }

  /** s is well-formed UTF-8. */
  ghost predicate Valid(s: seq<Byte>) {
    exists rs :: Encode(rs) == s
  }

  lemma DecodesTwo(r: Rune, s: seq<Byte>)
    requires 0x80 <= r < 0x800 && |s| >= 2 && s[..2] == EncodeRune(r)
    ensures DecodeRune(s) == (r, 2)
  {
    assert s[0] == s[..2][0] && s[1] == s[..2][1];
  }

  lemma DecodesThree(r: Rune, s: seq<Byte>)
    requires 0x800 <= r < 0x10000 && |s| >= 3 && s[..3] == EncodeRune(r)
    ensures DecodeRune(s) == (r, 3)
  {
    var a, b, c := r / 0x1000, r / 0x40 % 0x40, r % 0x40;
    assert r == a * 0x1000 + b * 0x40 + c;
    assert s[0] == s[..3][0] == 0xE0 + a && s[1] == s[..3][1] == 0x80 + b && s[2] == s[..3][2] == 0x80 + c;
    assert a == 0 ==> b >= 0x20;
    assert a == 0xD ==> b < 0x20;
  }

  /** A number below 2^21 in base 64. */
  lemma FourDigits(r: nat)
    requires r < 0x200000
    ensures r == r / 0x40000 * 0x40000 + r / 0x1000 % 0x40 * 0x1000 + r / 0x40 % 0x40 * 0x40 + r % 0x40
  {
    assert r / 0x40 / 0x40 == r / 0x1000;
    assert r / 0x1000 / 0x40 == r / 0x40000;
  }

  lemma DecodesFour(r: Rune, s: seq<Byte>)
    requires 0x10000 <= r && |s| >= 4 && s[..4] == EncodeRune(r)
    ensures DecodeRune(s) == (r, 4)
  {
    var a, b, c, d := r / 0x40000, r / 0x1000 % 0x40, r / 0x40 % 0x40, r % 0x40;
    FourDigits(r);
    assert s[0] == s[..4][0] == 0xF0 + a && s[1] == s[..4][1] == 0x80 + b;
    assert s[2] == s[..4][2] == 0x80 + c && s[3] == s[..4][3] == 0x80 + d;
    assert a == 0 ==> b >= 0x10;
    assert a == 4 ==> b < 0x10;
  }

  lemma DecodesEncoded(r: Rune, rest: seq<Byte>)
    ensures DecodeRune(EncodeRune(r) + rest) == (r, |EncodeRune(r)|)
  {
    var e, s := EncodeRune(r), EncodeRune(r) + rest;
    assert s[..|e|] == e;
    if r < 0x80 {
      assert s[0] == e[0];
    } else if r < 0x800 {
      DecodesTwo(r, s);
    } else if r < 0x10000 {
      DecodesThree(r, s);
    } else {
      DecodesFour(r, s);
    }
  }

  lemma DecodesFirst(r: Rune, rest: seq<Byte>)
    ensures Runes(EncodeRune(r) + rest) == [r] + Runes(rest)
  {
    var s := EncodeRune(r) + rest;
    DecodesEncoded(r, rest);
    assert s[|EncodeRune(r)|..] == rest;
  }

  /** Decoding undoes encoding. */
  lemma {:induction false} RunesOfEncoded(rs: seq<Rune>)
    ensures Runes(Encode(rs)) == rs
  {
    if rs == [] {
    } else {
      FlatMapCons(EncodeRune, rs[0], rs[1..]);
      assert rs == [rs[0]] + rs[1..];
      RunesOfEncoded(rs[1..]);
      DecodesFirst(rs[0], Encode(rs[1..]));
    }
  }

  lemma OnlyTheFirstStarts(r: Rune, k: nat)
    requires k < |EncodeRune(r)|
    ensures RuneStart(EncodeRune(r)[k]) <==> k == 0
  {
  }

  /** The ends of the string, and the positions of bytes that can start a rune. */
  predicate Boundary(s: seq<Byte>, p: nat) {
    p <= |s| && (p == |s| || RuneStart(s[p]))
  }

  /** k is where position p falls between two runes. */
  ghost predicate CutsBetween(rs: seq<Rune>, p: nat, k: nat) {
    k <= |rs| && p <= |Encode(rs)| && Encode(rs[..k]) == Encode(rs)[..p] && Encode(rs[k..]) == Encode(rs)[p..]
  }

  lemma CutsBetweenCons(r: Rune, rest: seq<Rune>, p: nat, k: nat)
    requires CutsBetween(rest, p, k)
    ensures CutsBetween([r] + rest, |EncodeRune(r)| + p, k + 1)
  {
    var rs := [r] + rest;
    assert rs[..k + 1] == [r] + rest[..k] && rs[k + 1..] == rest[k..];
    FlatMapCons(EncodeRune, r, rest);
    FlatMapCons(EncodeRune, r, rest[..k]);
  }

  lemma StartsInFirst(r: Rune, rest: seq<Byte>, p: nat)
    requires p < |EncodeRune(r)| && Boundary(EncodeRune(r) + rest, p)
    ensures p == 0
  {
    OnlyTheFirstStarts(r, p);
    assert (EncodeRune(r) + rest)[p] == EncodeRune(r)[p];
  }

  lemma BoundaryInRest(a: seq<Byte>, b: seq<Byte>, p: nat)
    requires |a| <= p && Boundary(a + b, p)
    ensures Boundary(b, p - |a|)
  {
  }

  /** In well-formed text a boundary is where some rune ends. */
  lemma {:induction false} BoundaryCuts(rs: seq<Rune>, p: nat) returns (k: nat)
    requires Boundary(Encode(rs), p)
    ensures CutsBetween(rs, p, k)
  {
    if p == 0 {
      k := 0;
      assert rs[0..] == rs && rs[..0] == [];
    } else {
      var r, tail := rs[0], rs[1..];
      assert rs == [r] + tail;
      FlatMapCons(EncodeRune, r, tail);
      if p < |EncodeRune(r)| {
        StartsInFirst(r, Encode(tail), p);
      }
      BoundaryInRest(EncodeRune(r), Encode(tail), p);
      var q := BoundaryCuts(tail, p - |EncodeRune(r)|);
      CutsBetweenCons(r, tail, p - |EncodeRune(r)|, q);
      k := q + 1;
    }
  }

  /** So cutting well-formed text at two boundaries leaves well-formed text. */
  lemma SliceIsValid(s: seq<Byte>, p: nat, q: nat)
    requires Valid(s) && p <= q && Boundary(s, p) && Boundary(s, q)
    ensures Valid(s[p..q])
  {
    var rs :| Encode(rs) == s;
    var k := BoundaryCuts(rs, q);
    var left := s[..q];
    assert Encode(rs[..k]) == left;
    assert Boundary(left, p);
    var i := BoundaryCuts(rs[..k], p);
    assert left[p..] == s[p..q];
    assert Encode(rs[..k][i..]) == s[p..q];
  }

  // ----- what malformed bytes read as ------------------------------------------------------

  lemma TwoBytes(s: seq<Byte>)
    requires |s| >= 2 && 0xC2 <= s[0] < 0xE0 && Continues(s[1])
    ensures var (r, width) := DecodeRune(s); width == 2 && EncodeRune(r) == [s[0], s[1]]
  {
    var a: int, b := s[0] - 0xC0, Low(s[1]);
    var r := a * 0x40 + b;
    assert r / 0x40 == a && r % 0x40 == b;
  }

  lemma ThreeBytes(s: seq<Byte>)
    requires |s| >= 3 && 0xE0 <= s[0] < 0xF0 && Second(s[0], s[1]) && Continues(s[2])
    ensures var (r, width) := DecodeRune(s); width == 3 && EncodeRune(r) == [s[0], s[1], s[2]]
  {
    var a: int, b, c := s[0] - 0xE0, Low(s[1]), Low(s[2]);
    var r := a * 0x1000 + b * 0x40 + c;
    assert r / 0x1000 == a && r / 0x40 == a * 0x40 + b && r % 0x40 == c;
    assert r / 0x40 % 0x40 == b;
  }

  lemma FourBytes(s: seq<Byte>)
    requires |s| >= 4 && 0xF0 <= s[0] < 0xF5 && Second(s[0], s[1]) && Continues(s[2]) && Continues(s[3])
    ensures var (r, width) := DecodeRune(s); width == 4 && EncodeRune(r) == [s[0], s[1], s[2], s[3]]
  {
    var a: int, b, c, d := s[0] - 0xF0, Low(s[1]), Low(s[2]), Low(s[3]);
    var r := a * 0x40000 + b * 0x1000 + c * 0x40 + d;
    assert r / 0x40000 == a && r / 0x1000 == a * 0x40 + b && r / 0x40 == a * 0x1000 + b * 0x40 + c && r % 0x40 == d;
    assert r / 0x1000 % 0x40 == b && r / 0x40 % 0x40 == c;
  }

  /** s begins with the encoding of r. */
  predicate BeginsWith(s: seq<Byte>, r: Rune) {
    EncodeRune(r) <= s
  }

  lemma BeginningDecodes(s: seq<Byte>, r: Rune)
    requires BeginsWith(s, r)
    ensures s != [] && DecodeRune(s) == (r, |EncodeRune(r)|)
  {
    DecodesEncoded(r, s[|EncodeRune(r)|..]);
    assert s == EncodeRune(r) + s[|EncodeRune(r)|..];
  }

  /**
  Decoding is exact: bytes that begin with the encoding of some rune read as
  that rune, and any others as one replacement rune for one byte.
  */
  lemma DecodeIsExact(s: seq<Byte>)
    requires s != []
    ensures forall r: Rune :: BeginsWith(s, r) ==> DecodeRune(s) == (r, |EncodeRune(r)|)
    ensures (forall r: Rune :: !BeginsWith(s, r)) ==> DecodeRune(s) == (REPLACEMENT, 1)
  {
    forall r: Rune | BeginsWith(s, r)
      ensures DecodeRune(s) == (r, |EncodeRune(r)|)
    {
      BeginningDecodes(s, r);
    }
    if DecodeRune(s) != (REPLACEMENT, 1) {
      DecodedIsThere(s);
    }
  }

  lemma DecodedIsThere(s: seq<Byte>)
    requires s != [] && DecodeRune(s) != (REPLACEMENT, 1)
    ensures BeginsWith(s, DecodeRune(s).0)
  {
    var r, width := DecodeRune(s).0, DecodeRune(s).1;
    if s[0] < 0x80 {
      assert s[..1] == [s[0]];
    } else if width == 2 {
      TwoBytes(s);
      assert s[..2] == [s[0], s[1]];
    } else if width == 3 {
      ThreeBytes(s);
      assert s[..3] == [s[0], s[1], s[2]];
    } else {
      FourBytes(s);
      assert s[..4] == [s[0], s[1], s[2], s[3]];
    }
  }
}
