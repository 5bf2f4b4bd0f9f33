/** The excerpting of checker/mcpcheck.go: text a server controls, made safe to render and to read. */
module McpText {
  import opened FlatMaps
  import opened Utf8

  // ----- mcpAround ---------------------------------------------------------------------

  /** p is the last rune start at or before want, or 0. */
  ghost predicate BacksUpTo(text: seq<Byte>, want: int, p: nat) {
    && p <= want && p < |text| && (p == 0 || RuneStart(text[p]))
    && forall k :: p < k <= want && k < |text| ==> Continues(text[k])
  }

  /** p is the first rune start at or after want, or the end. */
  ghost predicate RunsOnTo(text: seq<Byte>, want: nat, p: nat) {
    want <= p && Boundary(text, p) && forall k :: want <= k < p ==> Continues(text[k])
  }

  /**
  The match with 40 bytes of context either way, widened to rune starts. The
  window is empty only when the text is.
  */
  method Around(text: seq<Byte>, from: nat, to: nat) returns (excerpt: seq<Byte>, start: nat, end: nat)
    requires from <= to <= |text|
    ensures start <= from <= to <= end <= |text| && excerpt == text[start..end]
    ensures text != [] ==> BacksUpTo(text, if from < 40 then 0 else from - 40, start)
    ensures RunsOnTo(text, if to + 40 < |text| then to + 40 else |text|, end)
    ensures Valid(text) ==> Valid(excerpt)
  {
    var s, e: int := from - 40, to + 40;
    if s < 0 {
      s := 0;
    }
    if e > |text| {
      e := |text|;
    }
    ghost var s0, e0 := s, e;
    while s > 0 && !RuneStart(text[s])
      invariant 0 <= s <= s0 <= from
      invariant s0 > 0 ==> s0 < |text|
      invariant forall k :: s < k <= s0 && k < |text| ==> Continues(text[k])
    {
      s := s - 1;
    }
    while e < |text| && !RuneStart(text[e])
      invariant to <= e0 <= e <= |text|
      invariant forall k :: e0 <= k < e ==> Continues(text[k])
    {
      e := e + 1;
    }
    start, end := s, e;
    excerpt := text[start..end];
    if Valid(text) {
      if start == 0 {
        ZeroIsBoundary(text);
      }
      SliceIsValid(text, start, end);
    }
  }

  /** Well-formed text does not begin with a continuation byte. */
  lemma ZeroIsBoundary(text: seq<Byte>)
    requires Valid(text)
    ensures Boundary(text, 0)
  {
    var rs :| Encode(rs) == text;
    if rs != [] {
      assert rs == [rs[0]] + rs[1..];
      FlatMapCons(EncodeRune, rs[0], rs[1..]);
      OnlyTheFirstStarts(rs[0], 0);
    }
  }

  // ----- mcpExcerpt ----------------------------------------------------------------------

  /** mcpHiddenRune. */
  predicate Hidden(r: Rune) {
    || 0x200B <= r <= 0x200F || 0x202A <= r <= 0x202E || 0x2060 <= r <= 0x2064
    || 0x2066 <= r <= 0x2069 || r == 0xFEFF || 0xE0000 <= r <= 0xE007F
  }

  predicate LineSpace(r: Rune) {
    r == 0x0A || r == 0x0D || r == 0x09
  }

  /** What a reader may see: neither hidden nor a newline, carriage return or tab. */
  predicate Visible(r: Rune) {
    !Hidden(r) && !LineSpace(r)
  }

  function HexDigit(d: nat): Rune
    requires d < 16
  {
    if d < 10 then 0x30 + d else 0x41 + d - 10
  }

  /** %04X of a hidden rune: four digits, five from U+E0000 on. */
  function Hex(r: Rune): seq<Rune> {
    (if r >= 0x10000 then [HexDigit(r / 0x10000 % 16)] else [])
    + [HexDigit(r / 0x1000 % 16), HexDigit(r / 0x100 % 16), HexDigit(r / 0x10 % 16), HexDigit(r % 16)]
  }

  /** The runes one rune is shown as: [U+XXXX] for a hidden one, a space for a line break or tab. */
  function Shown(r: Rune): seq<Rune> {
    if Hidden(r) then [0x5B, 0x55, 0x2B] + Hex(r) + [0x5D]
    else if LineSpace(r) then [0x20]
    else [r]
  }

  /** The bytes one rune is written as. */
  function Written(r: Rune): seq<Byte> {
    Encode(Shown(r))
  }

  const DOTS: seq<Rune> := [0x2E, 0x2E, 0x2E]

  /** What the reader is shown of the first k runes, and dots when more were to come. */
  function Excerpt(rs: seq<Rune>, k: nat): seq<Rune>
    requires k <= |rs|
  {
    FlatMap(Shown, rs[..k]) + if k < |rs| then DOTS else []
  }

  /** The first j runes, as `write` writes them, leave room in n bytes. */
  predicate Room(write: Rune -> seq<Byte>, rs: seq<Rune>, n: nat, j: nat)
    requires j <= |rs|
  {
    |FlatMap(write, rs[..j])| < n
  }

  /** k is how far an excerpt of n bytes gets: to the end, or to where the text so far fills n bytes. */
  ghost predicate CutsAt(write: Rune -> seq<Byte>, rs: seq<Rune>, n: nat, k: nat) {
    k <= |rs| && (forall j :: 0 <= j < k ==> Room(write, rs, n, j)) && (k < |rs| ==> !Room(write, rs, n, k))
  }

  /** The loop of mcpExcerpt; `write` is its switch. */
  method Build(rs: seq<Rune>, n: nat, write: Rune -> seq<Byte>, dots: seq<Byte>) returns (sb: seq<Byte>, ghost k: nat)
    ensures CutsAt(write, rs, n, k)
    ensures sb == FlatMap(write, rs[..k]) + if k < |rs| then dots else []
  {
    sb := [];
    k := 0;
    for i := 0 to |rs|
      invariant k == i && sb == FlatMap(write, rs[..i])
      invariant forall j :: 0 <= j < i ==> Room(write, rs, n, j)
    {
      assert Room(write, rs, n, i) <==> |sb| < n;
      if |sb| >= n {
        sb := sb + dots;
        return;
      }
      FlatMapNext(write, rs, i);
      sb := sb + write(rs[i]);
      k := i + 1;
    }
  }

  /** mcpExcerpt. */
  method MakeExcerpt(s: seq<Byte>, n: nat) returns (excerpt: seq<Byte>)
    ensures exists k :: CutsAt(Written, Runes(s), n, k) && excerpt == Encode(Excerpt(Runes(s), k))
  {
    ghost var k;
    excerpt, k := Build(Runes(s), n, Written, Encode(DOTS));
    ExcerptIsWritten(Runes(s), k);
  }

  lemma ExcerptIsWritten(rs: seq<Rune>, k: nat)
    requires k <= |rs|
    ensures Encode(Excerpt(rs, k)) == FlatMap(Written, rs[..k]) + if k < |rs| then Encode(DOTS) else []
  {
    FlatMapCompose(Shown, EncodeRune, Written, rs[..k]);
    FlatMapConcat(EncodeRune, FlatMap(Shown, rs[..k]), if k < |rs| then DOTS else []);
  }

  /** There is one cut. */
  lemma CutIsUnique(write: Rune -> seq<Byte>, rs: seq<Rune>, n: nat, j: nat, k: nat)
    requires CutsAt(write, rs, n, j) && CutsAt(write, rs, n, k)
    ensures j == k
  {
    var atJ, atK := Room(write, rs, n, j), Room(write, rs, n, k);
  }

  // ----- what an excerpt never contains ------------------------------------------------------

  lemma HexIsAscii(r: Rune)
    ensures |Hex(r)| <= 5 && forall k :: 0 <= k < |Hex(r)| ==> 0x30 <= Hex(r)[k] <= 0x46
  {
  }

  lemma ShownIsVisible(r: Rune)
    ensures forall x :: x in Shown(r) ==> Visible(x)
  {
    HexIsAscii(r);
    assert forall x :: x in Hex(r) ==> 0x30 <= x <= 0x46;
  }

  lemma {:induction false} AsciiIsShort(rs: seq<Rune>)
    requires forall k :: 0 <= k < |rs| ==> rs[k] < 0x80
    ensures |Encode(rs)| == |rs|
    decreases |rs|
  {
    if rs == [] {
    } else {
      AsciiIsShort(rs[..|rs| - 1]);
    }
  }

  lemma WrittenIsShort(r: Rune)
    ensures |Written(r)| <= 9
  {
    HexIsAscii(r);
    if Hidden(r) {
      AsciiIsShort(Shown(r));
    } else {
      FlatMapOne(EncodeRune, Shown(r)[0]);
    }
  }

  lemma LengthAtCut(write: Rune -> seq<Byte>, rs: seq<Rune>, n: nat, k: nat)
    requires CutsAt(write, rs, n, k) && forall r :: |write(r)| <= 9
    ensures |FlatMap(write, rs[..k])| <= n + 8
  {
    if k > 0 {
      assert Room(write, rs, n, k - 1);
      FlatMapNext(write, rs, k - 1);
    }
  }

  lemma ExcerptIsVisible(rs: seq<Rune>, k: nat)
    requires k <= |rs|
    ensures forall r :: r in Excerpt(rs, k) ==> Visible(r)
  {
    forall r, x | r in rs[..k] && x in Shown(r)
      ensures Visible(x)
    {
      ShownIsVisible(r);
    }
    FlatMapAll(Shown, rs[..k], r => Visible(r));
    assert forall r :: r in DOTS ==> Visible(r);
  }

  lemma ExcerptIsShort(rs: seq<Rune>, n: nat, k: nat)
    requires CutsAt(Written, rs, n, k)
    ensures |Encode(Excerpt(rs, k))| <= n + 11
  {
    ExcerptIsWritten(rs, k);
    AsciiIsShort(DOTS);
    forall r: Rune
      ensures |Written(r)| <= 9
    {
      WrittenIsShort(r);
    }
    LengthAtCut(Written, rs, n, k);
  }

  /**
  For every string and bound, the excerpt is well-formed UTF-8 without hidden
  runes, newlines, carriage returns or tabs, at most n + 11 bytes long.
  */
  lemma ExcerptIsSafe(s: seq<Byte>, n: nat, k: nat)
    requires CutsAt(Written, Runes(s), n, k)
    ensures var excerpt := Encode(Excerpt(Runes(s), k));
      Valid(excerpt) && |excerpt| <= n + 11 && forall r :: r in Runes(excerpt) ==> Visible(r)
  {
    RunesOfEncoded(Excerpt(Runes(s), k));
    ExcerptIsVisible(Runes(s), k);
    ExcerptIsShort(Runes(s), n, k);
  }

  // ----- what an excerpt still tells ---------------------------------------------------------

  /** Zero-width space, non-joiner and joiner, and the left-to-right and right-to-left marks. */
  const ZERO_WIDTH: set<int> := {0x200B, 0x200C, 0x200D, 0x200E, 0x200F}

  /** Bidirectional embeddings, overrides and their end, and isolates and their end. */
  const BIDI_CONTROLS: set<int> := {0x202A, 0x202B, 0x202C, 0x202D, 0x202E, 0x2066, 0x2067, 0x2068, 0x2069}

  /** The word joiner and the invisible operators, and the byte order mark. */
  const INVISIBLE: set<int> := {0x2060, 0x2061, 0x2062, 0x2063, 0x2064, 0xFEFF}

  /** The hidden runes: these, and the block of 128 tag characters. */
  lemma HiddenRunesAre(r: Rune)
    ensures Hidden(r) <==>
      r in ZERO_WIDTH || r in BIDI_CONTROLS || r in INVISIBLE || r / 128 == 0xE0000 / 128
  {
  }

  /** The value of an upper-case hexadecimal digit. */
  function DigitValue(r: Rune): int {
    if 0x30 <= r <= 0x39 then r - 0x30 else r - 0x41 + 10
  }

  /** The number that hexadecimal digits write. */
  function HexValue(digits: seq<Rune>): int {
    if digits == [] then 0 else 16 * HexValue(digits[..|digits| - 1]) + DigitValue(digits[|digits| - 1])
  }

  lemma HexDigitReads(d: nat)
    requires d < 16
    ensures DigitValue(HexDigit(d)) == d
  {
  }

  lemma ReadsFour(a: Rune, b: Rune, c: Rune, d: Rune)
    ensures HexValue([a, b, c, d]) == ((DigitValue(a) * 16 + DigitValue(b)) * 16 + DigitValue(c)) * 16 + DigitValue(d)
  {
    assert [a, b, c, d][..3] == [a, b, c] && [a, b, c][..2] == [a, b] && [a, b][..1] == [a] && [a][..0] == [];
    assert HexValue([a]) == DigitValue(a);
    assert HexValue([a, b]) == 16 * HexValue([a]) + DigitValue(b);
    assert HexValue([a, b, c]) == 16 * HexValue([a, b]) + DigitValue(c);
  }

  lemma ReadsFive(x: Rune, a: Rune, b: Rune, c: Rune, d: Rune)
    ensures HexValue([x, a, b, c, d]) ==
      (((DigitValue(x) * 16 + DigitValue(a)) * 16 + DigitValue(b)) * 16 + DigitValue(c)) * 16 + DigitValue(d)
  {
    ReadsFour(x, a, b, c);
    assert [x, a, b, c, d][..4] == [x, a, b, c];
  }

  /** A number is its hexadecimal digits. */
  lemma SixteensOf(r: nat)
    ensures r < 0x10000 ==>
      r == ((r / 0x1000 % 16 * 16 + r / 0x100 % 16) * 16 + r / 0x10 % 16) * 16 + r % 16
    ensures r < 0x100000 ==>
      r == (((r / 0x10000 % 16 * 16 + r / 0x1000 % 16) * 16 + r / 0x100 % 16) * 16 + r / 0x10 % 16) * 16 + r % 16
  {
    assert r / 0x10 / 16 == r / 0x100 && r / 0x100 / 16 == r / 0x1000 && r / 0x1000 / 16 == r / 0x10000;
  }

  lemma HexReads(r: Rune)
    requires 0x1000 <= r < 0x100000
    ensures |Hex(r)| >= 4 && HexValue(Hex(r)) == r
  {
    var a, b, c, d := r / 0x1000 % 16, r / 0x100 % 16, r / 0x10 % 16, r % 16;
    SixteensOf(r);
    HexDigitReads(a);
    HexDigitReads(b);
    HexDigitReads(c);
    HexDigitReads(d);
    if r >= 0x10000 {
      HexReadsFive(r, r / 0x10000 % 16, a, b, c, d);
    } else {
      assert Hex(r) == [HexDigit(a), HexDigit(b), HexDigit(c), HexDigit(d)];
      ReadsFour(HexDigit(a), HexDigit(b), HexDigit(c), HexDigit(d));
    }
  }

  lemma HexReadsFive(r: Rune, x: nat, a: nat, b: nat, c: nat, d: nat)
    requires r >= 0x10000 && x == r / 0x10000 % 16 && a == r / 0x1000 % 16 && b == r / 0x100 % 16
    requires c == r / 0x10 % 16 && d == r % 16 && r == (((x * 16 + a) * 16 + b) * 16 + c) * 16 + d
    ensures |Hex(r)| == 5 && HexValue(Hex(r)) == r
  {
    HexDigitReads(x);
    HexDigitReads(a);
    HexDigitReads(b);
    HexDigitReads(c);
    HexDigitReads(d);
    assert Hex(r) == [HexDigit(x), HexDigit(a), HexDigit(b), HexDigit(c), HexDigit(d)];
    ReadsFive(HexDigit(x), HexDigit(a), HexDigit(b), HexDigit(c), HexDigit(d));
  }

  /** A hidden rune can be read back from what is shown for it: its number in at least four digits. */
  lemma ShownTellsHidden(r: Rune)
    requires Hidden(r)
    ensures Shown(r) == [0x5B, 0x55, 0x2B] + Hex(r) + [0x5D]
    ensures |Hex(r)| >= 4 && HexValue(Hex(r)) == r
  {
    HexReads(r);
  }

  /** A newline, a carriage return and a tab are each shown as one space. */
  lemma LineBreaksAreSpaces(c: char)
    requires c == '\n' || c == '\r' || c == '\t'
    ensures Shown(c as int) == [' ' as int]
  {
  }

  /** An excerpt of part of the input ends in three dots. */
  lemma PartEndsInDots(rs: seq<Rune>, k: nat)
    requires k < |rs|
    ensures var e := Excerpt(rs, k);
      |e| >= 3 && e[|e| - 3..] == ['.' as int, '.' as int, '.' as int] && e[..|e| - 3] == FlatMap(Shown, rs[..k])
  {
  }

  /** Text that a reader may see is shown as it is. */
  lemma {:induction false} VisibleIsUnchanged(rs: seq<Rune>)
    requires forall r :: r in rs ==> Visible(r)
    ensures FlatMap(Shown, rs) == rs
    decreases |rs|
  {
    if rs == [] {
    } else {
      var init, last := rs[..|rs| - 1], rs[|rs| - 1];
      assert last in rs;
      VisibleIsUnchanged(init);
      assert rs == init + [last];
    }
  }

  /** The first runes of a visible text are written as they are, in fewer bytes than all of it. */
  lemma PrefixIsShorter(rs: seq<Rune>, k: nat)
    requires k < |rs| && forall r :: r in rs ==> Visible(r)
    ensures |FlatMap(Written, rs[..k])| < |Encode(rs)|
  {
    VisibleIsUnchanged(rs[..k]);
    FlatMapCompose(Shown, EncodeRune, Written, rs[..k]);
    assert rs == rs[..k] + rs[k..] && rs[k..] == [rs[k]] + rs[k + 1..];
    FlatMapConcat(EncodeRune, rs[..k], rs[k..]);
    FlatMapCons(EncodeRune, rs[k], rs[k + 1..]);
  }

  /** A visible text of at most n bytes is its own excerpt. */
  lemma ShortVisibleText(rs: seq<Rune>, n: nat, k: nat)
    requires forall r :: r in rs ==> Visible(r)
    requires |Encode(rs)| <= n && CutsAt(Written, rs, n, k)
    ensures Excerpt(rs, k) == rs
  {
    if k < |rs| {
      PrefixIsShorter(rs, k);
      assert Room(Written, rs, n, k);
    } else {
      VisibleIsUnchanged(rs);
      assert rs[..k] == rs;
    }
  }
}
