/**
A hash and a JSON encoder of the kind the statements about digests ask for:
a text form of JSON in which every part ends itself, and an escaping that
leaves no '=' and no newline.
*/
module McpCodes {
  import opened SortedNames
  import opened McpSurface

  // ----- strings -----------------------------------------------------------------------

  function Str(s: string): string {
    if s == [] then "." else "," + [s[0]] + Str(s[1..])
  }

  lemma {:induction false} StrCut(a: string, x: string, b: string, y: string)
    requires Str(a) + x == Str(b) + y
    ensures a == b && x == y
  {
    var s, t := Str(a) + x, Str(b) + y;
    assert s[0] == t[0] && s[1..] == t[1..];
    if a == [] {
      assert s[1..] == x && t[1..] == y;
    } else {
      assert s[1] == t[1] && s[2..] == t[2..];
      assert s[2..] == Str(a[1..]) + x && t[2..] == Str(b[1..]) + y;
      StrCut(a[1..], x, b[1..], y);
      assert a == [a[0]] + a[1..] && b == [b[0]] + b[1..];
    }
  }

  // ----- JSON --------------------------------------------------------------------------

  /** Object fields go in the order of their keys. */
  ghost function Text(j: Json): string
    decreases j, 1, 0
  {
    match j
    case JNull => "n"
    case JBool(b) => if b then "t" else "f"
    case JNum(text) => "#" + Str(text)
    case JStr(s) => "s" + Str(s)
    case JArr(items) => "[" + Items(j, 0)
    case JObj(fields) => "{" + Fields(j, SortedKeys(fields.Keys))
  }

  ghost function Items(j: Json, k: nat): string
    requires j.JArr? && k <= |j.items|
    decreases j, 0, |j.items| - k
  {
    if k == |j.items| then "." else "," + (Text(j.items[k]) + Items(j, k + 1))
  }

  ghost function Fields(j: Json, names: seq<string>): string
    requires j.JObj? && forall n :: n in names ==> n in j.fields
    decreases j, 0, |names|
  {
    if names == [] then "." else "," + (Str(names[0]) + (Text(j.fields[names[0]]) + Fields(j, names[1..])))
  }

  /** The first character of a text and what follows. */
  lemma Head(c: char, s: string, x: string, d: char, t: string, y: string)
    requires [c] + s + x == [d] + t + y
    ensures c == d && s + x == t + y
  {
    assert ([c] + s + x)[0] == c && ([d] + t + y)[0] == d;
    assert ([c] + s + x)[1..] == s + x && ([d] + t + y)[1..] == t + y;
  }

  function Tag(j: Json): char {
    match j
    case JNull => 'n'
    case JBool(b) => if b then 't' else 'f'
    case JNum(_) => '#'
    case JStr(_) => 's'
    case JArr(_) => '['
    case JObj(_) => '{'
  }

  ghost function Rest(j: Json): string {
    match j
    case JNull => ""
    case JBool(_) => ""
    case JNum(text) => Str(text)
    case JStr(s) => Str(s)
    case JArr(_) => Items(j, 0)
    case JObj(fields) => Fields(j, SortedKeys(fields.Keys))
  }

  lemma TagAndRest(j: Json)
    ensures Text(j) == [Tag(j)] + Rest(j)
  {
  }

  /** A text tells where it ends and what it stands for. */
  lemma {:induction false} TextCut(a: Json, x: string, b: Json, y: string)
    requires Text(a) + x == Text(b) + y
    ensures a == b && x == y
    decreases a, 1, 0
  {
    TagAndRest(a);
    TagAndRest(b);
    Head(Tag(a), Rest(a), x, Tag(b), Rest(b), y);
    match a
    case JNull | JBool(_) => assert "" + x == x && "" + y == y;
    case JNum(text) => StrCut(text, x, b.text, y);
    case JStr(s) => StrCut(s, x, b.s, y);
    case JArr(items) =>
      ItemsCut(a, 0, x, b, 0, y);
      assert items[0..] == items && b.items[0..] == b.items;
    case JObj(fields) =>
      FieldsCut(a, SortedKeys(fields.Keys), x, b, SortedKeys(b.fields.Keys), y);
      assert fields.Keys == b.fields.Keys;
      assert fields == b.fields;
  }

  lemma {:induction false} ItemsCut(a: Json, k: nat, x: string, b: Json, l: nat, y: string)
    requires a.JArr? && k <= |a.items| && b.JArr? && l <= |b.items|
    requires Items(a, k) + x == Items(b, l) + y
    ensures a.items[k..] == b.items[l..] && x == y
    decreases a, 0, |a.items| - k
  {
    if k == |a.items| || l == |b.items| {
      assert (Items(a, k) + x)[0] == (Items(b, l) + y)[0];
      assert (Items(a, k) + x)[1..] == x && (Items(b, l) + y)[1..] == y;
    } else {
      var u, v := Items(a, k + 1) + x, Items(b, l + 1) + y;
      Head(',', Text(a.items[k]) + Items(a, k + 1), x, ',', Text(b.items[l]) + Items(b, l + 1), y);
      assert Text(a.items[k]) + Items(a, k + 1) + x == Text(a.items[k]) + u;
      assert Text(b.items[l]) + Items(b, l + 1) + y == Text(b.items[l]) + v;
      TextCut(a.items[k], u, b.items[l], v);
      ItemsCut(a, k + 1, x, b, l + 1, y);
      assert a.items[k..] == [a.items[k]] + a.items[k + 1..];
      assert b.items[l..] == [b.items[l]] + b.items[l + 1..];
    }
  }

  lemma KeyCut(n: string, p: string, x: string, m: string, q: string, y: string)
    requires "," + (Str(n) + p) + x == "," + (Str(m) + q) + y
    ensures n == m && p + x == q + y
  {
    Head(',', Str(n) + p, x, ',', Str(m) + q, y);
    assert Str(n) + p + x == Str(n) + (p + x) && Str(m) + q + y == Str(m) + (q + y);
    StrCut(n, p + x, m, q + y);
  }

  lemma {:induction false} FieldsCut(a: Json, ns: seq<string>, x: string, b: Json, ms: seq<string>, y: string)
    requires a.JObj? && forall n :: n in ns ==> n in a.fields
    requires b.JObj? && forall n :: n in ms ==> n in b.fields
    requires Fields(a, ns) + x == Fields(b, ms) + y
    ensures ns == ms && x == y && forall n :: n in ns ==> a.fields[n] == b.fields[n]
    decreases a, 0, |ns|
  {
    if ns == [] || ms == [] {
      assert (Fields(a, ns) + x)[0] == (Fields(b, ms) + y)[0];
      assert (Fields(a, ns) + x)[1..] == x && (Fields(b, ms) + y)[1..] == y;
    } else {
      var n, m := ns[0], ms[0];
      var p, q := Text(a.fields[n]) + Fields(a, ns[1..]), Text(b.fields[m]) + Fields(b, ms[1..]);
      KeyCut(n, p, x, m, q, y);
      var u, v := Fields(a, ns[1..]) + x, Fields(b, ms[1..]) + y;
      assert p + x == Text(a.fields[n]) + u && q + y == Text(b.fields[m]) + v;
      TextCut(a.fields[n], u, b.fields[m], v);
      FieldsCut(a, ns[1..], x, b, ms[1..], y);
      assert ns == [n] + ns[1..] && ms == [m] + ms[1..];
    }
  }

  // ----- a hash ------------------------------------------------------------------------

  function Escape(c: char): (r: string)
    ensures 1 <= |r| <= 2
  {
    if c == '\\' then "\\\\" else if c == '\n' then "\\n" else if c == '=' then "\\e" else [c]
  }

  function Escaped(s: string): (r: string)
    ensures |r| >= |s|
  {
    if s == [] then "" else Escape(s[0]) + Escaped(s[1..])
  }

  lemma FreeConcat(s: string, t: string, c: char)
    requires Free(s, c) && Free(t, c)
    ensures Free(s + t, c)
  {
  }

  lemma EscapeIsClean(x: char, c: char)
    requires c == '\n' || c == '='
    ensures Free(Escape(x), c)
  {
  }

  lemma {:induction false} EscapedIsClean(s: string, c: char)
    requires c == '\n' || c == '='
    ensures Free(Escaped(s), c)
  {
    if s == [] {
    } else {
      EscapedIsClean(s[1..], c);
      EscapeIsClean(s[0], c);
      FreeConcat(Escape(s[0]), Escaped(s[1..]), c);
    }
  }

  lemma EscapeCut(c: char, x: string, d: char, y: string)
    requires Escape(c) + x == Escape(d) + y
    ensures c == d && x == y
  {
    var s, t := Escape(c) + x, Escape(d) + y;
    assert s[0] == Escape(c)[0] && t[0] == Escape(d)[0];
    assert |Escape(c)| == |Escape(d)|;
    assert |Escape(c)| == 2 ==> s[1] == Escape(c)[1] && t[1] == Escape(d)[1];
    assert s[|Escape(c)|..] == x && t[|Escape(d)|..] == y;
  }

  lemma {:induction false} EscapedIsInjective(s: string, t: string)
    requires Escaped(s) == Escaped(t)
    ensures s == t
  {
    if s == [] || t == [] {
    } else {
      EscapeCut(s[0], Escaped(s[1..]), t[0], Escaped(t[1..]));
      EscapedIsInjective(s[1..], t[1..]);
      assert s == [s[0]] + s[1..] && t == [t[0]] + t[1..];
    }
  }

  /** The assumptions on hash and encoder can be met together. */
  lemma HashAndEncoder() returns (h: Hash, enc: Encoder)
    ensures Injective(h) && HexLike(h) && Faithful(enc)
  {
    h, enc := Escaped, j => Text(j);
    forall s, t | h(s) == h(t)
      ensures s == t
    {
      EscapedIsInjective(s, t);
    }
    forall s
      ensures Free(h(s), '\n') && Free(h(s), '=')
    {
      EscapedIsClean(s, '\n');
      EscapedIsClean(s, '=');
    }
    forall a, b | enc(a) == enc(b)
      ensures a == b
    {
      assert Text(a) + "" == Text(a) && Text(b) + "" == Text(b);
      TextCut(a, "", b, "");
    }
  }
}
