/**
The tool-surface fingerprint of checker/mcpcheck.go: tool hashes, the digest
text over all of them, and its decoder. SHA-256 and the canonical JSON encoder
are parameters.
*/
module McpSurface {
  import opened Common
  import opened SortedNames

  type Hash = string -> string

  /** JSON after canonicalisation: objects have no order, a number is its canonical numeral. */
  datatype Json =
    | JNull
    | JBool(b: bool)
    | JNum(text: string)
    | JStr(s: string)
    | JArr(items: seq<Json>)
    | JObj(fields: map<string, Json>)

  type Encoder = Json -> string

  datatype Annotations = Annotations(
    title: string, readOnlyHint: bool, destructiveHint: Option<bool>, idempotentHint: bool, openWorldHint: Option<bool>)

  datatype Tool = Tool(
    name: string, title: string, description: string,
    inputSchema: Json, outputSchema: Json, annotations: Option<Annotations>)

  /** MCPToolHashes. */
  datatype ToolHashes = ToolHashes(
    hash: string, desc: string, schema: string, annotations: string, readOnly: bool, destructive: bool)

  type Tools = map<string, ToolHashes>

  // ----- fingerprints ------------------------------------------------------------------

  /** A field that is left out of the JSON object when it has its zero value. */
  function Field(present: bool, key: string, value: Json): map<string, Json> {
    if present then map[key := value] else map[]
  }

  function OptBool(b: Option<bool>): Json {
    if b.Some? then JBool(b.value) else JNull
  }

  function AnnotationsJson(a: Option<Annotations>): Json {
    match a
    case None => JNull
    case Some(a) => JObj(
      Field(a.title != "", "title", JStr(a.title))
      + Field(a.readOnlyHint, "readOnlyHint", JBool(true))
      + Field(a.destructiveHint.Some?, "destructiveHint", OptBool(a.destructiveHint))
      + Field(a.idempotentHint, "idempotentHint", JBool(true))
      + Field(a.openWorldHint.Some?, "openWorldHint", OptBool(a.openWorldHint)))
  }

  function ToolJson(t: Tool): Json {
    JObj(map[
      "name" := JStr(t.name), "title" := JStr(t.title), "description" := JStr(t.description),
      "inputSchema" := t.inputSchema, "outputSchema" := t.outputSchema,
      "annotations" := AnnotationsJson(t.annotations)])
  }

  function SchemaJson(t: Tool): Json {
    JObj(map["inputSchema" := t.inputSchema, "outputSchema" := t.outputSchema])
  }

  function ReadOnly(a: Option<Annotations>): bool {
    a.Some? && a.value.readOnlyHint
  }

  /** The effective destructive hint: absent means destructive, read-only means not. */
  function Destructive(a: Option<Annotations>): bool {
    !ReadOnly(a) && (a.None? || a.value.destructiveHint.None? || a.value.destructiveHint.value)
  }

  /** mcpFingerprintTool. */
  function Fingerprint(h: Hash, enc: Encoder, t: Tool): ToolHashes {
    ToolHashes(
      h(enc(ToolJson(t))), h(t.title + "\0" + t.description), h(enc(SchemaJson(t))),
      h(enc(AnnotationsJson(t.annotations))), ReadOnly(t.annotations), Destructive(t.annotations))
  }

  // ----- the digest text ------------------------------------------------------------------

  function Line(name: string, hash: string): string {
    name + "=" + hash + "\n"
  }

  function Lines(names: seq<string>, tools: Tools): string
    requires forall n :: n in names ==> n in tools
  {
    if names == [] then "" else Line(names[0], tools[names[0]].hash) + Lines(names[1..], tools)
  }

  const TRAILER := "instructions="

  /** What mcpSurfaceDigest hashes. */
  ghost function PreImage(tools: Tools, instructionsHash: string): string {
    Lines(SortedKeys(tools.Keys), tools) + TRAILER + instructionsHash
  }

  ghost function Digest(h: Hash, tools: Tools, instructionsHash: string): string {
    h(PreImage(tools, instructionsHash))
  }

  /** mcpSurfaceDigest, with its string builder. */
  method SurfaceDigest(h: Hash, tools: Tools, instructionsHash: string) returns (digest: string)
    ensures digest == Digest(h, tools, instructionsHash)
  {
    var names := SortKeys(tools.Keys);
    var sb := "";
    var k := 0;
    while k < |names|
      invariant k <= |names|
      invariant sb + Lines(names[k..], tools) == Lines(names, tools)
    {
      assert names[k..][0] == names[k] && names[k..][1..] == names[k + 1..];
      ghost var was := sb;
      sb := sb + names[k];
      sb := sb + "=";
      sb := sb + tools[names[k]].hash;
      sb := sb + "\n";
      assert sb == was + Line(names[k], tools[names[k]].hash);
      k := k + 1;
    }
    assert sb == Lines(names, tools);
    sb := sb + "instructions=";
    sb := sb + instructionsHash;
    digest := h(sb);
  }

  // ----- decoding it ------------------------------------------------------------------------

  predicate Free(s: string, c: char) {
    forall k :: 0 <= k < |s| ==> s[k] != c
  }

  /** The first position of c in s, or |s|. */
  function First(s: string, c: char): (k: nat)
    ensures k <= |s| && (k < |s| ==> s[k] == c) && Free(s[..k], c)
  {
    if s == [] || s[0] == c then 0 else 1 + First(s[1..], c)
  }

  /** The last position of c in s, or |s| when there is none. */
  function Last(s: string, c: char): (k: nat)
    ensures k <= |s| && (k < |s| ==> s[k] == c && Free(s[k + 1..], c))
  {
    if s == [] then 0
    else if s[|s| - 1] == c then |s| - 1
    else
      var k := Last(s[..|s| - 1], c);
      if k == |s| - 1 then |s| else k
  }

  datatype Decoded = Decoded(hashes: map<string, string>, instructionsHash: string)

  /** Reads a digest text back: lines up to the last newline, each cut at its last '='; then the trailer. */
  function Decode(text: string): Decoded
    decreases |text|
  {
    var nl := First(text, '\n');
    if nl == |text| then Decoded(map[], if TRAILER <= text then text[|TRAILER|..] else text)
    else
      var rest := Decode(text[nl + 1..]);
      var line := text[..nl];
      var eq := Last(line, '=');
      if eq == |line| then rest
      else rest.(hashes := rest.hashes[line[..eq] := line[eq + 1..]])
  }

  lemma {:induction false} FirstAfter(a: string, c: char, b: string)
    requires Free(a, c)
    ensures First(a + [c] + b, c) == |a|
  {
    if a == [] {
    } else {
      FirstAfter(a[1..], c, b);
      assert (a + [c] + b)[1..] == a[1..] + [c] + b;
    }
  }

  lemma {:induction false} LastBefore(a: string, c: char, b: string)
    requires Free(b, c)
    ensures Last(a + [c] + b, c) == |a|
    decreases |b|
  {
    var s := a + [c] + b;
    var init := s[..|s| - 1];
    if b == [] {
    } else {
      assert s[|s| - 1] == b[|b| - 1];
      LastBefore(a, c, b[..|b| - 1]);
      assert init == a + [c] + b[..|b| - 1];
    }
  }

  lemma DecodeLine(name: string, hash: string, rest: string)
    requires Free(name, '\n') && Free(hash, '\n') && Free(hash, '=')
    ensures Decode(Line(name, hash) + rest) == Decode(rest).(hashes := Decode(rest).hashes[name := hash])
  {
    var line, text := name + "=" + hash, Line(name, hash) + rest;
    assert Free(line, '\n');
    assert text == line + ['\n'] + rest;
    FirstAfter(line, '\n', rest);
    assert text[..|line|] == line && text[|line| + 1..] == rest;
    assert line == name + ['='] + hash;
    LastBefore(name, '=', hash);
    assert line[..|name|] == name && line[|name| + 1..] == hash;
  }

  /** The names and the hashes the digest is meant for; a hash is hex, or empty. */
  ghost predicate Decodable(tools: Tools, instructionsHash: string) {
    && Free(instructionsHash, '\n')
    && forall n :: n in tools ==> Free(n, '\n') && Free(tools[n].hash, '\n') && Free(tools[n].hash, '=')
  }

  ghost function HashMap(tools: Tools): map<string, string> {
    map n | n in tools :: tools[n].hash
  }

  lemma DecodeTrailer(instructionsHash: string)
    requires Free(instructionsHash, '\n')
    ensures Decode(TRAILER + instructionsHash) == Decoded(map[], instructionsHash)
  {
    var tail := TRAILER + instructionsHash;
    TrailerIsOneLine(instructionsHash);
    assert tail[|TRAILER|..] == instructionsHash;
  }

  ghost function HashesOf(names: seq<string>, tools: Tools): map<string, string>
    requires forall n :: n in names ==> n in tools
  {
    map n | n in names :: tools[n].hash
  }

  lemma HashesOfCons(names: seq<string>, tools: Tools)
    requires names != [] && forall n :: n in names ==> n in tools
    ensures HashesOf(names, tools) == HashesOf(names[1..], tools)[names[0] := tools[names[0]].hash]
  {
    assert forall n :: n in names <==> n == names[0] || n in names[1..];
  }

  lemma LinesCons(names: seq<string>, tools: Tools, tail: string)
    requires names != [] && forall n :: n in names ==> n in tools
    ensures Lines(names, tools) + tail == Line(names[0], tools[names[0]].hash) + (Lines(names[1..], tools) + tail)
  {
  }

  lemma {:induction false} DecodeLines(names: seq<string>, tools: Tools, instructionsHash: string)
    requires Decodable(tools, instructionsHash)
    requires forall n :: n in names ==> n in tools
    ensures Decode(Lines(names, tools) + (TRAILER + instructionsHash))
      == Decoded(HashesOf(names, tools), instructionsHash)
    decreases |names|
  {
    var tail := TRAILER + instructionsHash;
    if names == [] {
      assert Lines(names, tools) + tail == tail;
      DecodeTrailer(instructionsHash);
    } else {
      var name := names[0];
      assert name in tools;
      DecodeLines(names[1..], tools, instructionsHash);
      LinesCons(names, tools, tail);
      DecodeLine(name, tools[name].hash, Lines(names[1..], tools) + tail);
      HashesOfCons(names, tools);
    }
  }

  /**
  The digest text decodes back to the name-to-hash map and the instructions
  hash for all newline-free names; a name may contain '=' or be "instructions".
  */
  lemma DigestTextDecodes(tools: Tools, instructionsHash: string)
    requires Decodable(tools, instructionsHash)
    ensures Decode(PreImage(tools, instructionsHash)) == Decoded(HashMap(tools), instructionsHash)
  {
    var names := SortedKeys(tools.Keys);
    DecodeLines(names, tools, instructionsHash);
    assert Lines(names, tools) + TRAILER + instructionsHash == Lines(names, tools) + (TRAILER + instructionsHash);
    assert HashesOf(names, tools) == HashMap(tools);
  }

  ghost predicate Injective(h: Hash) {
    forall x, y :: h(x) == h(y) ==> x == y
  }

  /** A digest is hex: neither '=' nor a newline occurs in it. */
  ghost predicate HexLike(h: Hash) {
    forall x :: Free(h(x), '\n') && Free(h(x), '=')
  }

  /** An encoder that tells different JSON apart. */
  ghost predicate Faithful(enc: Encoder) {
    forall x, y :: enc(x) == enc(y) ==> x == y
  }

  /**
  Two decodable surfaces have one digest exactly when every name has the same
  hash in both and the instructions agree.
  */
  lemma DigestSeparates(h: Hash, a: Tools, ia: string, b: Tools, ib: string)
    requires Injective(h) && Decodable(a, ia) && Decodable(b, ib)
    ensures Digest(h, a, ia) == Digest(h, b, ib) <==> HashMap(a) == HashMap(b) && ia == ib
  {
    DigestTextDecodes(a, ia);
    DigestTextDecodes(b, ib);
    if HashMap(a) == HashMap(b) && ia == ib {
      assert a.Keys == HashMap(a).Keys == b.Keys;
      SameLines(SortedKeys(a.Keys), a, b);
    }
  }

  lemma {:induction false} SameLines(names: seq<string>, a: Tools, b: Tools)
    requires forall n :: n in names ==> n in a && n in b
    requires HashMap(a) == HashMap(b)
    ensures Lines(names, a) == Lines(names, b)
  {
    if names == [] {
    } else {
      assert names[0] in a && names[0] in b;
      assert a[names[0]].hash == HashMap(a)[names[0]] == b[names[0]].hash;
      SameLines(names[1..], a, b);
    }
  }

  // ----- surfaces whose hashes tell the name ------------------------------------------------

  /** Across both surfaces, two tools with one hash have one name. */
  ghost predicate HashTellsName(a: Tools, b: Tools) {
    forall m, n :: m in a && n in b && a[m].hash == b[n].hash ==> m == n
  }

  /** Hashes are hex, the instructions hash is one line of text; names are anything. */
  ghost predicate HexHashes(tools: Tools, instructionsHash: string) {
    Free(instructionsHash, '\n') && forall n :: n in tools ==> Free(tools[n].hash, '\n') && Free(tools[n].hash, '=')
  }

  /** The lines of a digest text: nothing, or something that ends in a newline. */
  predicate WholeLines(s: string) {
    s == "" || s[|s| - 1] == '\n'
  }

  lemma {:induction false} LinesAreWhole(names: seq<string>, tools: Tools)
    requires forall n :: n in names ==> n in tools
    ensures WholeLines(Lines(names, tools))
  {
    if names == [] {
    } else {
      LinesAreWhole(names[1..], tools);
    }
  }

  lemma NoShorter(s: string, x: string, t: string, y: string)
    requires WholeLines(t) && Free(x, '\n') && s + x == t + y
    ensures |s| >= |t|
  {
    assert t != "" ==> (s + x)[|t| - 1] == (t + y)[|t| - 1] == '\n';
  }

  /** The last newline is where the trailer begins. */
  lemma CutTrailer(s: string, x: string, t: string, y: string)
    requires WholeLines(s) && WholeLines(t) && Free(x, '\n') && Free(y, '\n') && s + x == t + y
    ensures s == t && x == y
  {
    NoShorter(s, x, t, y);
    NoShorter(t, y, s, x);
    assert s == (s + x)[..|s|] && t == (t + y)[..|t|];
    assert x == (s + x)[|s|..] && y == (t + y)[|t|..];
  }

  lemma {:induction false} LinesLast(names: seq<string>, tools: Tools)
    requires names != [] && forall n :: n in names ==> n in tools
    ensures var init, last := names[..|names| - 1], names[|names| - 1];
      Lines(names, tools) == Lines(init, tools) + Line(last, tools[last].hash)
    decreases |names|
  {
    var init, last := names[..|names| - 1], names[|names| - 1];
    if |names| == 1 {
      assert names[1..] == [] && init == [];
    } else {
      LinesLast(names[1..], tools);
      assert names[1..][..|names| - 2] == init[1..];
      assert init[0] == names[0];
    }
  }

  /** The last '=' of the last line is where its hash begins. */
  lemma CutLine(s: string, m: string, x: string, t: string, n: string, y: string)
    requires Free(x, '=') && Free(y, '=') && s + Line(m, x) == t + Line(n, y)
    ensures s + m == t + n && x == y
  {
    var p, q := s + m + ['='] + x, t + n + ['='] + y;
    assert s + Line(m, x) == p + "\n" && t + Line(n, y) == q + "\n";
    assert p == (p + "\n")[..|p|] && q == (q + "\n")[..|q|];
    LastBefore(s + m, '=', x);
    LastBefore(t + n, '=', y);
    assert s + m == p[..|s + m|] && t + n == q[..|t + n|];
    assert x == p[|s + m| + 1..] && y == q[|t + n| + 1..];
  }

  /** Line by line from the end, the text gives away the hash, the hash the name, and the name where the line began. */
  lemma {:induction false} SameTextSameNames(ms: seq<string>, a: Tools, ns: seq<string>, b: Tools)
    requires (forall n :: n in ms ==> n in a) && (forall n :: n in ns ==> n in b)
    requires HexHashes(a, "") && HexHashes(b, "") && HashTellsName(a, b)
    requires Lines(ms, a) == Lines(ns, b)
    ensures ms == ns && forall n :: n in ms ==> a[n].hash == b[n].hash
    decreases |ms|
  {
    if ms == [] || ns == [] {
    } else {
      var m, n := ms[|ms| - 1], ns[|ns| - 1];
      var init, jnit := ms[..|ms| - 1], ns[..|ns| - 1];
      LinesLast(ms, a);
      LinesLast(ns, b);
      assert m in a && n in b;
      CutLine(Lines(init, a), m, a[m].hash, Lines(jnit, b), n, b[n].hash);
      SameFront(Lines(init, a), Lines(jnit, b), m);
      SameTextSameNames(init, a, jnit, b);
      assert ms == init + [m] && ns == jnit + [n];
    }
  }

  lemma SameFront(s: string, t: string, n: string)
    requires s + n == t + n
    ensures s == t
  {
    assert s == (s + n)[..|s|] && t == (t + n)[..|t|];
  }

  lemma CutPreImage(s: string, x: string, t: string, y: string)
    requires WholeLines(s) && WholeLines(t) && Free(x, '\n') && Free(y, '\n')
    requires s + TRAILER + x == t + TRAILER + y
    ensures s == t && x == y
  {
    assert s + TRAILER + x == s + (TRAILER + x) && t + TRAILER + y == t + (TRAILER + y);
    TrailerIsOneLine(x);
    TrailerIsOneLine(y);
    CutTrailer(s, TRAILER + x, t, TRAILER + y);
    assert x == (TRAILER + x)[|TRAILER|..] && y == (TRAILER + y)[|TRAILER|..];
  }

  /**
  With hashes that cover the name, as mcpFingerprintTool makes them, the digest
  separates any two surfaces, whatever the tools are called.
  */
  lemma DigestSeparatesFingerprints(h: Hash, a: Tools, ia: string, b: Tools, ib: string)
    requires Injective(h) && HexHashes(a, ia) && HexHashes(b, ib) && HashTellsName(a, b)
    ensures Digest(h, a, ia) == Digest(h, b, ib) <==> HashMap(a) == HashMap(b) && ia == ib
  {
    var ms, ns := SortedKeys(a.Keys), SortedKeys(b.Keys);
    if PreImage(a, ia) == PreImage(b, ib) {
      LinesAreWhole(ms, a);
      LinesAreWhole(ns, b);
      CutPreImage(Lines(ms, a), ia, Lines(ns, b), ib);
      SameTextSameNames(ms, a, ns, b);
      assert HashMap(a) == HashMap(b);
    }
    if HashMap(a) == HashMap(b) && ia == ib {
      assert a.Keys == HashMap(a).Keys == b.Keys;
      SameLines(ms, a, b);
    }
  }

  lemma TrailerIsOneLine(instructionsHash: string)
    requires Free(instructionsHash, '\n')
    ensures Free(TRAILER + instructionsHash, '\n')
  {
    var tail := TRAILER + instructionsHash;
    assert forall k :: 0 <= k < |tail| ==>
      tail[k] == if k < |TRAILER| then TRAILER[k] else instructionsHash[k - |TRAILER|];
  }

  /**
  A remark about hash maps made by hand: where hashes do not cover the name,
  the text alone does not tell a name with a newline from two lines. No two
  such maps both come from mcpFingerprintTool, see DigestSeparatesFingerprints.
  */
  lemma NewlineNameForgesADigest(h: Hash, x: ToolHashes, y: ToolHashes, instructionsHash: string)
    ensures var two: Tools, one: Tools := map["a" := x, "b" := y], map["a=" + x.hash + "\nb" := y];
      Digest(h, two, instructionsHash) == Digest(h, one, instructionsHash) && HashMap(two) != HashMap(one)
  {
    var n := "a=" + x.hash + "\nb";
    var two: Tools, one: Tools := map["a" := x, "b" := y], map[n := y];
    assert IsSorting(["a", "b"], two.Keys) && IsSorting([n], one.Keys);
    SortingIsUnique(SortedKeys(two.Keys), ["a", "b"], two.Keys);
    SortingIsUnique(SortedKeys(one.Keys), [n], one.Keys);
    assert ["a", "b"][1..] == ["b"] && ["b"][1..] == [] && [n][1..] == [];
    assert Lines(["b"], two) == Line("b", y.hash) + "" == Line("b", y.hash);
    assert Lines(["a", "b"], two) == Line("a", x.hash) + Line("b", y.hash);
    assert Lines([n], one) == Line(n, y.hash) + "" == Line(n, y.hash);
    assert Line("a", x.hash) + Line("b", y.hash) == Line(n, y.hash);
    assert |HashMap(two).Keys| == 2 && |HashMap(one).Keys| == 1 by {
      assert HashMap(two).Keys == {"a", "b"} && HashMap(one).Keys == {n};
    }
  }
}
