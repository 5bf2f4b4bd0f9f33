/** mcpDiff of checker/mcpcheck.go: the row-by-row route to "what has changed". */
module McpDrift {
  import opened Common
  import opened SortedNames
  import opened McpSurface

  datatype Kind = Removed | Added | SchemaChanged | DescriptionChanged | AnnotationsChanged | InstructionsChanged

  datatype Severity = Fail | Info

  /** What the detail text of an annotations row says beyond its kind. */
  datatype Note = Plain | NoLongerReadOnly | NowDestructive

  datatype Row = Row(kind: Kind, tool: string, severity: Severity, note: Note)

  function Sev(record: bool, s: Severity): Severity {
    if record then Info else s
  }

  // ----- the rows, name by name --------------------------------------------------------

  function RemovedRow(name: string, current: Tools, record: bool): seq<Row> {
    if name in current then [] else [Row(Removed, name, Sev(record, Fail), Plain)]
  }

  function AnnotationsRow(name: string, was: ToolHashes, now: ToolHashes, record: bool): Row {
    if was.readOnly && !now.readOnly then Row(AnnotationsChanged, name, Sev(record, Fail), NoLongerReadOnly)
    else if !was.destructive && now.destructive then Row(AnnotationsChanged, name, Sev(record, Fail), NowDestructive)
    else Row(AnnotationsChanged, name, Info, Plain)
  }

  /** The rows for one changed tool that is on both sides. */
  function ChangeRows(name: string, was: ToolHashes, now: ToolHashes, record: bool): seq<Row> {
    (if was.schema != now.schema then [Row(SchemaChanged, name, Sev(record, Fail), Plain)] else [])
    + (if was.desc != now.desc then [Row(DescriptionChanged, name, Sev(record, Fail), Plain)] else [])
    + (if was.annotations != now.annotations then [AnnotationsRow(name, was, now, record)] else [])
  }

  function CurrentRow(name: string, base: Tools, current: Tools, record: bool): seq<Row>
    requires name in current
  {
    if name !in base then [Row(Added, name, Sev(record, Fail), Plain)]
    else if base[name].hash == current[name].hash then []
    else ChangeRows(name, base[name], current[name], record)
  }

  function RemovedRows(names: seq<string>, current: Tools, record: bool): seq<Row> {
    if names == [] then []
    else RemovedRows(names[..|names| - 1], current, record) + RemovedRow(names[|names| - 1], current, record)
  }

  function CurrentRows(names: seq<string>, base: Tools, current: Tools, record: bool): seq<Row>
    requires forall n :: n in names ==> n in current
  {
    if names == [] then []
    else
      CurrentRows(names[..|names| - 1], base, current, record)
      + CurrentRow(names[|names| - 1], base, current, record)
  }

  function InstructionsRow(baseHash: string, hash: string, record: bool): seq<Row> {
    if baseHash == hash then [] else [Row(InstructionsChanged, "", Sev(record, Fail), Plain)]
  }

  ghost function DiffRows(base: Tools, baseHash: string, current: Tools, hash: string, record: bool): seq<Row> {
    RemovedRows(SortedKeys(base.Keys), current, record)
    + CurrentRows(SortedKeys(current.Keys), base, current, record)
    + InstructionsRow(baseHash, hash, record)
  }

  /** mcpDiff; `record` is the drift policy "record". */
  method Diff(base: Tools, baseHash: string, current: Tools, hash: string, record: bool) returns (out: seq<Row>)
    ensures out == DiffRows(base, baseHash, current, hash, record)
  {
    var removed := DiffRemoved(base, current, record);
    var rest := DiffCurrent(base, current, record);
    out := removed + rest;
    if baseHash != hash {
      out := out + [Row(InstructionsChanged, "", Sev(record, Fail), Plain)];
    }
  }

  /** The loop over the baseline's names. */
  method DiffRemoved(base: Tools, current: Tools, record: bool) returns (out: seq<Row>)
    ensures out == RemovedRows(SortedKeys(base.Keys), current, record)
  {
    out := [];
    var names := SortKeys(base.Keys);
    var k := 0;
    while k < |names|
      invariant k <= |names| && out == RemovedRows(names[..k], current, record)
    {
      assert names[..k + 1][..k] == names[..k];
      if names[k] !in current {
        out := out + [Row(Removed, names[k], Sev(record, Fail), Plain)];
      }
      k := k + 1;
    }
    assert names[..k] == names;
  }

  lemma CurrentRowsNext(names: seq<string>, k: nat, base: Tools, current: Tools, record: bool)
    requires k < |names| && forall n :: n in names ==> n in current
    ensures CurrentRows(names[..k + 1], base, current, record)
      == CurrentRows(names[..k], base, current, record) + CurrentRow(names[k], base, current, record)
  {
    assert names[..k + 1][..k] == names[..k];
  }

  /** The loop over the current names. */
  method DiffCurrent(base: Tools, current: Tools, record: bool) returns (out: seq<Row>)
    ensures out == CurrentRows(SortedKeys(current.Keys), base, current, record)
  {
    out := [];
    var names := SortKeys(current.Keys);
    var k := 0;
    while k < |names|
      invariant k <= |names| && out == CurrentRows(names[..k], base, current, record)
    {
      var rows := ToolRows(names[k], base, current, record);
      CurrentRowsNext(names, k, base, current, record);
      out := out + rows;
      k := k + 1;
    }
    assert names[..k] == names;
  }

  /** One turn of the loop over the current tools. */
  method ToolRows(name: string, base: Tools, current: Tools, record: bool) returns (out: seq<Row>)
    requires name in current
    ensures out == CurrentRow(name, base, current, record)
  {
    out := [];
    var now := current[name];
    if name !in base {
      return [Row(Added, name, Sev(record, Fail), Plain)];
    }
    var was := base[name];
    if was.hash == now.hash {
      return;
    }
    if was.schema != now.schema {
      out := out + [Row(SchemaChanged, name, Sev(record, Fail), Plain)];
    }
    if was.desc != now.desc {
      out := out + [Row(DescriptionChanged, name, Sev(record, Fail), Plain)];
    }
    if was.annotations != now.annotations {
      var s, note := Info, Plain;
      if was.readOnly && !now.readOnly {
        s, note := Fail, NoLongerReadOnly;
      } else if !was.destructive && now.destructive {
        s, note := Fail, NowDestructive;
      }
      out := out + [Row(AnnotationsChanged, name, Sev(record, s), note)];
    }
  }

  // ----- exactly which rows, in which order ------------------------------------------------

  /** What a row of this kind and tool has to be justified by. */
  predicate Justified(r: Row, base: Tools, baseHash: string, current: Tools, hash: string, record: bool) {
    var n := r.tool;
    var changed := n in base && n in current && base[n].hash != current[n].hash;
    match r.kind
    case Removed => n in base && n !in current && r == Row(Removed, n, Sev(record, Fail), Plain)
    case Added => n in current && n !in base && r == Row(Added, n, Sev(record, Fail), Plain)
    case SchemaChanged =>
      changed && base[n].schema != current[n].schema && r == Row(SchemaChanged, n, Sev(record, Fail), Plain)
    case DescriptionChanged =>
      changed && base[n].desc != current[n].desc && r == Row(DescriptionChanged, n, Sev(record, Fail), Plain)
    case AnnotationsChanged =>
      changed && base[n].annotations != current[n].annotations && r == AnnotationsRow(n, base[n], current[n], record)
    case InstructionsChanged => baseHash != hash && r == Row(InstructionsChanged, "", Sev(record, Fail), Plain)
  }

  function Phase(k: Kind): nat {
    match k case Removed => 0 case InstructionsChanged => 2 case _ => 1
  }

  function Part(k: Kind): nat {
    match k case SchemaChanged => 1 case DescriptionChanged => 2 case AnnotationsChanged => 3 case _ => 0
  }

  /** The order of the report: removals, then the current tools by name and part, then the instructions. */
  predicate Before(a: Row, b: Row) {
    || Phase(a.kind) < Phase(b.kind)
    || (Phase(a.kind) == Phase(b.kind) &&
        (Less(a.tool, b.tool) || (a.tool == b.tool && Part(a.kind) < Part(b.kind))))
  }

  ghost predicate InOrder(rows: seq<Row>) {
    forall i, j :: 0 <= i < j < |rows| ==> Before(rows[i], rows[j])
  }

  lemma OrderedConcat(a: seq<Row>, b: seq<Row>)
    requires InOrder(a) && InOrder(b) && forall x, y :: x in a && y in b ==> Before(x, y)
    ensures InOrder(a + b)
  {
    forall i, j | 0 <= i < j < |a + b|
      ensures Before((a + b)[i], (a + b)[j])
    {
      if i < |a| && j >= |a| {
        assert (a + b)[i] in a && (a + b)[j] in b;
      }
    }
  }

  /** A sorted list: what comes before the last name, and that it is smaller. */
  lemma LastName(names: seq<string>)
    requires Sorted(names) && names != []
    ensures var init, last := names[..|names| - 1], names[|names| - 1];
      && Sorted(init)
      && (forall n :: n in names <==> n == last || n in init)
      && (forall n :: n in init ==> Less(n, last))
  {
    var init, last := names[..|names| - 1], names[|names| - 1];
    assert names == init + [last];
  }

  lemma {:induction false} RemovedRowsAre(names: seq<string>, current: Tools, record: bool)
    requires Sorted(names)
    ensures var rows := RemovedRows(names, current, record);
      && InOrder(rows)
      && forall r :: r in rows <==>
           r.tool in names && r.tool !in current && r == Row(Removed, r.tool, Sev(record, Fail), Plain)
  {
    if names == [] {
    } else {
      var init, last := names[..|names| - 1], names[|names| - 1];
      LastName(names);
      RemovedRowsAre(init, current, record);
      OrderedConcat(RemovedRows(init, current, record), RemovedRow(last, current, record));
    }
  }

  lemma ChangeRowsAre(name: string, was: ToolHashes, now: ToolHashes, record: bool)
    ensures var rows := ChangeRows(name, was, now, record);
      && InOrder(rows)
      && forall r :: r in rows <==>
           || (was.schema != now.schema && r == Row(SchemaChanged, name, Sev(record, Fail), Plain))
           || (was.desc != now.desc && r == Row(DescriptionChanged, name, Sev(record, Fail), Plain))
           || (was.annotations != now.annotations && r == AnnotationsRow(name, was, now, record))
  {
  }

  /** A row about one current tool. */
  lemma CurrentRowHas(r: Row, base: Tools, current: Tools, record: bool)
    requires r.tool in current && Phase(r.kind) == 1
    ensures r in CurrentRow(r.tool, base, current, record) <==> Justified(r, base, "", current, "", record)
  {
    if r.tool in base {
      ChangeRowsAre(r.tool, base[r.tool], current[r.tool], record);
    }
  }

  lemma CurrentRowInOrder(name: string, base: Tools, current: Tools, record: bool)
    requires name in current
    ensures var rows := CurrentRow(name, base, current, record);
      InOrder(rows) && forall r :: r in rows ==> r.tool == name && Phase(r.kind) == 1
  {
    if name in base {
      ChangeRowsAre(name, base[name], current[name], record);
    }
  }

  lemma CurrentRowIs(name: string, base: Tools, current: Tools, record: bool)
    requires name in current
    ensures var rows := CurrentRow(name, base, current, record);
      && InOrder(rows)
      && (forall r :: r in rows ==> r.tool == name && Phase(r.kind) == 1)
      && forall r: Row :: r.tool == name && Phase(r.kind) == 1 ==>
           (r in rows <==> Justified(r, base, "", current, "", record))
  {
    CurrentRowInOrder(name, base, current, record);
    forall r: Row | r.tool == name && Phase(r.kind) == 1
      ensures r in CurrentRow(name, base, current, record) <==> Justified(r, base, "", current, "", record)
    {
      CurrentRowHas(r, base, current, record);
    }
  }

  lemma {:induction false} CurrentRowsAre(names: seq<string>, base: Tools, current: Tools, record: bool)
    requires Sorted(names) && forall n :: n in names ==> n in current
    ensures var rows := CurrentRows(names, base, current, record);
      && InOrder(rows)
      && forall r :: r in rows <==> r.tool in names && Phase(r.kind) == 1 && Justified(r, base, "", current, "", record)
  {
    if names == [] {
    } else {
      var init, last := names[..|names| - 1], names[|names| - 1];
      LastName(names);
      CurrentRowsAre(init, base, current, record);
      CurrentRowIs(last, base, current, record);
      OrderedConcat(CurrentRows(init, base, current, record), CurrentRow(last, base, current, record));
    }
  }

  /** Whose rows those are. */
  lemma JustifiedByPhase(r: Row, base: Tools, baseHash: string, current: Tools, hash: string, record: bool)
    ensures Justified(r, base, baseHash, current, hash, record) <==>
      || (r.tool in base && r.tool !in current && r == Row(Removed, r.tool, Sev(record, Fail), Plain))
      || (r.tool in current && Phase(r.kind) == 1 && Justified(r, base, "", current, "", record))
      || r in InstructionsRow(baseHash, hash, record)
  {
  }

  /**
  mcpDiff reports a row exactly when it is justified, in strictly ascending
  report order, so each of them once.
  */
  lemma DiffIsExact(base: Tools, baseHash: string, current: Tools, hash: string, record: bool)
    ensures var rows := DiffRows(base, baseHash, current, hash, record);
      && InOrder(rows)
      && forall r :: r in rows <==> Justified(r, base, baseHash, current, hash, record)
  {
    var a := RemovedRows(SortedKeys(base.Keys), current, record);
    var b := CurrentRows(SortedKeys(current.Keys), base, current, record);
    var c := InstructionsRow(baseHash, hash, record);
    RemovedRowsAre(SortedKeys(base.Keys), current, record);
    CurrentRowsAre(SortedKeys(current.Keys), base, current, record);
    OrderedConcat(a, b);
    OrderedConcat(a + b, c);
    forall r
      ensures r in a + b + c <==> Justified(r, base, baseHash, current, hash, record)
    {
      JustifiedByPhase(r, base, baseHash, current, hash, record);
    }
  }

  // ----- the two routes agree ------------------------------------------------------------------

  /** What one server lists: tools by name, and its instructions' hash, empty when it has none. */
  datatype Surface = Surface(tools: map<string, Tool>, instructionsHash: string)

  ghost predicate NulFreeTitles(s: Surface) {
    forall n :: n in s.tools ==> Free(s.tools[n].title, '\0')
  }

  /** A tool is filed under its own name; the instructions hash is one line of text. */
  ghost predicate WellFiled(s: Surface) {
    Free(s.instructionsHash, '\n') && forall n :: n in s.tools ==> s.tools[n].name == n
  }

  function Fingerprints(h: Hash, enc: Encoder, s: Surface): Tools {
    map n | n in s.tools :: Fingerprint(h, enc, s.tools[n])
  }

  lemma {:induction false} CutAtNul(a: string, b: string, c: string, d: string)
    requires Free(a, '\0') && Free(c, '\0') && a + "\0" + b == c + "\0" + d
    ensures a == c && b == d
  {
    FirstAfter(a, '\0', b);
    FirstAfter(c, '\0', d);
    assert a + "\0" + b == a + ['\0'] + b && c + "\0" + d == c + ['\0'] + d;
    assert a == (a + "\0" + b)[..|a|] && c == (c + "\0" + d)[..|c|];
    assert b == (a + "\0" + b)[|a| + 1..] && d == (c + "\0" + d)[|c| + 1..];
  }

  predicate SameParts(a: ToolHashes, b: ToolHashes) {
    a.schema == b.schema && a.desc == b.desc && a.annotations == b.annotations
  }

  /** Everything the three parts are made from: schemas, annotations, and title and description around a NUL. */
  predicate PartsAgree(s: Tool, t: Tool) {
    && s.inputSchema == t.inputSchema && s.outputSchema == t.outputSchema
    && AnnotationsJson(s.annotations) == AnnotationsJson(t.annotations)
    && s.title + "\0" + s.description == t.title + "\0" + t.description
  }

  /** Of two tools of one name: what equal part hashes and what equal tool hashes mean. */
  lemma HashesTellTools(h: Hash, enc: Encoder, s: Tool, t: Tool)
    requires Injective(h) && Faithful(enc) && s.name == t.name
    ensures var x, y := Fingerprint(h, enc, s), Fingerprint(h, enc, t);
      && (SameParts(x, y) <==> PartsAgree(s, t))
      && (x.hash == y.hash <==> PartsAgree(s, t) && s.title == t.title)
  {
    SchemasTell(enc, s, t);
    ToolsTell(enc, s, t);
    if PartsAgree(s, t) && s.title == t.title {
      assert s.description == (s.title + "\0" + s.description)[|s.title| + 1..];
      assert t.description == (t.title + "\0" + t.description)[|t.title| + 1..];
    }
  }

  lemma SchemasTell(enc: Encoder, s: Tool, t: Tool)
    requires Faithful(enc)
    ensures enc(SchemaJson(s)) == enc(SchemaJson(t))
      <==> s.inputSchema == t.inputSchema && s.outputSchema == t.outputSchema
  {
    if enc(SchemaJson(s)) == enc(SchemaJson(t)) {
      assert SchemaJson(s).fields["inputSchema"] == SchemaJson(t).fields["inputSchema"];
      assert SchemaJson(s).fields["outputSchema"] == SchemaJson(t).fields["outputSchema"];
    }
  }

  lemma ToolsTell(enc: Encoder, s: Tool, t: Tool)
    requires Faithful(enc)
    ensures enc(ToolJson(s)) == enc(ToolJson(t)) <==>
      && s.name == t.name && s.title == t.title && s.description == t.description
      && s.inputSchema == t.inputSchema && s.outputSchema == t.outputSchema
      && AnnotationsJson(s.annotations) == AnnotationsJson(t.annotations)
  {
    if enc(ToolJson(s)) == enc(ToolJson(t)) {
      var x, y := ToolJson(s).fields, ToolJson(t).fields;
      assert x == y;
      assert x["name"] == y["name"] && x["title"] == y["title"] && x["description"] == y["description"];
      assert x["inputSchema"] == y["inputSchema"] && x["outputSchema"] == y["outputSchema"];
      assert x["annotations"] == y["annotations"];
    }
  }

  /** Equal parts mean equal hashes when no NUL is in a title. */
  lemma PartsDetermineHash(h: Hash, enc: Encoder, a: Tool, b: Tool)
    requires Injective(h) && Faithful(enc) && a.name == b.name && Free(a.title, '\0') && Free(b.title, '\0')
    requires SameParts(Fingerprint(h, enc, a), Fingerprint(h, enc, b))
    ensures Fingerprint(h, enc, a).hash == Fingerprint(h, enc, b).hash
  {
    HashesTellTools(h, enc, a, b);
    CutAtNul(a.title, a.description, b.title, b.description);
  }

  /** The annotations object tells every field apart, and no annotations from empty ones. */
  lemma AnnotationsTell(a: Option<Annotations>, b: Option<Annotations>)
    ensures AnnotationsJson(a) == AnnotationsJson(b) <==> a == b
  {
    if a.Some? && b.Some? && AnnotationsJson(a) == AnnotationsJson(b) {
      HintsInJson(a.value);
      HintsInJson(b.value);
      TitleInJson(a.value);
      TitleInJson(b.value);
      OtherHintsInJson(a.value);
      OtherHintsInJson(b.value);
    }
  }

  lemma TitleInJson(a: Annotations)
    ensures var fields := AnnotationsJson(Some(a)).fields;
      (a.title != "" <==> "title" in fields) && (a.title != "" ==> fields["title"] == JStr(a.title))
  {
  }

  lemma OtherHintsInJson(a: Annotations)
    ensures var fields := AnnotationsJson(Some(a)).fields;
      && (a.idempotentHint <==> "idempotentHint" in fields)
      && (a.openWorldHint.Some? <==> "openWorldHint" in fields)
      && (a.openWorldHint.Some? ==> fields["openWorldHint"] == JBool(a.openWorldHint.value))
  {
  }

  /**
  What each hash of a tool covers: the description hash the title and the
  description around a NUL, the schema hash both schemas, the annotations hash
  the annotations, and the tool hash every field.
  */
  lemma EachHashTells(h: Hash, enc: Encoder, s: Tool, t: Tool)
    requires Injective(h) && Faithful(enc)
    ensures var x, y := Fingerprint(h, enc, s), Fingerprint(h, enc, t);
      && (x.desc == y.desc <==> s.title + "\0" + s.description == t.title + "\0" + t.description)
      && (x.schema == y.schema <==> s.inputSchema == t.inputSchema && s.outputSchema == t.outputSchema)
      && (x.annotations == y.annotations <==> s.annotations == t.annotations)
      && (x.hash == y.hash <==> s == t)
  {
    PartHashesTell(h, enc, s, t);
    ToolHashTells(h, enc, s, t);
  }

  lemma HashTells(h: Hash, x: string, y: string)
    requires Injective(h)
    ensures h(x) == h(y) <==> x == y
  {
  }

  lemma PartHashesTell(h: Hash, enc: Encoder, s: Tool, t: Tool)
    requires Injective(h) && Faithful(enc)
    ensures var x, y := Fingerprint(h, enc, s), Fingerprint(h, enc, t);
      && (x.desc == y.desc <==> s.title + "\0" + s.description == t.title + "\0" + t.description)
      && (x.schema == y.schema <==> s.inputSchema == t.inputSchema && s.outputSchema == t.outputSchema)
      && (x.annotations == y.annotations <==> s.annotations == t.annotations)
  {
    HashTells(h, s.title + "\0" + s.description, t.title + "\0" + t.description);
    HashTells(h, enc(SchemaJson(s)), enc(SchemaJson(t)));
    HashTells(h, enc(AnnotationsJson(s.annotations)), enc(AnnotationsJson(t.annotations)));
    SchemasTell(enc, s, t);
    AnnotationsTell(s.annotations, t.annotations);
  }

  lemma ToolHashTells(h: Hash, enc: Encoder, s: Tool, t: Tool)
    requires Injective(h) && Faithful(enc)
    ensures Fingerprint(h, enc, s).hash == Fingerprint(h, enc, t).hash <==> s == t
  {
    ToolsTell(enc, s, t);
    AnnotationsTell(s.annotations, t.annotations);
  }

  /** A row of this kind about the tool called n. */
  predicate Reports(rows: seq<Row>, kind: Kind, n: string) {
    exists r :: r in rows && r.kind == kind && r.tool == n
  }

  lemma InDiffIff(r: Row, base: Tools, baseHash: string, current: Tools, hash: string, record: bool)
    ensures r in DiffRows(base, baseHash, current, hash, record)
      <==> Justified(r, base, baseHash, current, hash, record)
  {
    DiffIsExact(base, baseHash, current, hash, record);
  }

  lemma ReportsIff(base: Tools, baseHash: string, current: Tools, hash: string, record: bool, kind: Kind, n: string)
    requires kind == Removed || kind == Added || kind == SchemaChanged || kind == DescriptionChanged
    ensures Reports(DiffRows(base, baseHash, current, hash, record), kind, n)
      <==> Justified(Row(kind, n, Sev(record, Fail), Plain), base, baseHash, current, hash, record)
  {
    var rows := DiffRows(base, baseHash, current, hash, record);
    InDiffIff(Row(kind, n, Sev(record, Fail), Plain), base, baseHash, current, hash, record);
    if Reports(rows, kind, n) {
      var r :| r in rows && r.kind == kind && r.tool == n;
      InDiffIff(r, base, baseHash, current, hash, record);
    }
  }

  lemma ReportsAnnotationsIff(base: Tools, baseHash: string, current: Tools, hash: string, record: bool, n: string)
    ensures Reports(DiffRows(base, baseHash, current, hash, record), AnnotationsChanged, n)
      <==> n in base && n in current && base[n].hash != current[n].hash && base[n].annotations != current[n].annotations
  {
    var rows := DiffRows(base, baseHash, current, hash, record);
    if Reports(rows, AnnotationsChanged, n) {
      var r :| r in rows && r.kind == AnnotationsChanged && r.tool == n;
      InDiffIff(r, base, baseHash, current, hash, record);
    }
    if n in base && n in current && base[n].hash != current[n].hash && base[n].annotations != current[n].annotations {
      var r := AnnotationsRow(n, base[n], current[n], record);
      InDiffIff(r, base, baseHash, current, hash, record);
    }
  }

  /**
  Which rows there are about a name, in terms of the two surfaces: it was
  removed, it was added, its schemas differ, its title and description around a
  NUL differ, its annotations differ. Each kind is reported exactly then.
  */
  lemma RowsTellChanges(h: Hash, enc: Encoder, a: Surface, b: Surface, record: bool, n: string)
    requires Injective(h) && Faithful(enc)
    ensures var rows := SurfaceRows(h, enc, a, b, record);
      var both := n in a.tools && n in b.tools;
      && (Reports(rows, Removed, n) <==> n in a.tools && n !in b.tools)
      && (Reports(rows, Added, n) <==> n in b.tools && n !in a.tools)
      && (Reports(rows, SchemaChanged, n) <==>
            both && (|| a.tools[n].inputSchema != b.tools[n].inputSchema
                     || a.tools[n].outputSchema != b.tools[n].outputSchema))
      && (Reports(rows, DescriptionChanged, n) <==>
            both && a.tools[n].title + "\0" + a.tools[n].description
                    != b.tools[n].title + "\0" + b.tools[n].description)
      && (Reports(rows, AnnotationsChanged, n) <==> both && a.tools[n].annotations != b.tools[n].annotations)
  {
    NamesTellRows(h, enc, a, b, record, n);
    TextsTellRows(h, enc, a, b, record, n);
    AnnotationsTellRows(h, enc, a, b, record, n);
  }

  /** mcpDiff between two surfaces. */
  ghost function SurfaceRows(h: Hash, enc: Encoder, a: Surface, b: Surface, record: bool): seq<Row> {
    DiffRows(Fingerprints(h, enc, a), a.instructionsHash, Fingerprints(h, enc, b), b.instructionsHash, record)
  }

  lemma NamesTellRows(h: Hash, enc: Encoder, a: Surface, b: Surface, record: bool, n: string)
    ensures Reports(SurfaceRows(h, enc, a, b, record), Removed, n) <==> n in a.tools && n !in b.tools
    ensures Reports(SurfaceRows(h, enc, a, b, record), Added, n) <==> n in b.tools && n !in a.tools
  {
    var x, y := Fingerprints(h, enc, a), Fingerprints(h, enc, b);
    ReportsIff(x, a.instructionsHash, y, b.instructionsHash, record, Removed, n);
    ReportsIff(x, a.instructionsHash, y, b.instructionsHash, record, Added, n);
  }

  lemma TextsTellRows(h: Hash, enc: Encoder, a: Surface, b: Surface, record: bool, n: string)
    requires Injective(h) && Faithful(enc)
    ensures Reports(SurfaceRows(h, enc, a, b, record), SchemaChanged, n) <==>
      n in a.tools && n in b.tools &&
      (a.tools[n].inputSchema != b.tools[n].inputSchema || a.tools[n].outputSchema != b.tools[n].outputSchema)
    ensures Reports(SurfaceRows(h, enc, a, b, record), DescriptionChanged, n) <==>
      n in a.tools && n in b.tools &&
      a.tools[n].title + "\0" + a.tools[n].description != b.tools[n].title + "\0" + b.tools[n].description
  {
    var x, y := Fingerprints(h, enc, a), Fingerprints(h, enc, b);
    ReportsIff(x, a.instructionsHash, y, b.instructionsHash, record, SchemaChanged, n);
    ReportsIff(x, a.instructionsHash, y, b.instructionsHash, record, DescriptionChanged, n);
    if n in a.tools && n in b.tools {
      EachHashTells(h, enc, a.tools[n], b.tools[n]);
    }
  }

  lemma AnnotationsTellRows(h: Hash, enc: Encoder, a: Surface, b: Surface, record: bool, n: string)
    requires Injective(h) && Faithful(enc)
    ensures Reports(SurfaceRows(h, enc, a, b, record), AnnotationsChanged, n) <==>
      n in a.tools && n in b.tools && a.tools[n].annotations != b.tools[n].annotations
  {
    var x, y := Fingerprints(h, enc, a), Fingerprints(h, enc, b);
    ReportsAnnotationsIff(x, a.instructionsHash, y, b.instructionsHash, record, n);
    if n in a.tools && n in b.tools {
      EachHashTells(h, enc, a.tools[n], b.tools[n]);
    }
  }

  /** mcpDiff has nothing to say about the tool called n. */
  predicate Quiet(n: string, base: Tools, current: Tools) {
    && (n in base <==> n in current)
    && (n in base && n in current ==> base[n].hash == current[n].hash || SameParts(base[n], current[n]))
  }

  /** None of the rows that could be about n is justified exactly when there is nothing to say. */
  lemma QuietMeansNoRow(n: string, base: Tools, baseHash: string, current: Tools, hash: string, record: bool)
    ensures Quiet(n, base, current) <==>
      forall r: Row :: r.tool == n && r.kind != InstructionsChanged ==>
        !Justified(r, base, baseHash, current, hash, record)
  {
    if forall r: Row :: r.tool == n && r.kind != InstructionsChanged ==>
      !Justified(r, base, baseHash, current, hash, record)
    {
      assert !Justified(Row(Removed, n, Sev(record, Fail), Plain), base, baseHash, current, hash, record);
      assert !Justified(Row(Added, n, Sev(record, Fail), Plain), base, baseHash, current, hash, record);
      if n in base && n in current {
        assert !Justified(Row(SchemaChanged, n, Sev(record, Fail), Plain), base, baseHash, current, hash, record);
        assert !Justified(Row(DescriptionChanged, n, Sev(record, Fail), Plain), base, baseHash, current, hash, record);
        assert !Justified(AnnotationsRow(n, base[n], current[n], record), base, baseHash, current, hash, record);
      }
    }
  }

  lemma EmptyMeansQuiet(base: Tools, baseHash: string, current: Tools, hash: string, record: bool)
    requires DiffRows(base, baseHash, current, hash, record) == []
    ensures baseHash == hash && forall n :: Quiet(n, base, current)
  {
    DiffIsExact(base, baseHash, current, hash, record);
    assert !Justified(Row(InstructionsChanged, "", Sev(record, Fail), Plain), base, baseHash, current, hash, record);
    forall n
      ensures Quiet(n, base, current)
    {
      QuietMeansNoRow(n, base, baseHash, current, hash, record);
    }
  }

  lemma QuietMeansEmpty(base: Tools, hash: string, current: Tools, record: bool)
    requires forall n :: Quiet(n, base, current)
    ensures DiffRows(base, hash, current, hash, record) == []
  {
    var rows := DiffRows(base, hash, current, hash, record);
    DiffIsExact(base, hash, current, hash, record);
    FirstIsMember(rows);
    if rows != [] {
      QuietMeansNoRow(rows[0].tool, base, hash, current, hash, record);
    }
  }

  lemma FirstIsMember(rows: seq<Row>)
    ensures rows == [] || rows[0] in rows
  {
  }

  /** Between any two surfaces there are no rows exactly when every name is quiet and the instructions agree. */
  lemma DiffEmptyIff(base: Tools, baseHash: string, current: Tools, hash: string, record: bool)
    ensures DiffRows(base, baseHash, current, hash, record) == []
      <==> baseHash == hash && forall n :: Quiet(n, base, current)
  {
    if DiffRows(base, baseHash, current, hash, record) == [] {
      EmptyMeansQuiet(base, baseHash, current, hash, record);
    }
    if baseHash == hash && forall n :: Quiet(n, base, current) {
      QuietMeansEmpty(base, hash, current, record);
    }
  }

  // ----- where the two routes agree -------------------------------------------------------------

  /** Hash and encoder are as good as they are meant to be, and the surfaces are as CheckMCP builds them. */
  ghost predicate Sound(h: Hash, enc: Encoder, a: Surface, b: Surface) {
    Injective(h) && HexLike(h) && Faithful(enc) && WellFiled(a) && WellFiled(b)
  }

  /** Both surfaces have the tool called n, made of the same parts, or neither has it. */
  predicate SameTool(n: string, a: Surface, b: Surface) {
    (n in a.tools <==> n in b.tools) && (n in a.tools && n in b.tools ==> PartsAgree(a.tools[n], b.tools[n]))
  }

  predicate SameTitle(n: string, a: Surface, b: Surface) {
    n in a.tools && n in b.tools ==> a.tools[n].title == b.tools[n].title
  }

  /** The same instructions, names, schemas, annotations and joined texts. */
  ghost predicate SameSurface(a: Surface, b: Surface) {
    a.instructionsHash == b.instructionsHash && forall n :: SameTool(n, a, b)
  }

  /**
  The only difference is in tools whose text has moved across a NUL: the joined
  texts agree and some title does not.
  */
  ghost predicate OnlyNulMoves(a: Surface, b: Surface) {
    SameSurface(a, b) && exists n :: !SameTitle(n, a, b)
  }

  lemma QuietIffSameTool(h: Hash, enc: Encoder, a: Surface, b: Surface, n: string)
    requires Sound(h, enc, a, b)
    ensures Quiet(n, Fingerprints(h, enc, a), Fingerprints(h, enc, b)) <==> SameTool(n, a, b)
  {
    if n in a.tools && n in b.tools {
      HashesTellTools(h, enc, a.tools[n], b.tools[n]);
    }
  }

  lemma NoRowsIffSameSurface(h: Hash, enc: Encoder, a: Surface, b: Surface, record: bool)
    requires Sound(h, enc, a, b)
    ensures var x, y := Fingerprints(h, enc, a), Fingerprints(h, enc, b);
      DiffRows(x, a.instructionsHash, y, b.instructionsHash, record) == [] <==> SameSurface(a, b)
  {
    var x, y := Fingerprints(h, enc, a), Fingerprints(h, enc, b);
    DiffEmptyIff(x, a.instructionsHash, y, b.instructionsHash, record);
    forall n
      ensures Quiet(n, x, y) <==> SameTool(n, a, b)
    {
      QuietIffSameTool(h, enc, a, b, n);
    }
  }

  lemma FingerprintsAreHex(h: Hash, enc: Encoder, a: Surface, b: Surface)
    requires Sound(h, enc, a, b)
    ensures HexHashes(Fingerprints(h, enc, a), a.instructionsHash)
    ensures HexHashes(Fingerprints(h, enc, b), b.instructionsHash)
    ensures HashTellsName(Fingerprints(h, enc, a), Fingerprints(h, enc, b))
  {
    var x, y := Fingerprints(h, enc, a), Fingerprints(h, enc, b);
    forall m, n | m in x && n in y && x[m].hash == y[n].hash
      ensures m == n
    {
      ToolsTell(enc, a.tools[m], b.tools[n]);
    }
  }

  predicate SameHash(n: string, x: Tools, y: Tools) {
    (n in x <==> n in y) && (n in x && n in y ==> x[n].hash == y[n].hash)
  }

  lemma HashMapsAgree(x: Tools, y: Tools)
    ensures HashMap(x) == HashMap(y) <==> forall n :: SameHash(n, x, y)
  {
    if HashMap(x) == HashMap(y) {
      forall n
        ensures SameHash(n, x, y)
      {
        assert n in x <==> n in HashMap(x);
        assert n in y <==> n in HashMap(y);
        assert n in x ==> x[n].hash == HashMap(x)[n] == HashMap(y)[n] == y[n].hash;
      }
    }
    if forall n :: SameHash(n, x, y) {
      forall n
        ensures n in HashMap(x) <==> n in HashMap(y)
        ensures n in HashMap(x) && n in HashMap(y) ==> HashMap(x)[n] == HashMap(y)[n]
      {
        assert SameHash(n, x, y);
      }
    }
  }

  lemma SameHashIff(h: Hash, enc: Encoder, a: Surface, b: Surface, n: string)
    requires Sound(h, enc, a, b)
    ensures SameHash(n, Fingerprints(h, enc, a), Fingerprints(h, enc, b)) <==> SameTool(n, a, b) && SameTitle(n, a, b)
  {
    if n in a.tools && n in b.tools {
      HashesTellTools(h, enc, a.tools[n], b.tools[n]);
    }
  }

  lemma SameDigestIff(h: Hash, enc: Encoder, a: Surface, b: Surface)
    requires Sound(h, enc, a, b)
    ensures var x, y := Fingerprints(h, enc, a), Fingerprints(h, enc, b);
      Digest(h, x, a.instructionsHash) == Digest(h, y, b.instructionsHash)
      <==> SameSurface(a, b) && !OnlyNulMoves(a, b)
  {
    var x, y := Fingerprints(h, enc, a), Fingerprints(h, enc, b);
    FingerprintsAreHex(h, enc, a, b);
    DigestSeparatesFingerprints(h, x, a.instructionsHash, y, b.instructionsHash);
    HashMapsAgree(x, y);
    forall n
      ensures SameHash(n, x, y) <==> SameTool(n, a, b) && SameTitle(n, a, b)
    {
      SameHashIff(h, enc, a, b, n);
    }
  }

  /**
  Exactly when the two routes to "has the surface changed" agree: between any
  two surfaces, under either drift policy, mcpDiff is empty just when the
  digests are equal, unless text has only moved across a NUL. In that case
  there are no rows and the digests differ.
  */
  lemma RoutesAgreeIff(h: Hash, enc: Encoder, a: Surface, b: Surface, record: bool)
    requires Sound(h, enc, a, b)
    ensures var x, y := Fingerprints(h, enc, a), Fingerprints(h, enc, b);
      var rows := DiffRows(x, a.instructionsHash, y, b.instructionsHash, record);
      var same := Digest(h, x, a.instructionsHash) == Digest(h, y, b.instructionsHash);
      && ((rows == [] <==> same) <==> !OnlyNulMoves(a, b))
      && (OnlyNulMoves(a, b) ==> rows == [] && !same)
  {
    NoRowsIffSameSurface(h, enc, a, b, record);
    SameDigestIff(h, enc, a, b);
  }

  /** So they agree whenever no title holds a NUL, whatever the tools are called. */
  lemma DiffAgreesWithDigest(h: Hash, enc: Encoder, a: Surface, b: Surface, record: bool)
    requires Sound(h, enc, a, b) && NulFreeTitles(a) && NulFreeTitles(b)
    ensures var x, y := Fingerprints(h, enc, a), Fingerprints(h, enc, b);
      DiffRows(x, a.instructionsHash, y, b.instructionsHash, record) == []
      <==> Digest(h, x, a.instructionsHash) == Digest(h, y, b.instructionsHash)
  {
    RoutesAgreeIff(h, enc, a, b, record);
    forall n | SameTool(n, a, b)
      ensures SameTitle(n, a, b)
    {
      if n in a.tools && n in b.tools {
        CutAtNul(a.tools[n].title, a.tools[n].description, b.tools[n].title, b.tools[n].description);
      }
    }
  }

  function MovedNul(schema: Json, moved: bool): Tool {
    if moved then Tool("t", "a", "b\0c", schema, schema, None) else Tool("t", "a\0b", "c", schema, schema, None)
  }

  function OneTool(t: Tool): Surface {
    Surface(map["t" := t], "")
  }

  lemma MovedNulOnly(schema: Json)
    ensures OnlyNulMoves(OneTool(MovedNul(schema, false)), OneTool(MovedNul(schema, true)))
  {
    var t, u := MovedNul(schema, false), MovedNul(schema, true);
    assert t.title + "\0" + t.description == u.title + "\0" + u.description;
    assert |t.title| != |u.title|;
    assert !SameTitle("t", OneTool(t), OneTool(u));
  }

  /** There are such surfaces: the title "a", NUL, "b" with the description "c" against "a" with "b", NUL, "c". */
  lemma NulTitleHidesAChange(h: Hash, enc: Encoder, schema: Json, record: bool)
    requires Injective(h) && HexLike(h) && Faithful(enc)
    ensures var a, b := OneTool(MovedNul(schema, false)), OneTool(MovedNul(schema, true));
      && DiffRows(Fingerprints(h, enc, a), "", Fingerprints(h, enc, b), "", record) == []
      && Digest(h, Fingerprints(h, enc, a), "") != Digest(h, Fingerprints(h, enc, b), "")
  {
    var a, b := OneTool(MovedNul(schema, false)), OneTool(MovedNul(schema, true));
    MovedNulOnly(schema);
    RoutesAgreeIff(h, enc, a, b, record);
  }

  // ----- what a passing chain of checks rules out ------------------------------------------------

  /** read-only < non-destructive < destructive. */
  function Level(t: ToolHashes): nat {
    if t.readOnly then 0 else if !t.destructive then 1 else 2
  }

  /** The level a tool's annotations give it: no annotations, and no destructive hint, mean destructive. */
  function HintLevel(a: Option<Annotations>): nat {
    match a
    case None => 2
    case Some(Annotations(_, true, _, _, _)) => 0
    case Some(Annotations(_, false, Some(false), _, _)) => 1
    case Some(_) => 2
  }

  lemma LevelIsHintLevel(h: Hash, enc: Encoder, t: Tool)
    ensures Level(Fingerprint(h, enc, t)) == HintLevel(t.annotations)
  {
  }

  /** What an annotations row says: why it fails, and nothing more when it does not. */
  lemma NoteTellsWhy(h: Hash, enc: Encoder, a: Tool, b: Tool, name: string, record: bool)
    ensures var r := AnnotationsRow(name, Fingerprint(h, enc, a), Fingerprint(h, enc, b), record);
      var was, now := HintLevel(a.annotations), HintLevel(b.annotations);
      && (r.note == NoLongerReadOnly <==> was == 0 < now)
      && (r.note == NowDestructive <==> was == 1 < now)
      && (r.note == Plain <==> now <= was)
      && (r.severity == Fail <==> !record && was < now)
  {
    LevelIsHintLevel(h, enc, a);
    LevelIsHintLevel(h, enc, b);
  }

  /** Under an alerting policy the annotations row of a tool fails exactly when its level rises. */
  lemma AnnotationsFailIffLevelRises(h: Hash, enc: Encoder, a: Tool, b: Tool, name: string, record: bool)
    ensures var was, now := Fingerprint(h, enc, a), Fingerprint(h, enc, b);
      AnnotationsRow(name, was, now, record).severity == Fail <==> !record && Level(now) > Level(was)
  {
  }

  /** The annotations object decides both effective hints. */
  lemma AnnotationsJsonDecides(a: Option<Annotations>, b: Option<Annotations>)
    requires AnnotationsJson(a) == AnnotationsJson(b)
    ensures ReadOnly(a) == ReadOnly(b) && Destructive(a) == Destructive(b)
  {
    if a.Some? && b.Some? {
      HintsInJson(a.value);
      HintsInJson(b.value);
    }
  }

  /** Where the two hints stand in the annotations object. */
  lemma HintsInJson(a: Annotations)
    ensures var fields := AnnotationsJson(Some(a)).fields;
      && (a.readOnlyHint <==> "readOnlyHint" in fields)
      && (a.destructiveHint.Some? <==> "destructiveHint" in fields)
      && (a.destructiveHint.Some? ==> fields["destructiveHint"] == JBool(a.destructiveHint.value))
  {
  }

  ghost predicate Passes(h: Hash, enc: Encoder, a: Surface, b: Surface) {
    var x, y := Fingerprints(h, enc, a), Fingerprints(h, enc, b);
    forall r :: r in DiffRows(x, a.instructionsHash, y, b.instructionsHash, false) ==> r.severity != Fail
  }

  lemma PassKeepsTool(h: Hash, enc: Encoder, a: Surface, b: Surface, n: string)
    requires Injective(h) && Faithful(enc) && Passes(h, enc, a, b)
    ensures n in a.tools <==> n in b.tools
    ensures n in a.tools ==> Level(Fingerprint(h, enc, b.tools[n])) <= Level(Fingerprint(h, enc, a.tools[n]))
  {
    var x, y := Fingerprints(h, enc, a), Fingerprints(h, enc, b);
    DiffIsExact(x, a.instructionsHash, y, b.instructionsHash, false);
    assert !Justified(Row(Removed, n, Fail, Plain), x, a.instructionsHash, y, b.instructionsHash, false);
    assert !Justified(Row(Added, n, Fail, Plain), x, a.instructionsHash, y, b.instructionsHash, false);
    if n in a.tools {
      var was, now := x[n], y[n];
      if was.hash != now.hash && was.annotations != now.annotations {
        var r := AnnotationsRow(n, was, now, false);
        assert Justified(r, x, a.instructionsHash, y, b.instructionsHash, false);
        AnnotationsFailIffLevelRises(h, enc, a.tools[n], b.tools[n], n, false);
      } else {
        SameAnnotations(h, enc, a.tools[n], b.tools[n]);
      }
    }
  }

  lemma SameAnnotations(h: Hash, enc: Encoder, a: Tool, b: Tool)
    requires Injective(h) && Faithful(enc)
    requires Fingerprint(h, enc, a).hash == Fingerprint(h, enc, b).hash
      || Fingerprint(h, enc, a).annotations == Fingerprint(h, enc, b).annotations
    ensures Level(Fingerprint(h, enc, a)) == Level(Fingerprint(h, enc, b))
  {
    if Fingerprint(h, enc, a).hash == Fingerprint(h, enc, b).hash {
      assert ToolJson(a).fields["annotations"] == ToolJson(b).fields["annotations"];
    }
    AnnotationsJsonDecides(a.annotations, b.annotations);
  }

  /**
  Along any chain of surfaces, each compared with the one before it and none
  with a failing row, the tools stay the same and no tool's level ever rises.
  */
  lemma {:induction false} ChainNeverRaisesLevel(h: Hash, enc: Encoder, chain: seq<Surface>, i: nat, j: nat, n: string)
    requires Injective(h) && Faithful(enc) && i <= j < |chain|
    requires forall k :: 0 <= k < |chain| - 1 ==> Passes(h, enc, chain[k], chain[k + 1])
    ensures n in chain[i].tools <==> n in chain[j].tools
    ensures n in chain[i].tools ==>
      Level(Fingerprint(h, enc, chain[j].tools[n])) <= Level(Fingerprint(h, enc, chain[i].tools[n]))
    decreases j
  {
    if i == j {
    } else {
      ChainNeverRaisesLevel(h, enc, chain, i, j - 1, n);
      assert Passes(h, enc, chain[j - 1], chain[j - 1 + 1]);
      PassKeepsTool(h, enc, chain[j - 1], chain[j], n);
    }
  }
}
