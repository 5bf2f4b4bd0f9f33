/**
The recursive SPF lookup count of mailCheckSPF in checker/mailposture.go: a
depth-first search that shares one visited set, is cut at depth 6 and, call by
call, once its own count has passed 30. DNS is a fixed snapshot.
*/
module SpfWalk {
  import opened Common
  import opened SpfText

  /** The trimmed TXT strings of a name; none when the lookup fails. */
  type Dns = string -> seq<string>

  const MAX_DEPTH := 6
  const MAX_COUNT := 30

  /** mailFindSPF: the first SPF record of a TXT list. */
  function FindSpf(txts: seq<string>): (r: Option<string>)
    ensures r.Some? ==> IsSpfRecord(r.value) && Fields(r.value) != []
    ensures r.None? <==> forall t :: t in txts ==> !IsSpfRecord(t)
  {
    if txts == [] then None
    else if IsSpfRecord(txts[0]) then RecordHasFields(txts[0]); Some(txts[0])
    else FindSpf(txts[1..])
  }

  // ----- records as the walk sees them -------------------------------------------------

  /** A term of a record: how many lookup mechanisms it is, where it includes from, whether it is ptr. */
  datatype Term = Term(lookups: nat, target: Option<string>, ptr: bool)

  /** What DNS has for a name: whether there is an SPF record, and its terms. */
  datatype Node = Node(found: bool, terms: seq<Term>)

  type Net = string -> Node

  /** One field of the record of `name`. */
  function ParseTerm(field: string, name: string): Term {
    var t := Lower(TrimQualifiers(field));
    Term(
      if IsLookup(t) then 1 else 0,
      match IncludeTarget(t) case Some(rest) => Some(ReplaceDomain(rest, name)) case None => None,
      IsPtr(t))
  }

  function ParseTerms(fields: seq<string>, name: string): (terms: seq<Term>)
    ensures |terms| == |fields|
    ensures forall k :: 0 <= k < |fields| ==> terms[k] == ParseTerm(fields[k], name)
  {
    if fields == [] then [] else [ParseTerm(fields[0], name)] + ParseTerms(fields[1..], name)
  }

  /** The terms of a record: its fields after the version. */
  function RecordTerms(rec: string, name: string): seq<Term>
    requires Fields(rec) != []
  {
    ParseTerms(Fields(rec)[1..], name)
  }

  function NodeOf(dns: Dns, name: string): Node {
    match FindSpf(dns(name))
    case Some(rec) => Node(true, RecordTerms(rec, name))
    case None => Node(false, [])
  }

  function NetOf(dns: Dns): Net {
    name => NodeOf(dns, name)
  }

  /** What a term costs by itself. */
  function OwnCost(term: Term): nat {
    term.lookups + if term.target.Some? then 1 else 0
  }

  function OwnCosts(terms: seq<Term>): nat {
    if terms == [] then 0 else OwnCost(terms[0]) + OwnCosts(terms[1..])
  }

  // ----- the walk ------------------------------------------------------------------------

  datatype Issue = NoRecordAt(target: string) | PtrDeprecated

  /** An include that was not followed, at the depth of the record that names it. */
  datatype Skip = Skip(target: string, depth: nat)

  /**
  The walk's state: the running count of the current call, the shared visited
  set and issues, and, for reasoning, the targets queried in order and the
  includes skipped.
  */
  datatype Walk = Walk(n: nat, seen: set<string>, issues: seq<Issue>, order: seq<string>, skips: seq<Skip>)

  /** The guard of a followed include, after its own increment. */
  predicate Follows(w: Walk, target: string, depth: nat) {
    depth < MAX_DEPTH && target !in w.seen && w.n <= MAX_COUNT
  }

  /** The state in which the nested count of `target` begins: marked, queried, counting from 0. */
  function Enter(net: Net, w: Walk, target: string): Walk {
    w.(n := 0, seen := w.seen + {target}, order := w.order + [target],
       issues := if net(target).found then w.issues else w.issues + [NoRecordAt(target)])
  }

  function WalkTerms(net: Net, terms: seq<Term>, depth: nat, w: Walk): Walk
    requires depth <= MAX_DEPTH
    decreases MAX_DEPTH - depth, |terms|
  {
    if terms == [] then w
    else WalkTerms(net, terms[1..], depth, WalkTerm(net, terms[0], depth, w))
  }

  function WalkTerm(net: Net, term: Term, depth: nat, w: Walk): Walk
    requires depth <= MAX_DEPTH
    decreases MAX_DEPTH - depth, 0
  {
    var counted := w.(n := w.n + OwnCost(term));
    var followed := match term.target
      case None => counted
      case Some(target) =>
        if Follows(counted, target, depth) then WalkTarget(net, target, depth, counted)
        else counted.(skips := w.skips + [Skip(target, depth)]);
    if term.ptr then followed.(issues := followed.issues + [PtrDeprecated]) else followed
  }

  /** One TXT query, and the count of the record it finds added to this call's. */
  function WalkTarget(net: Net, target: string, depth: nat, w: Walk): Walk
    requires depth < MAX_DEPTH
    decreases MAX_DEPTH - depth - 1, |net(target).terms| + 1
  {
    var r := WalkTerms(net, net(target).terms, depth + 1, Enter(net, w, target));
    r.(n := w.n + r.n)
  }

  function Fresh(): Walk {
    Walk(0, {}, [], [], [])
  }

  /** The whole walk from the domain's own record. */
  function WalkFrom(net: Net, domain: string): Walk {
    WalkTerms(net, net(domain).terms, 0, Fresh())
  }

  // ----- the walk as the closure it is -----------------------------------------------

  class Counter {
    const dns: Dns
    var seen: set<string>
    var issues: seq<Issue>
    ghost var order: seq<string>
    ghost var skips: seq<Skip>

    constructor (dns: Dns)
      ensures this.dns == dns && seen == {} && issues == [] && order == [] && skips == []
    {
      this.dns, seen, issues, order, skips := dns, {}, [], [], [];
    }

    ghost function State(n: nat): Walk
      reads this
    {
      Walk(n, seen, issues, order, skips)
    }

    /** The body of the guard: mark, query, recurse. */
    method Follow(target: string, depth: nat, n: nat) returns (total: nat)
      requires depth < MAX_DEPTH
      modifies this
      ensures State(total) == WalkTarget(NetOf(dns), target, depth, old(State(n)))
      decreases MAX_DEPTH - depth, 0
    {
      total := n;
      seen := seen + {target};
      order := order + [target];
      var sub := FindSpf(dns(target));
      if sub.Some? {
        var nested := Count(target, sub.value, depth + 1);
        total := total + nested;
      } else {
        issues := issues + [NoRecordAt(target)];
      }
    }

    /** One turn of count's loop. */
    method CountTerm(term: string, name: string, depth: nat, n: nat) returns (total: nat)
      requires depth <= MAX_DEPTH
      modifies this
      ensures State(total) == WalkTerm(NetOf(dns), ParseTerm(term, name), depth, old(State(n)))
      decreases MAX_DEPTH - depth, 1
    {
      var t := Lower(TrimQualifiers(term));
      total := n;
      if IsLookup(t) {
        total := total + 1;
      }
      var m := IncludeTarget(t);
      if m.Some? {
        total := total + 1;
        var target := ReplaceDomain(m.value, name);
        if depth < 6 && target !in seen && total <= 30 {
          total := Follow(target, depth, total);
        } else {
          skips := skips + [Skip(target, depth)];
        }
      }
      if IsPtr(t) {
        issues := issues + [PtrDeprecated];
      }
    }

    /** count(name, rec, depth). */
    method Count(name: string, rec: string, depth: nat) returns (n: nat)
      requires depth <= MAX_DEPTH && IsSpfRecord(rec) && Fields(rec) != []
      modifies this
      ensures State(n) == WalkTerms(NetOf(dns), RecordTerms(rec, name), depth, old(State(0)))
      decreases MAX_DEPTH - depth, 2
    {
      var terms := Fields(rec)[1..];
      ghost var parsed := ParseTerms(terms, name);
      n := 0;
      var k := 0;
      while k < |terms|
        invariant k <= |terms|
        invariant WalkTerms(NetOf(dns), parsed[k..], depth, State(n))
          == WalkTerms(NetOf(dns), parsed, depth, old(State(0)))
      {
        assert parsed[k..][0] == parsed[k] && parsed[k..][1..] == parsed[k + 1..];
        n := CountTerm(terms[k], name, depth, n);
        k := k + 1;
      }
    }
  }
}
