/** The SPF and DMARC reports and the scoring of CheckMailPosture in checker/mailposture.go. */
module MailPosture {
  import opened Common
  import opened SpfText
  import opened SpfWalk
  import SpfBudget
  import Utf8

  // ----- the SPF report ----------------------------------------------------------------

  datatype SpfIssue =
    | ManyRecords
    | TooLong
    | FromWalk(issue: SpfWalk.Issue)
    | OverLimit
    | PlusAll
    | NeutralAll
    | NoAll

  /** `all` is the qualifier of the all mechanism that decides, when one was found. */
  datatype SpfReport =
    SpfReport(found: bool, records: nat, all: Option<char>, redirects: bool, lookups: nat, issues: seq<SpfIssue>)

  /** The regexp class \s. */
  predicate IsReSpace(c: char) {
    c == '\t' || c == '\n' || c == '\U{000C}' || c == '\r' || c == ' '
  }

  /** [+-~?]?all followed by a space or the end, at the front of s. */
  predicate AllHere(s: string) {
    var w := if s != [] && s[0] in "+-~?" then s[1..] else s;
    |w| >= 3 && Lower(w[..3]) == "all" && (|w| == 3 || IsReSpace(w[3]))
  }

  /** The qualifier of the first all mechanism; a bare all is +all. */
  function FindAll(s: string, atStart: bool := true): Option<char> {
    if s == [] then None
    else if atStart && AllHere(s) then Some(if s[0] in "+-~?" then s[0] else '+')
    else FindAll(s[1..], IsReSpace(s[0]))
  }

  function TakeWord(s: string): string {
    if s == [] || IsReSpace(s[0]) then [] else [s[0]] + TakeWord(s[1..])
  }

  predicate RedirectsHere(s: string) {
    |s| > 9 && Lower(s[..9]) == "redirect=" && !IsReSpace(s[9])
  }

  /** The first redirect= modifier with something after it. */
  function FindRedirect(s: string, atStart: bool := true): Option<string> {
    if s == [] then None
    else if atStart && RedirectsHere(s) then Some(TakeWord(s[9..]))
    else FindRedirect(s[1..], IsReSpace(s[0]))
  }

  // ----- what the two patterns find in a record of words ---------------------------------

  predicate Qualified(w: string) {
    w != [] && w[0] in "+-~?"
  }

  predicate IsAllWord(w: string) {
    Lower(if Qualified(w) then w[1..] else w) == "all"
  }

  /** The qualifier of the first word that is an all mechanism. */
  function FirstAll(words: seq<string>): Option<char> {
    if words == [] then None
    else if IsAllWord(words[0]) then Some(if Qualified(words[0]) then words[0][0] else '+')
    else FirstAll(words[1..])
  }

  predicate IsRedirectWord(w: string) {
    |w| > 9 && Lower(w[..9]) == "redirect="
  }

  /** What follows redirect= in the first word that has something there. */
  function FirstRedirect(words: seq<string>): Option<string> {
    if words == [] then None
    else if IsRedirectWord(words[0]) then Some(words[0][9..])
    else FirstRedirect(words[1..])
  }

  /** What comes after a word: nothing, or a space. */
  predicate Trails(rest: string) {
    rest != [] ==> rest[0] == ' '
  }

  predicate IsWordText(w: string) {
    forall k :: 0 <= k < |w| ==> !IsReSpace(w[k]) && !IsSpace(w[k])
  }

  lemma AllHereIsAllWord(w: string, rest: string)
    requires w != [] && IsWordText(w) && Trails(rest)
    ensures AllHere(w + rest) <==> IsAllWord(w)
  {
    var x := if Qualified(w) then w[1..] else w;
    var y := x + rest;
    assert (w + rest)[0] == w[0] && (if Qualified(w) then (w + rest)[1..] else w + rest) == y;
    if |x| >= 3 {
      assert y[..3] == x[..3];
      assert |x| > 3 ==> !IsReSpace(y[3]);
      assert |x| == 3 ==> x[..3] == x;
    } else if |y| >= 3 {
      assert y[|x|] == ' ' && Lower(y[..3])[|x|] == ' ';
    }
  }

  lemma RedirectHere(w: string, rest: string)
    requires w != [] && IsWordText(w) && Trails(rest)
    ensures RedirectsHere(w + rest) <==> IsRedirectWord(w)
  {
    var s := w + rest;
    if |w| >= 9 {
      assert s[..9] == w[..9];
    } else if |s| >= 9 {
      assert s[|w|] == ' ' && Lower(s[..9])[|w|] == ' ';
      assert forall k :: 0 <= k < 9 ==> "redirect="[k] != ' ';
    }
  }

  lemma {:induction false} TakesWord(w: string, rest: string)
    requires IsWordText(w) && Trails(rest)
    ensures TakeWord(w + rest) == w
  {
    if w == [] {
    } else {
      TakesWord(w[1..], rest);
      assert (w + rest)[1..] == w[1..] + rest;
    }
  }

  /** Inside a word neither pattern can begin. */
  lemma {:induction false} SkipWord(w: string, rest: string)
    requires IsWordText(w)
    ensures FindAll(w + rest, false) == FindAll(rest, false)
    ensures FindRedirect(w + rest, false) == FindRedirect(rest, false)
  {
    if w == [] {
      assert w + rest == rest;
    } else {
      SkipWord(w[1..], rest);
      assert (w + rest)[1..] == w[1..] + rest;
    }
  }

  lemma FindAllStep(s: string)
    requires s != []
    ensures FindAll(s) ==
      if AllHere(s) then Some(if Qualified(s) then s[0] else '+') else FindAll(s[1..], IsReSpace(s[0]))
  {
  }

  lemma FindRedirectStep(s: string)
    requires s != []
    ensures FindRedirect(s) ==
      if RedirectsHere(s) then Some(TakeWord(s[9..])) else FindRedirect(s[1..], IsReSpace(s[0]))
  {
  }

  /** Behind the first character of a word the search goes on at what trails the word. */
  lemma BehindFirst(w: string, rest: string)
    requires w != [] && IsWordText(w)
    ensures var s := w + rest;
      && FindAll(s[1..], IsReSpace(s[0])) == FindAll(rest, false)
      && FindRedirect(s[1..], IsReSpace(s[0])) == FindRedirect(rest, false)
      && s[0] == w[0]
  {
    SkipWord(w[1..], rest);
    assert (w + rest)[0] == w[0] && (w + rest)[1..] == w[1..] + rest;
  }

  /** A word at the start of a text: it is found, or the search goes on behind it. */
  lemma AllAtWord(w: string, rest: string)
    requires w != [] && IsWordText(w) && Trails(rest)
    ensures FindAll(w + rest) ==
      if IsAllWord(w) then Some(if Qualified(w) then w[0] else '+') else FindAll(rest, false)
  {
    AllHereIsAllWord(w, rest);
    FindAllStep(w + rest);
    BehindFirst(w, rest);
  }

  lemma TakesValue(w: string, rest: string)
    requires IsRedirectWord(w) && IsWordText(w) && Trails(rest)
    ensures TakeWord((w + rest)[9..]) == w[9..]
  {
    assert (w + rest)[9..] == w[9..] + rest;
    TakesWord(w[9..], rest);
  }

  lemma RedirectAtWord(w: string, rest: string)
    requires w != [] && IsWordText(w) && Trails(rest)
    ensures FindRedirect(w + rest) == if IsRedirectWord(w) then Some(w[9..]) else FindRedirect(rest, false)
  {
    RedirectHere(w, rest);
    FindRedirectStep(w + rest);
    BehindFirst(w, rest);
    if IsRedirectWord(w) {
      TakesValue(w, rest);
    }
  }

  lemma WordIsText(words: seq<string>)
    requires AreWords(words) && words != []
    ensures words[0] != [] && IsWordText(words[0])
  {
    assert words[0] in words && forall k :: 0 <= k < |words[0]| ==> words[0][k] in words[0];
  }

  /**
  In a record of words with single spaces the patterns find the first words
  that match, and nothing inside a word.
  */
  lemma {:induction false} FindInJoined(words: seq<string>)
    requires AreWords(words)
    ensures FindAll(Joined(words)) == FirstAll(words)
    ensures FindRedirect(Joined(words)) == FirstRedirect(words)
  {
    if words == [] {
    } else {
      WordIsText(words);
      WordsTail(words);
      FindInJoined(words[1..]);
      if |words| == 1 {
        assert words[0] + [] == words[0];
        AllAtWord(words[0], []);
        RedirectAtWord(words[0], []);
      } else {
        var rest := Joined(words[1..]);
        assert words[0] + " " + rest == words[0] + (" " + rest);
        AllAtWord(words[0], " " + rest);
        RedirectAtWord(words[0], " " + rest);
        assert (" " + rest)[1..] == rest;
      }
    }
  }

  /** The length of s in bytes of UTF-8. */
  function ByteLength(s: string): nat {
    if s == [] then 0 else |Utf8.EncodeRune(s[0] as int)| + ByteLength(s[1..])
  }

  /** What a loop with this test collects. */
  function Kept<T>(keep: T -> bool, txts: seq<T>): seq<T> {
    if txts == [] then []
    else Kept(keep, txts[..|txts| - 1]) + if keep(txts[|txts| - 1]) then [txts[|txts| - 1]] else []
  }

  method Collect<T>(keep: T -> bool, txts: seq<T>) returns (kept: seq<T>)
    ensures kept == Kept(keep, txts)
  {
    kept := [];
    for k := 0 to |txts|
      invariant kept == Kept(keep, txts[..k])
    {
      assert txts[..k + 1][..k] == txts[..k];
      if keep(txts[k]) {
        kept := kept + [txts[k]];
      }
    }
    assert txts[..|txts|] == txts;
  }

  /** records of mailCheckSPF. */
  function SpfRecords(txts: seq<string>): seq<string> {
    Kept(IsSpfRecord, txts)
  }

  /** Keeping one element, or none. */
  function Kept1<T>(keep: T -> bool, x: T): seq<T> {
    if keep(x) then [x] else []
  }

  lemma KeptLast<T>(keep: T -> bool, txts: seq<T>)
    requires txts != []
    ensures Kept(keep, txts) == Kept(keep, txts[..|txts| - 1]) + Kept1(keep, txts[|txts| - 1])
  {
  }

  lemma {:induction false} KeptCons<T>(keep: T -> bool, txts: seq<T>)
    requires txts != []
    ensures Kept(keep, txts) == Kept1(keep, txts[0]) + Kept(keep, txts[1..])
    decreases |txts|
  {
    var init, tail := txts[..|txts| - 1], txts[1..];
    KeptLast(keep, txts);
    if |txts| == 1 {
      assert init == [] && tail == [];
    } else {
      KeptCons(keep, init);
      KeptLast(keep, tail);
      assert init[1..] == tail[..|tail| - 1];
    }
  }

  /** mailFindSPF finds the first of the records the loop collects. */
  lemma {:induction false} FirstRecord(txts: seq<string>)
    ensures SpfRecords(txts) == [] <==> FindSpf(txts).None?
    ensures SpfRecords(txts) != [] ==> FindSpf(txts) == Some(SpfRecords(txts)[0])
    decreases |txts|
  {
    if txts == [] {
    } else {
      KeptCons(IsSpfRecord, txts);
      FirstRecord(txts[1..]);
    }
  }

  /** The all mechanism that decides: the record's own, or that of the record it redirects to. */
  function DecidingAll(dns: Dns, domain: string, record: string): Option<char> {
    var own := FindAll(record);
    if own.Some? then own
    else match FindRedirect(record)
      case None => None
      case Some(to) =>
        match FindSpf(dns(ReplaceDomain(to, domain)))
        case None => None
        case Some(target) => FindAll(target)
  }

  function WalkIssues(issues: seq<SpfWalk.Issue>): seq<SpfIssue> {
    if issues == [] then [] else [FromWalk(issues[0])] + WalkIssues(issues[1..])
  }

  function RecordIssues(records: nat, bytes: nat): seq<SpfIssue> {
    (if records > 1 then [ManyRecords] else []) + (if bytes > 255 then [TooLong] else [])
  }

  function LimitIssues(lookups: nat): seq<SpfIssue> {
    if lookups > SpfBudget.LOOKUP_LIMIT then [OverLimit] else []
  }

  function AllIssues(all: Option<char>, redirects: bool): seq<SpfIssue> {
    match all
    case Some(q) => if q == '+' then [PlusAll] else if q == '?' then [NeutralAll] else []
    case None => if redirects then [] else [NoAll]
  }

  function SpfReportOf(dns: Dns, domain: string): SpfReport {
    match FindSpf(dns(domain))
    case None => SpfReport(false, 0, None, false, 0, [])
    case Some(record) =>
      var records := |SpfRecords(dns(domain))|;
      var w := WalkFrom(NetOf(dns), domain);
      var all, redirects := DecidingAll(dns, domain, record), FindRedirect(record).Some?;
      SpfReport(true, records, all, redirects, w.n,
        RecordIssues(records, ByteLength(record)) + WalkIssues(w.issues) + LimitIssues(w.n) + AllIssues(all, redirects))
  }

  method FindDecidingAll(dns: Dns, domain: string, record: string) returns (all: Option<char>, redirects: bool)
    ensures all == DecidingAll(dns, domain, record) && redirects == FindRedirect(record).Some?
  {
    all := FindAll(record);
    var redirect := FindRedirect(record);
    redirects := redirect.Some?;
    if all.None? && redirects {
      var target := FindSpf(dns(ReplaceDomain(redirect.value, domain)));
      if target.Some? {
        all := FindAll(target.value);
      }
    }
  }

  /** The nested count of mailCheckSPF: the total and the issues met on the way. */
  method CountLookups(dns: Dns, domain: string, record: string) returns (lookups: nat, issues: seq<SpfWalk.Issue>)
    requires FindSpf(dns(domain)) == Some(record)
    ensures lookups == WalkFrom(NetOf(dns), domain).n && issues == WalkFrom(NetOf(dns), domain).issues
  {
    var counter := new Counter(dns);
    lookups := counter.Count(domain, record, 0);
    issues := counter.issues;
    assert counter.State(lookups) == WalkFrom(NetOf(dns), domain);
  }

  /** mailCheckSPF. */
  method CheckSpf(dns: Dns, domain: string) returns (report: SpfReport)
    ensures report == SpfReportOf(dns, domain)
  {
    var records := Collect(IsSpfRecord, dns(domain));
    FirstRecord(dns(domain));
    if |records| == 0 {
      return SpfReport(false, 0, None, false, 0, []);
    }
    var record := records[0];
    var issues := [];
    if |records| > 1 {
      issues := issues + [ManyRecords];
    }
    if ByteLength(record) > 255 {
      issues := issues + [TooLong];
    }
    assert issues == RecordIssues(|records|, ByteLength(record));
    var lookups, met := CountLookups(dns, domain, record);
    issues := issues + WalkIssues(met);
    ghost var counted := issues;
    if lookups > SpfBudget.LOOKUP_LIMIT {
      issues := issues + [OverLimit];
    }
    assert issues == counted + LimitIssues(lookups);
    ghost var limited := issues;
    var all, redirects := FindDecidingAll(dns, domain, record);
    if all.Some? {
      if all.value == '+' {
        issues := issues + [PlusAll];
      } else if all.value == '?' {
        issues := issues + [NeutralAll];
      }
    } else if !redirects {
      issues := issues + [NoAll];
    }
    assert issues == limited + AllIssues(all, redirects);
    report := SpfReport(true, |records|, all, redirects, lookups, issues);
  }

  // ----- the DMARC report ----------------------------------------------------------------

  datatype DmarcIssue =
    | ManyDmarcRecords
    | MissingPolicy
    | PolicyNone
    | PolicyQuarantine
    | PartialPct
    | NoRua
    | SubdomainNone

  /** A DMARC policy; NoPolicy is the empty string, OtherPolicy a value the check does not know. */
  datatype Policy = NoPolicy | NonePolicy | Quarantine | Reject | OtherPolicy

  /** The tags of the first DMARC record, lower-cased where the check does so. */
  datatype DmarcTags = DmarcTags(records: nat, policy: Policy, subdomainPolicy: Policy, pct: int, rua: nat)

  /** mailCheckDMARC's issues for a record that was found. */
  function DmarcIssues(t: DmarcTags): seq<DmarcIssue> {
    (if t.records > 1 then [ManyDmarcRecords] else [])
    + (if t.policy == NoPolicy then [MissingPolicy]
       else if t.policy == NonePolicy then [PolicyNone]
       else if t.policy == Quarantine then [PolicyQuarantine]
       else [])
    + (if t.pct < 100 then [PartialPct] else [])
    + (if t.rua == 0 then [NoRua] else [])
    + (if t.subdomainPolicy == NonePolicy && t.policy != NonePolicy then [SubdomainNone] else [])
  }

  // ----- scoring ---------------------------------------------------------------------------

  datatype Severity = Fail | Warn | Info | Pass

  /** The heading of a finding; counts and record texts are left out. */
  datatype Title =
    | NullMxPublished | NoMxRecords | MxRecords
    | NoSpfRecord | SpfTitle | NoDmarcRecord | DmarcTitle | DkimTitle
    | MtaSts | NoMtaSts | TlsRpt | NoTlsRpt
    | ListedOn(list: string) | Blocklists | SomeDidNotAnswer | PolicyBelowRequired

  datatype Finding = Finding(severity: Severity, title: Title)

  datatype Summary = Problems(count: nat) | Warnings | AllGood

  datatype Grade = F | D | C | B | A | APlus

  /** Everything the scorer looks at. `dmarc` is None when no record was found. */
  datatype Inputs = Inputs(
    nullMx: bool, mxRows: nat,
    spf: SpfReport, dmarc: Option<DmarcTags>,
    dkimKeys: nat, dkimWildcard: bool, mtaSts: bool, tlsRpt: bool,
    listings: seq<string>, ips: nat, blocklistErrors: nat,
    requiredPolicy: Policy)

  /** The texts of these issues contain one of "PermError", "+all" and "no SPF record". */
  function SpfSeverity(i: SpfIssue): Severity {
    match i
    case ManyRecords | OverLimit | PlusAll => Fail
    case FromWalk(NoRecordAt(_)) => Fail
    case _ => Warn
  }

  /** The texts of these issues contain "ignore all" or "Missing required". */
  function DmarcSeverity(i: DmarcIssue): Severity {
    if i.ManyDmarcRecords? || i.MissingPolicy? then Fail else Warn
  }

  function PolicyRank(policy: Policy): nat {
    if policy == NonePolicy then 1 else if policy == Quarantine then 2 else if policy == Reject then 3 else 0
  }

  function GradeOf(score: int): Grade {
    if score >= 95 then APlus
    else if score >= 85 then A
    else if score >= 70 then B
    else if score >= 55 then C
    else if score >= 40 then D
    else F
  }

  function GradeRank(g: Grade): nat {
    match g case F => 0 case D => 1 case C => 2 case B => 3 case A => 4 case APlus => 5
  }

  function AllPenalty(all: Option<char>, redirects: bool): nat {
    match all
    case Some(q) => if q == '+' then 25 else if q == '?' then 10 else 0
    case None => if redirects then 0 else 10
  }

  function SpfPenalty(spf: SpfReport): nat {
    if !spf.found then 30
    else
      AllPenalty(spf.all, spf.redirects)
      + (if spf.lookups > SpfBudget.LOOKUP_LIMIT then 15 else 0)
      + (if spf.records > 1 then 15 else 0)
  }

  function DmarcPenalty(dmarc: Option<DmarcTags>): nat {
    match dmarc
    case None => 30
    case Some(t) =>
      (match t.policy case NoPolicy => 25 case NonePolicy => 15 case Quarantine => 5 case _ => 0)
      + (if t.rua == 0 then 5 else 0) + (if t.pct < 100 then 5 else 0)
  }

  function ListingPenalty(listings: nat): nat {
    if 20 * listings < 40 then 20 * listings else 40
  }

  function Penalty(i: Inputs): nat {
    SpfPenalty(i.spf) + DmarcPenalty(i.dmarc) + ListingPenalty(|i.listings|)
  }

  /** The titles of the fail findings, in order. */
  function FailTitles(fs: seq<Finding>): seq<Title> {
    if fs == [] then []
    else FailTitles(fs[..|fs| - 1]) + if fs[|fs| - 1].severity == Fail then [fs[|fs| - 1].title] else []
  }

  predicate Has(fs: seq<Finding>, s: Severity) {
    exists k :: 0 <= k < |fs| && fs[k].severity == s
  }

  predicate PolicyTooWeak(i: Inputs) {
    i.requiredPolicy != NoPolicy &&
    PolicyRank(if i.dmarc.Some? then i.dmarc.value.policy else NoPolicy) < PolicyRank(i.requiredPolicy)
  }

  function MxFindings(i: Inputs): seq<Finding> {
    if i.nullMx then [Finding(Info, NullMxPublished)]
    else if i.mxRows == 0 then [Finding(Warn, NoMxRecords)]
    else [Finding(Pass, MxRecords)]
  }

  function SpfIssueFindings(issues: seq<SpfIssue>): seq<Finding> {
    seq(|issues|, k requires 0 <= k < |issues| => Finding(SpfSeverity(issues[k]), SpfTitle))
  }

  function SpfFindings(spf: SpfReport): seq<Finding> {
    if !spf.found then [Finding(Fail, NoSpfRecord)]
    else if spf.issues == [] then [Finding(Pass, SpfTitle)]
    else SpfIssueFindings(spf.issues)
  }

  function DmarcIssueFindings(issues: seq<DmarcIssue>): seq<Finding> {
    seq(|issues|, k requires 0 <= k < |issues| => Finding(DmarcSeverity(issues[k]), DmarcTitle))
  }

  function DmarcFindings(dmarc: Option<DmarcTags>): seq<Finding> {
    match dmarc
    case None => [Finding(Fail, NoDmarcRecord)]
    case Some(t) => if DmarcIssues(t) == [] then [Finding(Pass, DmarcTitle)] else DmarcIssueFindings(DmarcIssues(t))
  }

  predicate ReceivesMail(i: Inputs) {
    i.mxRows > 0 && !i.nullMx
  }

  function DkimFindings(i: Inputs): seq<Finding> {
    if i.dkimKeys > 0 then [Finding(Pass, DkimTitle)]
    else if i.dkimWildcard || ReceivesMail(i) then [Finding(Info, DkimTitle)]
    else []
  }

  function TransportFindings(i: Inputs): seq<Finding> {
    if !ReceivesMail(i) then [] else
      [if i.mtaSts then Finding(Pass, MtaSts) else Finding(Info, NoMtaSts),
       if i.tlsRpt then Finding(Pass, TlsRpt) else Finding(Info, NoTlsRpt)]
  }

  function ListingFindings(listings: seq<string>): seq<Finding> {
    seq(|listings|, k requires 0 <= k < |listings| => Finding(Fail, ListedOn(listings[k])))
  }

  function BlocklistFindings(i: Inputs): seq<Finding> {
    if i.listings != [] then ListingFindings(i.listings)
    else if i.ips > 0 then [Finding(Pass, Blocklists)]
    else []
  }

  function ErrorFindings(i: Inputs): seq<Finding> {
    if i.blocklistErrors > 0 then [Finding(Info, SomeDidNotAnswer)] else []
  }

  function PolicyFindings(i: Inputs): seq<Finding> {
    if PolicyTooWeak(i) then [Finding(Fail, PolicyBelowRequired)] else []
  }

  function AllFindings(i: Inputs): seq<Finding> {
    MxFindings(i) + SpfFindings(i.spf) + DmarcFindings(i.dmarc) + DkimFindings(i) + TransportFindings(i)
    + BlocklistFindings(i) + ErrorFindings(i) + PolicyFindings(i)
  }

  /** The report under construction: `score -= ...` and append. */
  class Posture {
    var score: int
    var findings: seq<Finding>
    var fails: seq<Title>

    constructor ()
      ensures score == 100 && findings == [] && Consistent()
    {
      score, findings, fails := 100, [], [];
    }

    /** Fails is the titles of the fail findings, in order. */
    ghost predicate Consistent()
      reads this
    {
      fails == FailTitles(findings)
    }

    method Add(severity: Severity, title: Title)
      requires Consistent()
      modifies this
      ensures Consistent() && score == old(score) && findings == old(findings) + [Finding(severity, title)]
    {
      findings := findings + [Finding(severity, title)];
      if severity == Fail {
        fails := fails + [title];
      }
      assert findings[..|findings| - 1] == old(findings);
    }

    method ScoreSpf(spf: SpfReport)
      requires Consistent()
      modifies this
      ensures Consistent() && score == old(score) - SpfPenalty(spf) && findings == old(findings) + SpfFindings(spf)
    {
      if !spf.found {
        score := score - 30;
        Add(Fail, NoSpfRecord);
        return;
      }
      for k := 0 to |spf.issues|
        invariant Consistent() && score == old(score)
        invariant findings == old(findings) + SpfIssueFindings(spf.issues)[..k]
      {
        Add(SpfSeverity(spf.issues[k]), SpfTitle);
      }
      assert SpfIssueFindings(spf.issues)[..|spf.issues|] == SpfIssueFindings(spf.issues);
      match spf.all {
        case Some(q) =>
          if q == '+' {
            score := score - 25;
          } else if q == '?' {
            score := score - 10;
          }
        case None =>
          if !spf.redirects {
            score := score - 10;
          }
      }
      if spf.lookups > SpfBudget.LOOKUP_LIMIT {
        score := score - 15;
      }
      if spf.records > 1 {
        score := score - 15;
      }
      if |spf.issues| == 0 {
        Add(Pass, SpfTitle);
      }
    }

    method AddDmarcIssues(issues: seq<DmarcIssue>)
      requires Consistent()
      modifies this
      ensures Consistent() && score == old(score) && findings == old(findings) + DmarcIssueFindings(issues)
    {
      for k := 0 to |issues|
        invariant Consistent() && score == old(score)
        invariant findings == old(findings) + DmarcIssueFindings(issues)[..k]
      {
        Add(DmarcSeverity(issues[k]), DmarcTitle);
      }
      assert DmarcIssueFindings(issues)[..|issues|] == DmarcIssueFindings(issues);
    }

    method ScoreDmarc(dmarc: Option<DmarcTags>)
      requires Consistent()
      modifies this
      ensures Consistent() && score == old(score) - DmarcPenalty(dmarc)
      ensures findings == old(findings) + DmarcFindings(dmarc)
    {
      if dmarc.None? {
        score := score - 30;
        Add(Fail, NoDmarcRecord);
        return;
      }
      var t := dmarc.value;
      var issues := DmarcIssues(t);
      AddDmarcIssues(issues);
      if t.policy == NoPolicy {
        score := score - 25;
      } else if t.policy == NonePolicy {
        score := score - 15;
      } else if t.policy == Quarantine {
        score := score - 5;
      }
      if t.rua == 0 {
        score := score - 5;
      }
      if t.pct < 100 {
        score := score - 5;
      }
      if |issues| == 0 {
        Add(Pass, DmarcTitle);
      }
    }

    method ReportDkim(i: Inputs)
      requires Consistent()
      modifies this
      ensures Consistent() && score == old(score) && findings == old(findings) + DkimFindings(i)
    {
      if i.dkimKeys > 0 {
        Add(Pass, DkimTitle);
      } else if i.dkimWildcard {
        Add(Info, DkimTitle);
      } else if ReceivesMail(i) {
        Add(Info, DkimTitle);
      }
    }

    method ReportTransport(i: Inputs)
      requires Consistent()
      modifies this
      ensures Consistent() && score == old(score) && findings == old(findings) + TransportFindings(i)
    {
      if ReceivesMail(i) {
        if i.mtaSts {
          Add(Pass, MtaSts);
        } else {
          Add(Info, NoMtaSts);
        }
        if i.tlsRpt {
          Add(Pass, TlsRpt);
        } else {
          Add(Info, NoTlsRpt);
        }
      }
    }

    method AddListings(listings: seq<string>)
      requires Consistent()
      modifies this
      ensures Consistent() && score == old(score) && findings == old(findings) + ListingFindings(listings)
    {
      for k := 0 to |listings|
        invariant Consistent() && score == old(score)
        invariant findings == old(findings) + ListingFindings(listings)[..k]
      {
        Add(Fail, ListedOn(listings[k]));
      }
      assert ListingFindings(listings)[..|listings|] == ListingFindings(listings);
    }

    method ScoreBlocklists(i: Inputs)
      requires Consistent()
      modifies this
      ensures Consistent() && score == old(score) - ListingPenalty(|i.listings|)
      ensures findings == old(findings) + BlocklistFindings(i)
    {
      if |i.listings| > 0 {
        score := score - if 20 * |i.listings| < 40 then 20 * |i.listings| else 40;
        AddListings(i.listings);
      } else if i.ips > 0 {
        Add(Pass, Blocklists);
      }
    }

    method ReportErrors(i: Inputs)
      requires Consistent()
      modifies this
      ensures Consistent() && score == old(score) && findings == old(findings) + ErrorFindings(i)
    {
      if i.blocklistErrors > 0 {
        Add(Info, SomeDidNotAnswer);
      }
    }

    method ReportMx(i: Inputs)
      requires Consistent()
      modifies this
      ensures Consistent() && score == old(score) && findings == old(findings) + MxFindings(i)
    {
      if i.nullMx {
        Add(Info, NullMxPublished);
      } else if i.mxRows == 0 {
        Add(Warn, NoMxRecords);
      } else {
        Add(Pass, MxRecords);
      }
    }

    method CheckRequiredPolicy(i: Inputs)
      requires Consistent()
      modifies this
      ensures Consistent() && score == old(score) && findings == old(findings) + PolicyFindings(i)
    {
      if PolicyTooWeak(i) {
        Add(Fail, PolicyBelowRequired);
      }
    }

    /** The scoring half of CheckMailPosture, from the records to the verdict. */
    method Score(i: Inputs) returns (grade: Grade, summary: Summary)
      requires score == 100 && findings == [] && Consistent()
      modifies this
      ensures findings == AllFindings(i) && fails == FailTitles(findings)
      ensures score == (if Penalty(i) > 100 then 0 else 100 - Penalty(i)) && grade == GradeOf(score)
      ensures summary ==
        if fails != [] then Problems(|fails|) else if Has(findings, Warn) then Warnings else AllGood
    {
      ReportMx(i);
      assert findings == MxFindings(i);
      ScoreSpf(i.spf);
      ScoreDmarc(i.dmarc);
      ReportDkim(i);
      ReportTransport(i);
      ScoreBlocklists(i);
      ReportErrors(i);
      CheckRequiredPolicy(i);
      if score < 0 {
        score := 0;
      }
      grade := GradeOf(score);
      if |fails| > 0 {
        summary := Problems(|fails|);
      } else if exists k :: 0 <= k < |findings| && findings[k].severity == Warn {
        summary := Warnings;
      } else {
        summary := AllGood;
      }
    }
  }

  // ----- what the verdict means --------------------------------------------------------------

  function ScoreOf(i: Inputs): int {
    if Penalty(i) > 100 then 0 else 100 - Penalty(i)
  }

  lemma {:induction false} FailTitlesAre(fs: seq<Finding>)
    ensures FailTitles(fs) != [] <==> Has(fs, Fail)
  {
    if fs == [] {
    } else {
      var rest := fs[..|fs| - 1];
      FailTitlesAre(rest);
      if Has(fs, Fail) && fs[|fs| - 1].severity != Fail {
        var k :| 0 <= k < |fs| && fs[k].severity == Fail;
        assert rest[k].severity == Fail;
      }
      if Has(rest, Fail) {
        var k :| 0 <= k < |rest| && rest[k].severity == Fail;
        assert fs[k].severity == Fail;
      }
    }
  }

  /** The fail titles are those of the fail findings. */
  lemma {:induction false} FailTitleIff(fs: seq<Finding>, title: Title)
    ensures title in FailTitles(fs) <==> Finding(Fail, title) in fs
  {
    if fs == [] {
    } else {
      FailTitleIff(fs[..|fs| - 1], title);
      assert fs == fs[..|fs| - 1] + [fs[|fs| - 1]];
    }
  }

  /** The published policy is at least as strict as the required one; an unknown requirement asks for nothing. */
  predicate Meets(published: Policy, required: Policy) {
    match required
    case NoPolicy | OtherPolicy => true
    case NonePolicy => published == NonePolicy || published == Quarantine || published == Reject
    case Quarantine => published == Quarantine || published == Reject
    case Reject => published == Reject
  }

  lemma NoOtherPolicyFinding(i: Inputs)
    ensures var f := Finding(Fail, PolicyBelowRequired); f in AllFindings(i) <==> f in PolicyFindings(i)
  {
    assert forall f :: f in SpfFindings(i.spf) || f in DmarcFindings(i.dmarc) ==> f.title != PolicyBelowRequired;
    assert forall f :: f in BlocklistFindings(i) ==> f.title != PolicyBelowRequired;
  }

  /**
  The report fails for the policy if and only if the published policy, none
  when there is no DMARC record, does not meet the required one.
  */
  lemma RequiredPolicyIsEnforced(i: Inputs)
    ensures PolicyBelowRequired in FailTitles(AllFindings(i))
      <==> !Meets(if i.dmarc.Some? then i.dmarc.value.policy else NoPolicy, i.requiredPolicy)
  {
    FailTitleIff(AllFindings(i), PolicyBelowRequired);
    NoOtherPolicyFinding(i);
  }

  lemma HasConcat(a: seq<Finding>, b: seq<Finding>, s: Severity)
    ensures Has(a + b, s) <==> Has(a, s) || Has(b, s)
  {
    if Has(a, s) {
      var k :| 0 <= k < |a| && a[k].severity == s;
      assert (a + b)[k].severity == s;
    }
    if Has(b, s) {
      var k :| 0 <= k < |b| && b[k].severity == s;
      assert (a + b)[|a| + k].severity == s;
    }
    if Has(a + b, s) {
      var k :| 0 <= k < |a + b| && (a + b)[k].severity == s;
      assert if k < |a| then a[k].severity == s else b[k - |a|].severity == s;
    }
  }

  lemma HasInReport(i: Inputs, s: Severity)
    ensures Has(AllFindings(i), s) <==>
      || Has(MxFindings(i), s) || Has(SpfFindings(i.spf), s) || Has(DmarcFindings(i.dmarc), s)
      || Has(DkimFindings(i), s) || Has(TransportFindings(i), s) || Has(BlocklistFindings(i), s)
      || Has(ErrorFindings(i), s) || Has(PolicyFindings(i), s)
  {
    var a := MxFindings(i) + SpfFindings(i.spf);
    var b := a + DmarcFindings(i.dmarc);
    var c := b + DkimFindings(i);
    var d := c + TransportFindings(i);
    HasConcat(MxFindings(i), SpfFindings(i.spf), s);
    HasConcat(a, DmarcFindings(i.dmarc), s);
    HasConcat(b, DkimFindings(i), s);
    HasConcat(c, TransportFindings(i), s);
    HasConcat(d, BlocklistFindings(i), s);
    HasConcat(d + BlocklistFindings(i), ErrorFindings(i), s);
    HasConcat(d + BlocklistFindings(i) + ErrorFindings(i), PolicyFindings(i), s);
  }

  /** The score is in 0..100; without SPF or without DMARC it is at most 70 and the grade at most B. */
  lemma ScoreBounds(i: Inputs)
    ensures 0 <= ScoreOf(i) <= 100
    ensures !i.spf.found || i.dmarc.None? ==> ScoreOf(i) <= 70 && GradeRank(GradeOf(ScoreOf(i))) <= GradeRank(B)
    ensures !i.spf.found && i.dmarc.None? ==> ScoreOf(i) <= 40
  {
  }

  lemma GradeIsMonotone(a: int, b: int)
    requires a <= b
    ensures GradeRank(GradeOf(a)) <= GradeRank(GradeOf(b))
  {
  }

  predicate Complains(fs: seq<Finding>) {
    Has(fs, Fail) || Has(fs, Warn)
  }

  /** Without the issue that goes with it, no part of the penalty applies. */
  lemma PenaltyHasIssue(records: nat, bytes: nat, met: seq<SpfIssue>, lookups: nat, all: Option<char>, redirects: bool)
    requires RecordIssues(records, bytes) + met + LimitIssues(lookups) + AllIssues(all, redirects) == []
    ensures records <= 1 && lookups <= SpfBudget.LOOKUP_LIMIT && AllPenalty(all, redirects) == 0
  {
    assert RecordIssues(records, bytes) == [] && LimitIssues(lookups) == [] && AllIssues(all, redirects) == [];
  }

  lemma SpfDeductionHasIssue(dns: Dns, domain: string)
    ensures var r := SpfReportOf(dns, domain); r.found && r.issues == [] ==> SpfPenalty(r) == 0
  {
    var r := SpfReportOf(dns, domain);
    if r.found && r.issues == [] {
      var record := FindSpf(dns(domain)).value;
      var met := WalkIssues(WalkFrom(NetOf(dns), domain).issues);
      PenaltyHasIssue(r.records, ByteLength(record), met, r.lookups, r.all, r.redirects);
    }
  }

  lemma SpfIssuesComplain(spf: SpfReport)
    ensures !spf.found || spf.issues != [] ==> Complains(SpfFindings(spf))
  {
    var fs := SpfFindings(spf);
    assert spf.found && spf.issues != [] ==> fs[0].severity == SpfSeverity(spf.issues[0]);
    assert !spf.found ==> fs[0].severity == Fail;
  }

  /** A deduction for SPF comes with a complaint in the SPF part of the report. */
  lemma SpfDeductionIsReported(dns: Dns, domain: string)
    ensures SpfPenalty(SpfReportOf(dns, domain)) > 0 ==> Complains(SpfFindings(SpfReportOf(dns, domain)))
  {
    SpfDeductionHasIssue(dns, domain);
    SpfIssuesComplain(SpfReportOf(dns, domain));
  }

  lemma DmarcDeductionIsReported(dmarc: Option<DmarcTags>)
    ensures DmarcPenalty(dmarc) > 0 ==> Complains(DmarcFindings(dmarc))
  {
    var fs := DmarcFindings(dmarc);
    assert dmarc.Some? && DmarcIssues(dmarc.value) != [] ==>
      fs[0].severity == DmarcSeverity(DmarcIssues(dmarc.value)[0]);
    assert dmarc.None? ==> fs[0].severity == Fail;
  }

  lemma ListingIsReported(i: Inputs)
    ensures i.listings != [] ==> Has(BlocklistFindings(i), Fail)
  {
    assert i.listings != [] ==> BlocklistFindings(i)[0].severity == Fail;
  }

  /**
  Every deduction is reported: with the SPF report that mailCheckSPF makes, a
  report without fail and warn findings, which is when the all-good summary
  appears, has the full score and the top grade.
  */
  lemma AllGoodIsPerfect(dns: Dns, domain: string, i: Inputs)
    requires i.spf == SpfReportOf(dns, domain)
    requires FailTitles(AllFindings(i)) == [] && !Has(AllFindings(i), Warn)
    ensures ScoreOf(i) == 100 && GradeOf(ScoreOf(i)) == APlus
  {
    FailTitlesAre(AllFindings(i));
    HasInReport(i, Fail);
    HasInReport(i, Warn);
    SpfDeductionIsReported(dns, domain);
    DmarcDeductionIsReported(i.dmarc);
    ListingIsReported(i);
  }
}
