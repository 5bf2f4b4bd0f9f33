/** What the mail report and its score say about DNS, record by record and deduction by deduction. */
module MailVerdict {
  import opened Common
  import opened SpfText
  import opened SpfWalk
  import opened MailPosture

  // ----- the SPF report ---------------------------------------------------------------------

  /** The white space of the patterns: tab, newline, form feed, carriage return and space. */
  lemma ReSpacesAre(c: char)
    ensures IsReSpace(c) <==> c as int in {0x09, 0x0A, 0x0C, 0x0D, 0x20}
  {
  }

  /** The first SPF record of this name is these words with single spaces. */
  predicate RecordIs(dns: Dns, name: string, words: seq<string>) {
    words != [] && AreWords(words) && FindSpf(dns(name)) == Some(Joined(words))
  }

  /**
  The all mechanism of the report: the first one of the domain's record; failing
  that, when the record redirects, the first one of the record of the first
  redirect's target, and none when there is no such record.
  */
  lemma AllOfReport(dns: Dns, domain: string, words: seq<string>)
    requires RecordIs(dns, domain, words)
    ensures var r := SpfReportOf(dns, domain);
      && (FirstAll(words).Some? ==> r.all == FirstAll(words))
      && (r.redirects <==> FirstRedirect(words).Some?)
      && (FirstAll(words).None? && FirstRedirect(words).None? ==> r.all == None)
      && (FirstAll(words).None? && FirstRedirect(words).Some? ==>
            var to := ReplaceDomain(FirstRedirect(words).value, domain);
            && (FindSpf(dns(to)).None? ==> r.all == None)
            && forall others :: RecordIs(dns, to, others) ==> r.all == FirstAll(others))
  {
    FindInJoined(words);
    if FirstAll(words).None? && FirstRedirect(words).Some? {
      var to := ReplaceDomain(FirstRedirect(words).value, domain);
      forall others | RecordIs(dns, to, others)
        ensures SpfReportOf(dns, domain).all == FirstAll(others)
      {
        FindInJoined(others);
      }
    }
  }

  /** Of the TXT strings exactly those that pass the filter are kept, as often as they occur. */
  lemma {:induction false} KeptCounts<T>(keep: T -> bool, txts: seq<T>, t: T)
    ensures multiset(Kept(keep, txts))[t] == if keep(t) then multiset(txts)[t] else 0
    decreases |txts|
  {
    if txts == [] {
    } else {
      var init, last := txts[..|txts| - 1], txts[|txts| - 1];
      KeptCounts(keep, init, t);
      KeptLast(keep, txts);
      assert txts == init + [last];
    }
  }

  lemma {:induction false} WalkIssuesHave(issues: seq<SpfWalk.Issue>, i: SpfIssue)
    ensures i in WalkIssues(issues) <==> i.FromWalk? && i.issue in issues
  {
    if issues == [] {
    } else {
      WalkIssuesHave(issues[1..], i);
    }
  }

  /** What an issue means for a report on a record of this length whose walk met these issues. */
  predicate IsReported(r: SpfReport, bytes: nat, met: seq<SpfWalk.Issue>, i: SpfIssue) {
    match i
    case ManyRecords => r.records > 1
    case TooLong => bytes > 255
    case FromWalk(issue) => issue in met
    case OverLimit => r.lookups > 10
    case PlusAll => r.all == Some('+')
    case NeutralAll => r.all == Some('?')
    case NoAll => r.all == None && !r.redirects
  }

  lemma InFour<T>(a: seq<T>, b: seq<T>, c: seq<T>, d: seq<T>, x: T)
    ensures x in a + b + c + d <==> x in a || x in b || x in c || x in d
  {
  }

  lemma ReportHas(dns: Dns, domain: string, i: SpfIssue)
    requires FindSpf(dns(domain)).Some?
    ensures var r := SpfReportOf(dns, domain);
      i in r.issues
      <==> IsReported(r, ByteLength(FindSpf(dns(domain)).value), WalkFrom(NetOf(dns), domain).issues, i)
  {
    var r, w := SpfReportOf(dns, domain), WalkFrom(NetOf(dns), domain);
    var bytes := ByteLength(FindSpf(dns(domain)).value);
    InFour(RecordIssues(r.records, bytes), WalkIssues(w.issues),
      LimitIssues(r.lookups), AllIssues(r.all, r.redirects), i);
    WalkIssuesHave(w.issues, i);
    PartsHave(r.records, bytes, r.lookups, r.all, r.redirects, i);
  }

  lemma PartsHave(records: nat, bytes: nat, lookups: nat, all: Option<char>, redirects: bool, i: SpfIssue)
    ensures i in RecordIssues(records, bytes) <==> (i == ManyRecords && records > 1) || (i == TooLong && bytes > 255)
    ensures i in LimitIssues(lookups) <==> i == OverLimit && lookups > 10
    ensures i in AllIssues(all, redirects) <==>
      || (i == PlusAll && all == Some('+')) || (i == NeutralAll && all == Some('?'))
      || (i == NoAll && all == None && !redirects)
  {
  }

  /** A report that found a record: its counts, and each issue exactly when it applies. */
  lemma IssuesOfReport(dns: Dns, domain: string)
    requires FindSpf(dns(domain)).Some?
    ensures var r := SpfReportOf(dns, domain);
      r.found && r.lookups == WalkFrom(NetOf(dns), domain).n && r.records == |SpfRecords(dns(domain))|
    ensures var r, bytes := SpfReportOf(dns, domain), ByteLength(FindSpf(dns(domain)).value);
      Complete(r, bytes, WalkFrom(NetOf(dns), domain).issues)
  {
    var r, bytes := SpfReportOf(dns, domain), ByteLength(FindSpf(dns(domain)).value);
    forall i: SpfIssue
      ensures i in r.issues <==> IsReported(r, bytes, WalkFrom(NetOf(dns), domain).issues, i)
    {
      ReportHas(dns, domain, i);
    }
  }

  /** The report has exactly the issues that apply. */
  ghost predicate Complete(r: SpfReport, bytes: nat, met: seq<SpfWalk.Issue>) {
    forall i :: i in r.issues <==> IsReported(r, bytes, met, i)
  }

  // ----- the prices of the score --------------------------------------------------------------

  function Price(issue: bool, points: nat): nat {
    if issue then points else 0
  }

  function SpfPrices(issues: seq<SpfIssue>): nat {
    Price(PlusAll in issues, 25) + Price(NeutralAll in issues, 10) + Price(NoAll in issues, 10)
    + Price(OverLimit in issues, 15) + Price(ManyRecords in issues, 15)
  }

  /** The SPF deduction is the sum of what its issues cost. */
  lemma SpfIsPriced(dns: Dns, domain: string)
    ensures var r := SpfReportOf(dns, domain);
      && (!r.found ==> SpfPenalty(r) == 30)
      && (r.found ==> SpfPenalty(r) == SpfPrices(r.issues))
  {
    if FindSpf(dns(domain)).Some? {
      IssuesOfReport(dns, domain);
      PricesOf(SpfReportOf(dns, domain), ByteLength(FindSpf(dns(domain)).value), WalkFrom(NetOf(dns), domain).issues);
    }
  }

  lemma PricesOf(r: SpfReport, bytes: nat, met: seq<SpfWalk.Issue>)
    requires r.found && Complete(r, bytes, met)
    ensures SpfPenalty(r) == SpfPrices(r.issues)
  {
    assert IsReported(r, bytes, met, PlusAll) <==> PlusAll in r.issues;
    assert IsReported(r, bytes, met, NeutralAll) <==> NeutralAll in r.issues;
    assert IsReported(r, bytes, met, NoAll) <==> NoAll in r.issues;
    assert IsReported(r, bytes, met, OverLimit) <==> OverLimit in r.issues;
    assert IsReported(r, bytes, met, ManyRecords) <==> ManyRecords in r.issues;
  }

  lemma InFive<T>(a: seq<T>, b: seq<T>, c: seq<T>, d: seq<T>, e: seq<T>, x: T)
    ensures x in a + b + c + d + e <==> x in a || x in b || x in c || x in d || x in e
  {
  }

  /** What an issue of a DMARC record means. */
  predicate IsDmarcIssue(t: DmarcTags, i: DmarcIssue) {
    match i
    case ManyDmarcRecords => t.records > 1
    case MissingPolicy => t.policy == NoPolicy
    case PolicyNone => t.policy == NonePolicy
    case PolicyQuarantine => t.policy == Quarantine
    case PartialPct => t.pct < 100
    case NoRua => t.rua == 0
    case SubdomainNone => t.subdomainPolicy == NonePolicy && t.policy != NonePolicy
  }

  /** Each issue is reported exactly when it applies. */
  lemma IssuesOfDmarc(t: DmarcTags, i: DmarcIssue)
    ensures i in DmarcIssues(t) <==> IsDmarcIssue(t, i)
  {
    var a := if t.records > 1 then [ManyDmarcRecords] else [];
    var b := match t.policy
      case NoPolicy => [MissingPolicy]
      case NonePolicy => [PolicyNone]
      case Quarantine => [PolicyQuarantine]
      case _ => [];
    var c := if t.pct < 100 then [PartialPct] else [];
    var d := if t.rua == 0 then [NoRua] else [];
    var e := if t.subdomainPolicy == NonePolicy && t.policy != NonePolicy then [SubdomainNone] else [];
    assert DmarcIssues(t) == a + b + c + d + e;
    InFive(a, b, c, d, e, i);
  }

  lemma DmarcIsPriced(t: DmarcTags)
    ensures var issues := DmarcIssues(t);
      DmarcPenalty(Some(t)) ==
        Price(MissingPolicy in issues, 25) + Price(PolicyNone in issues, 15) + Price(PolicyQuarantine in issues, 5)
        + Price(NoRua in issues, 5) + Price(PartialPct in issues, 5)
    ensures DmarcPenalty(None) == 30
  {
    IssuesOfDmarc(t, MissingPolicy);
    IssuesOfDmarc(t, PolicyNone);
    IssuesOfDmarc(t, PolicyQuarantine);
    IssuesOfDmarc(t, NoRua);
    IssuesOfDmarc(t, PartialPct);
  }

  /** The score is 100 less the three deductions, and not below 0; listings cost 20 each, 40 at most. */
  lemma ScoreIsPriced(i: Inputs)
    ensures var n := |i.listings|;
      var cost := SpfPenalty(i.spf) + DmarcPenalty(i.dmarc) + if n == 0 then 0 else if n == 1 then 20 else 40;
      ScoreOf(i) == if cost <= 100 then 100 - cost else 0
  {
  }

  /** A grade is reached from its cut-off on. */
  lemma GradeCutOffs(score: int)
    ensures var rank := GradeRank(GradeOf(score));
      && (rank >= GradeRank(APlus) <==> score >= 95)
      && (rank >= GradeRank(A) <==> score >= 85)
      && (rank >= GradeRank(B) <==> score >= 70)
      && (rank >= GradeRank(C) <==> score >= 55)
      && (rank >= GradeRank(D) <==> score >= 40)
  {
  }

  // ----- the findings --------------------------------------------------------------------------

  predicate HasSpf(spf: SpfReport, severity: Severity) {
    exists k :: 0 <= k < |spf.issues| && SpfSeverity(spf.issues[k]) == severity
  }

  predicate HasDmarc(issues: seq<DmarcIssue>, severity: Severity) {
    exists k :: 0 <= k < |issues| && DmarcSeverity(issues[k]) == severity
  }

  /** When a finding of this title and severity is due. */
  predicate IsDue(i: Inputs, f: Finding) {
    var receives := i.mxRows > 0 && !i.nullMx;
    match f.title
    case NullMxPublished => f.severity == Info && i.nullMx
    case NoMxRecords => f.severity == Warn && !i.nullMx && i.mxRows == 0
    case MxRecords => f.severity == Pass && receives
    case NoSpfRecord => f.severity == Fail && !i.spf.found
    case SpfTitle => i.spf.found && if i.spf.issues == [] then f.severity == Pass else HasSpf(i.spf, f.severity)
    case NoDmarcRecord => f.severity == Fail && i.dmarc.None?
    case DmarcTitle =>
      i.dmarc.Some? &&
      var issues := DmarcIssues(i.dmarc.value);
      if issues == [] then f.severity == Pass else HasDmarc(issues, f.severity)
    case DkimTitle => if i.dkimKeys > 0 then f.severity == Pass else f.severity == Info && (i.dkimWildcard || receives)
    case MtaSts => f.severity == Pass && receives && i.mtaSts
    case NoMtaSts => f.severity == Info && receives && !i.mtaSts
    case TlsRpt => f.severity == Pass && receives && i.tlsRpt
    case NoTlsRpt => f.severity == Info && receives && !i.tlsRpt
    case ListedOn(list) => f.severity == Fail && list in i.listings
    case Blocklists => f.severity == Pass && i.listings == [] && i.ips > 0
    case SomeDidNotAnswer => f.severity == Info && i.blocklistErrors > 0
    case PolicyBelowRequired =>
      f.severity == Fail && !Meets(if i.dmarc.Some? then i.dmarc.value.policy else NoPolicy, i.requiredPolicy)
  }

  lemma SpfFindingsHave(spf: SpfReport, f: Finding)
    ensures f in SpfFindings(spf) <==>
      || (f == Finding(Fail, NoSpfRecord) && !spf.found)
      || (f.title == SpfTitle && spf.found && if spf.issues == [] then f.severity == Pass else HasSpf(spf, f.severity))
  {
    var fs := SpfIssueFindings(spf.issues);
    assert forall k :: 0 <= k < |fs| ==> fs[k] == Finding(SpfSeverity(spf.issues[k]), SpfTitle);
    if HasSpf(spf, f.severity) {
      var k :| 0 <= k < |spf.issues| && SpfSeverity(spf.issues[k]) == f.severity;
      assert fs[k] in fs;
    }
  }

  lemma DmarcFindingsHave(dmarc: Option<DmarcTags>, f: Finding)
    ensures f in DmarcFindings(dmarc) <==>
      || (f == Finding(Fail, NoDmarcRecord) && dmarc.None?)
      || (f.title == DmarcTitle && dmarc.Some? &&
          var issues := DmarcIssues(dmarc.value);
          if issues == [] then f.severity == Pass else HasDmarc(issues, f.severity))
  {
    if dmarc.Some? {
      IssueFindingsHave(DmarcIssues(dmarc.value), f);
    }
  }

  lemma IssueFindingsHave(issues: seq<DmarcIssue>, f: Finding)
    ensures f in DmarcIssueFindings(issues) <==> f.title == DmarcTitle && HasDmarc(issues, f.severity)
  {
    var fs := DmarcIssueFindings(issues);
    assert forall k :: 0 <= k < |fs| ==> fs[k] == Finding(DmarcSeverity(issues[k]), DmarcTitle);
    if f.title == DmarcTitle && HasDmarc(issues, f.severity) {
      var k :| 0 <= k < |issues| && DmarcSeverity(issues[k]) == f.severity;
      assert fs[k] in fs;
    }
  }

  lemma ListingFindingsHave(i: Inputs, f: Finding)
    ensures f in BlocklistFindings(i) <==>
      || (f.title.ListedOn? && f.severity == Fail && f.title.list in i.listings)
      || (f == Finding(Pass, Blocklists) && i.listings == [] && i.ips > 0)
  {
    var fs := ListingFindings(i.listings);
    assert forall k :: 0 <= k < |fs| ==> fs[k] == Finding(Fail, ListedOn(i.listings[k]));
    if f.title.ListedOn? && f.severity == Fail && f.title.list in i.listings {
      var k :| 0 <= k < |i.listings| && i.listings[k] == f.title.list;
      assert fs[k] in fs;
    }
  }

  lemma PlainFindingsHave(i: Inputs, f: Finding)
    ensures f in MxFindings(i) <==>
      (f.title.NullMxPublished? || f.title.NoMxRecords? || f.title.MxRecords?) && IsDue(i, f)
    ensures f in DkimFindings(i) <==> f.title.DkimTitle? && IsDue(i, f)
    ensures f in TransportFindings(i) <==>
      (f.title.MtaSts? || f.title.NoMtaSts? || f.title.TlsRpt? || f.title.NoTlsRpt?) && IsDue(i, f)
    ensures f in ErrorFindings(i) <==> f.title.SomeDidNotAnswer? && IsDue(i, f)
    ensures f in PolicyFindings(i) <==> f.title.PolicyBelowRequired? && IsDue(i, f)
  {
  }

  /** Every finding of the report is due, and every one that is due is in it. */
  lemma FindingsAreDue(i: Inputs, f: Finding)
    ensures f in AllFindings(i) <==> IsDue(i, f)
  {
    SpfFindingsHave(i.spf, f);
    DmarcFindingsHave(i.dmarc, f);
    ListingFindingsHave(i, f);
    PlainFindingsHave(i, f);
    var front := MxFindings(i) + SpfFindings(i.spf) + DmarcFindings(i.dmarc) + DkimFindings(i);
    InFour(MxFindings(i), SpfFindings(i.spf), DmarcFindings(i.dmarc), DkimFindings(i), f);
    InFive(front, TransportFindings(i), BlocklistFindings(i), ErrorFindings(i), PolicyFindings(i), f);
  }

  // ----- severities, read off the texts ---------------------------------------------------------

  /** strings.Contains. */
  predicate Contains(text: string, part: string) {
    exists k :: 0 <= k <= |text| && ContainsAt(text, part, k)
  }

  predicate ContainsAt(text: string, part: string, k: int) {
    0 <= k && k + |part| <= |text| && text[k..k + |part|] == part
  }

  /** The text of an SPF issue; `count` stands for the digits it is formatted with. */
  function SpfIssueText(i: SpfIssue, count: string): string {
    match i
    case ManyRecords =>
      count + " SPF records published - receivers treat this as a permanent error (" + "PermError"
      + ") and ignore SPF entirely."
    case TooLong =>
      "Record is longer " + "than 255 " + "characters; make " + "sure it is split " + "into multiple "
      + "strings in the TXT " + "record."
    case FromWalk(NoRecordAt(target)) =>
      "include:" + target + " has " + "no SPF record" + " (counts as a lookup, and the include fails)."
    case FromWalk(PtrDeprecated) =>
      "ptr mechanism is " + "deprecated (RFC " + "7208) and slow; " + "replace it with "
      + "ip4/ip6 or include."
    case OverLimit =>
      count + " DNS lookups, over the limit of 10. Receivers return " + "PermError"
      + " and ignore the record. Flatten includes or drop unused senders."
    case PlusAll => "+all" + " lets anyone send as this domain. Use -all or ~all."
    case NeutralAll =>
      "?all is neutral " + "and gives " + "receivers nothing " + "to act on. Use " + "-all or ~all."
    case NoAll =>
      "No \"all\" mechanism " + "- the record never " + "reaches a verdict " + "for unlisted "
      + "senders. End it " + "with -all or ~all."
  }

  lemma MiddleIsContained(a: string, part: string, b: string)
    ensures Contains(a + part + b, part)
  {
    var text := a + part + b;
    assert text[|a|..|a| + |part|] == part;
    assert ContainsAt(text, part, |a|);
  }

  /** The character of a text where the part's character at `at` would be. */
  lemma CharOf(text: string, part: string, k: int, at: nat)
    requires ContainsAt(text, part, k) && at < |part|
    ensures text[k + at] == part[at]
  {
    assert text[k..k + |part|][at] == text[k + at];
  }

  /** A text that lacks a character of a part does not contain the part. */
  lemma NotContained(text: string, part: string, at: nat)
    requires at < |part| && part[at] !in text
    ensures !Contains(text, part)
  {
    if k :| 0 <= k <= |text| && ContainsAt(text, part, k) {
      CharOf(text, part, k, at);
    }
  }

  predicate FailsBySpfText(text: string) {
    Contains(text, "PermError") || Contains(text, "+all") || Contains(text, "no SPF record")
  }

  /** None of the characters that each part has one of. */
  predicate Plain(text: string) {
    forall k :: 0 <= k < |text| ==> text[k] != 'P' && text[k] != '+' && text[k] != 'S'
  }

  lemma PlainTogether(a: string, b: string)
    requires Plain(a) && Plain(b)
    ensures Plain(a + b)
  {
  }

  lemma PlainSpfText(text: string)
    requires Plain(text)
    ensures !FailsBySpfText(text)
  {
    NotContained(text, "PermError", 0);
    NotContained(text, "+all", 0);
    NotContained(text, "no SPF record", 3);
  }

  lemma FailingSpfTexts(count: string, target: string)
    ensures FailsBySpfText(SpfIssueText(ManyRecords, count)) && FailsBySpfText(SpfIssueText(OverLimit, count))
    ensures FailsBySpfText(SpfIssueText(FromWalk(NoRecordAt(target)), count))
  {
    MiddleIsContained(count + " SPF records published - receivers treat this as a permanent error (", "PermError",
      ") and ignore SPF entirely.");
    MiddleIsContained("include:" + target + " has ", "no SPF record", " (counts as a lookup, and the include fails).");
    MiddleIsContained(count + " DNS lookups, over the limit of 10. Receivers return ", "PermError",
      " and ignore the record. Flatten includes or drop unused senders.");
  }

  lemma PlusAllTextFails(count: string)
    ensures FailsBySpfText(SpfIssueText(PlusAll, count))
  {
    MiddleIsContained("", "+all", " lets anyone send as this domain. Use -all or ~all.");
    assert "" + "+all" == "+all";
  }

  lemma TooLongTextIsPlain(count: string)
    ensures !FailsBySpfText(SpfIssueText(TooLong, count))
  {
    var a, b, c := "Record is longer ", "than 255 ", "characters; make ";
    var d, e, f := "sure it is split ", "into multiple ", "strings in the TXT ";
    var g := "record.";
    PlainTogether(a, b);
    PlainTogether(a + b, c);
    PlainTogether(a + b + c, d);
    PlainTogether(a + b + c + d, e);
    PlainTogether(a + b + c + d + e, f);
    PlainTogether(a + b + c + d + e + f, g);
    PlainSpfText(a + b + c + d + e + f + g);
  }

  lemma PtrTextIsPlain(count: string)
    ensures !FailsBySpfText(SpfIssueText(FromWalk(PtrDeprecated), count))
  {
    var a, b, c := "ptr mechanism is ", "deprecated (RFC ", "7208) and slow; ";
    var d, e := "replace it with ", "ip4/ip6 or include.";
    PlainTogether(a, b);
    PlainTogether(a + b, c);
    PlainTogether(a + b + c, d);
    PlainTogether(a + b + c + d, e);
    PlainSpfText(a + b + c + d + e);
  }

  lemma NeutralTextIsPlain(count: string)
    ensures !FailsBySpfText(SpfIssueText(NeutralAll, count))
  {
    var a, b, c := "?all is neutral ", "and gives ", "receivers nothing ";
    var d, e := "to act on. Use ", "-all or ~all.";
    PlainTogether(a, b);
    PlainTogether(a + b, c);
    PlainTogether(a + b + c, d);
    PlainTogether(a + b + c + d, e);
    PlainSpfText(a + b + c + d + e);
  }

  lemma NoAllTextIsPlain(count: string)
    ensures !FailsBySpfText(SpfIssueText(NoAll, count))
  {
    var a, b, c := "No \"all\" mechanism ", "- the record never ", "reaches a verdict ";
    var d, e, f := "for unlisted ", "senders. End it ", "with -all or ~all.";
    PlainTogether(a, b);
    PlainTogether(a + b, c);
    PlainTogether(a + b + c, d);
    PlainTogether(a + b + c + d, e);
    PlainTogether(a + b + c + d + e, f);
    PlainSpfText(a + b + c + d + e + f);
  }

  /** The severity of an SPF issue is what the words of its text decide. */
  lemma SpfSeverityIsOfTheText(i: SpfIssue, count: string)
    ensures SpfSeverity(i) == if FailsBySpfText(SpfIssueText(i, count)) then Fail else Warn
  {
    match i
    case ManyRecords | OverLimit => FailingSpfTexts(count, "");
    case FromWalk(NoRecordAt(target)) => FailingSpfTexts(count, target);
    case FromWalk(PtrDeprecated) => PtrTextIsPlain(count);
    case PlusAll => PlusAllTextFails(count);
    case TooLong => TooLongTextIsPlain(count);
    case NeutralAll => NeutralTextIsPlain(count);
    case NoAll => NoAllTextIsPlain(count);
  }

  /** The text of a DMARC issue; `count` stands for the digits it is formatted with. */
  function DmarcIssueText(i: DmarcIssue, count: string): string {
    match i
    case ManyDmarcRecords => count + " DMARC records published - receivers " + "ignore all" + " of them. Keep one."
    case MissingPolicy => "Missing required" + " p= tag; receivers treat the record as invalid."
    case PolicyNone =>
      "p=none only " + "reports; spoofed " + "mail is still " + "delivered. Move to " + "p=quarantine, then "
      + "p=reject, once " + "reports look clean."
    case PolicyQuarantine =>
      "p=quarantine sends " + "spoofed mail to " + "spam rather than " + "rejecting it. " + "p=reject is the "
      + "end state."
    case PartialPct => "pct=" + count + ": the policy applies to only " + count + "% of failing mail."
    case NoRua =>
      "No rua= address - " + "you receive no " + "aggregate reports " + "and cannot see who "
      + "is sending as this " + "domain."
    case SubdomainNone =>
      "sp=none leaves " + "every subdomain " + "open to spoofing " + "even though the " + "apex is protected."
  }

  predicate FailsByDmarcText(text: string) {
    Contains(text, "Missing required") || Contains(text, "ignore all")
  }

  predicate IsCount(s: string) {
    forall c :: c in s ==> c == '-' || '0' <= c <= '9'
  }

  /** No 'M', and no 'g' behind an 'i'. */
  predicate PlainText(text: string) {
    forall k :: 0 <= k < |text| ==> text[k] != 'M' && (k > 0 && text[k] == 'g' ==> text[k - 1] != 'i')
  }

  lemma PlainDmarcText(text: string)
    requires PlainText(text)
    ensures !FailsByDmarcText(text)
  {
    NotContained(text, "Missing required", 0);
    if k :| 0 <= k <= |text| && ContainsAt(text, "ignore all", k) {
      CharOf(text, "ignore all", k, 0);
      CharOf(text, "ignore all", k, 1);
    }
  }

  /** Put together from pieces that do not begin with a 'g'. */
  lemma PlainConcat(a: string, b: string)
    requires PlainText(a) && PlainText(b) && (b != "" ==> b[0] != 'g')
    ensures PlainText(a + b)
  {
  }

  lemma CountIsPlain(count: string)
    requires IsCount(count)
    ensures PlainText(count) && (count != "" ==> count[0] != 'g')
  {
    assert forall k :: 0 <= k < |count| ==> count[k] in count;
  }

  lemma PctTextIsPlain(count: string)
    requires IsCount(count)
    ensures PlainText("pct=" + count + ": the policy applies to only " + count + "% of failing mail.")
  {
    CountIsPlain(count);
    PlainConcat("pct=", count);
    PlainConcat("pct=" + count, ": the policy applies to only ");
    PlainConcat("pct=" + count + ": the policy applies to only ", count);
    PlainConcat("pct=" + count + ": the policy applies to only " + count, "% of failing mail.");
  }

  lemma LacksG(a: string, b: string)
    requires 'g' !in a && 'g' !in b
    ensures 'g' !in a + b
  {
  }

  /** Neither part fits into a text without 'g'. */
  lemma NoG(text: string)
    requires 'g' !in text
    ensures !FailsByDmarcText(text)
  {
    NotContained(text, "Missing required", 6);
    NotContained(text, "ignore all", 1);
  }

  lemma NoneTextIsPlain(count: string)
    ensures !FailsByDmarcText(DmarcIssueText(PolicyNone, count))
  {
    var a, b, c := "p=none only ", "reports; spoofed ", "mail is still ";
    var d, e, f := "delivered. Move to ", "p=quarantine, then ", "p=reject, once ";
    var g := "reports look clean.";
    LacksG(a, b);
    LacksG(a + b, c);
    LacksG(a + b + c, d);
    LacksG(a + b + c + d, e);
    LacksG(a + b + c + d + e, f);
    LacksG(a + b + c + d + e + f, g);
    NoG(a + b + c + d + e + f + g);
  }

  lemma QuarantineTextIsPlain(count: string)
    ensures !FailsByDmarcText(DmarcIssueText(PolicyQuarantine, count))
  {
    var a, b, c := "p=quarantine sends ", "spoofed mail to ", "spam rather than ";
    var d, e, f := "rejecting it. ", "p=reject is the ", "end state.";
    PlainConcat(a, b);
    PlainConcat(a + b, c);
    PlainConcat(a + b + c, d);
    PlainConcat(a + b + c + d, e);
    PlainConcat(a + b + c + d + e, f);
    PlainDmarcText(a + b + c + d + e + f);
  }

  lemma NoRuaTextIsPlain(count: string)
    ensures !FailsByDmarcText(DmarcIssueText(NoRua, count))
  {
    var a, b, c := "No rua= address - ", "you receive no ", "aggregate reports ";
    var d, e, f := "and cannot see who ", "is sending as this ", "domain.";
    PlainConcat(a, b);
    PlainConcat(a + b, c);
    PlainConcat(a + b + c, d);
    PlainConcat(a + b + c + d, e);
    PlainConcat(a + b + c + d + e, f);
    PlainDmarcText(a + b + c + d + e + f);
  }

  lemma SubdomainTextIsPlain(count: string)
    ensures !FailsByDmarcText(DmarcIssueText(SubdomainNone, count))
  {
    var a, b, c := "sp=none leaves ", "every subdomain ", "open to spoofing ";
    var d, e := "even though the ", "apex is protected.";
    PlainConcat(a, b);
    PlainConcat(a + b, c);
    PlainConcat(a + b + c, d);
    PlainConcat(a + b + c + d, e);
    PlainDmarcText(a + b + c + d + e);
  }

  lemma FailingDmarcTexts(count: string)
    ensures FailsByDmarcText(DmarcIssueText(ManyDmarcRecords, count))
    ensures FailsByDmarcText(DmarcIssueText(MissingPolicy, count))
  {
    MiddleIsContained(count + " DMARC records published - receivers ", "ignore all", " of them. Keep one.");
    MiddleIsContained("", "Missing required", " p= tag; receivers treat the record as invalid.");
    assert "" + "Missing required" == "Missing required";
  }

  /** The severity of a DMARC issue is what the words of its text decide. */
  lemma DmarcSeverityIsOfTheText(i: DmarcIssue, count: string)
    requires IsCount(count)
    ensures DmarcSeverity(i) == if FailsByDmarcText(DmarcIssueText(i, count)) then Fail else Warn
  {
    match i
    case ManyDmarcRecords | MissingPolicy => FailingDmarcTexts(count);
    case PolicyNone => NoneTextIsPlain(count);
    case PolicyQuarantine => QuarantineTextIsPlain(count);
    case PartialPct =>
      PctTextIsPlain(count);
      PlainDmarcText(DmarcIssueText(i, count));
    case NoRua => NoRuaTextIsPlain(count);
    case SubdomainNone => SubdomainTextIsPlain(count);
  }
}
