/** What a word of an SPF record is, read off its text, and what a record of words costs. */
module SpfTerms {
  import opened Common
  import opened SpfText
  import opened SpfWalk

  // ----- the pieces of a word ------------------------------------------------------------

  predicate IsQualifier(c: char) {
    c == '+' || c == '-' || c == '~' || c == '?'
  }

  predicate AllQualifiers(s: string) {
    forall k :: 0 <= k < |s| ==> IsQualifier(s[k])
  }

  /** The four mechanisms that cost a lookup. */
  predicate IsMechanism(s: string) {
    s == "a" || s == "mx" || s == "ptr" || s == "exists"
  }

  /** What may follow a mechanism's name. */
  predicate Closes(rest: string) {
    rest == "" || rest[0] == ':' || rest[0] == '/'
  }

  /** w is qualifiers up to i, a mechanism's name in any case up to j, and then its end or its argument. */
  predicate LookupAt(w: string, i: nat, j: nat) {
    i <= j <= |w| && AllQualifiers(w[..i]) && IsMechanism(Lower(w[i..j])) && Closes(w[j..])
  }

  /** w is qualifiers up to i, include or redirect in any case up to j, ':' or '=', and a target. */
  predicate TargetAt(w: string, i: nat, j: nat) {
    && i <= j && j + 1 < |w| && AllQualifiers(w[..i])
    && (Lower(w[i..j]) == "include" || Lower(w[i..j]) == "redirect") && (w[j] == ':' || w[j] == '=')
  }

  /** w is qualifiers up to i and then ptr, alone or with ':'. */
  predicate PtrAt(w: string, i: nat) {
    i <= |w| && AllQualifiers(w[..i]) && (Lower(w[i..]) == "ptr" || (i + 4 <= |w| && Lower(w[i..i + 4]) == "ptr:"))
  }

  ghost predicate CostsLookup(w: string) {
    exists i: nat, j: nat :: LookupAt(w, i, j)
  }

  ghost predicate NamesTarget(w: string) {
    exists i: nat, j: nat :: TargetAt(w, i, j)
  }

  ghost predicate IsPtrWord(w: string) {
    exists i: nat :: PtrAt(w, i)
  }

  // ----- a lower-cased term ------------------------------------------------------------------

  lemma IsWordIff(t: string, word: string)
    ensures IsWord(t, word) <==> |word| <= |t| && t[..|word|] == word && Closes(t[|word|..])
  {
  }

  lemma LookupIff(t: string)
    ensures IsLookup(t) <==> exists k: nat :: k <= |t| && IsMechanism(t[..k]) && Closes(t[k..])
  {
    IsWordIff(t, "a");
    IsWordIff(t, "mx");
    IsWordIff(t, "ptr");
    IsWordIff(t, "exists");
    if k: nat :| k <= |t| && IsMechanism(t[..k]) && Closes(t[k..]) {
      assert |t[..k]| == k;
    }
  }

  lemma IncludeIff(t: string, x: string)
    ensures IncludeTarget(t) == Some(x) <==>
      x != "" && exists k: nat :: k < |t| && (t[..k] == "include" || t[..k] == "redirect")
                                  && (t[k] == ':' || t[k] == '=') && t[k + 1..] == x
  {
    var word := if HasPrefix(t, "include") then 7 else 8;
    assert HasPrefix(t, "include") <==> |t| >= 7 && t[..7] == "include";
    assert HasPrefix(t, "redirect") <==> |t| >= 8 && t[..8] == "redirect";
    assert HasPrefix(t, "include") ==> t[0] == 'i';
    if IncludeTarget(t) == Some(x) {
      assert word < |t| && (t[..word] == "include" || t[..word] == "redirect") && t[word + 1..] == x;
    }
    if k: nat :| k < |t| && (t[..k] == "include" || t[..k] == "redirect") && (t[k] == ':' || t[k] == '=')
                 && t[k + 1..] == x
    {
      assert |t[..k]| == k && (t[..k] == "redirect" ==> t[0] == t[..k][0] == 'r');
    }
  }

  // ----- qualifiers and case -------------------------------------------------------------------

  /** Where the qualifiers in front of a word end. */
  function Lead(w: string): (k: nat)
    ensures k <= |w| && AllQualifiers(w[..k]) && (k < |w| ==> !IsQualifier(w[k]))
  {
    if w != "" && IsQualifier(w[0]) then 1 + Lead(w[1..]) else 0
  }

  lemma {:induction false} TrimIsLead(w: string)
    ensures TrimQualifiers(w) == w[Lead(w)..]
  {
    if w == "" || !IsQualifier(w[0]) {
    } else {
      TrimIsLead(w[1..]);
      assert w[1..][Lead(w[1..])..] == w[Lead(w)..];
    }
  }

  lemma LeadIs(w: string, i: nat)
    requires i < |w| && AllQualifiers(w[..i]) && !IsQualifier(w[i])
    ensures i == Lead(w)
  {
    assert forall k :: 0 <= k < i ==> w[..i][k] == w[k];
    assert forall k :: 0 <= k < Lead(w) ==> w[..Lead(w)][k] == w[k];
  }

  /** Lower-casing and cutting commute. */
  lemma LowerCut(s: string, k: nat)
    requires k <= |s|
    ensures Lower(s)[..k] == Lower(s[..k]) && Lower(s)[k..] == Lower(s[k..])
  {
  }

  /** Letter case does not touch the characters that end a name. */
  lemma LowerMarks(c: char)
    ensures LowerChar(c) == ':' <==> c == ':'
    ensures LowerChar(c) == '/' <==> c == '/'
    ensures LowerChar(c) == '=' <==> c == '='
    ensures IsQualifier(LowerChar(c)) <==> IsQualifier(c)
  {
  }

  lemma LowerCloses(s: string)
    ensures Closes(Lower(s)) <==> Closes(s)
  {
    if s != "" {
      LowerMarks(s[0]);
    }
  }

  lemma StartsWithLetter(s: string)
    requires IsMechanism(Lower(s)) || Lower(s) == "include" || Lower(s) == "redirect" || Lower(s) == "ptr:"
    ensures s != "" && !IsQualifier(s[0])
  {
    assert |s| == |Lower(s)| && Lower(s)[0] == LowerChar(s[0]);
    LowerMarks(s[0]);
  }

  // ----- a word ----------------------------------------------------------------------------------

  lemma LookupAtLead(w: string, i: nat, j: nat)
    requires LookupAt(w, i, j)
    ensures i == Lead(w)
  {
    StartsWithLetter(w[i..j]);
    LeadIs(w, i);
  }

  /** The lower-cased term, and its pieces before and from position k. */
  lemma PiecesOf(w: string, k: nat)
    requires k <= |w| - Lead(w)
    ensures var i, t := Lead(w), Lower(TrimQualifiers(w));
      |t| == |w| - i && t[..k] == Lower(w[i..i + k]) && t[k..] == Lower(w[i + k..])
  {
    var i := Lead(w);
    TrimIsLead(w);
    LowerCut(w[i..], k);
    assert w[i..][..k] == w[i..i + k] && w[i..][k..] == w[i + k..];
  }

  lemma LookupInWord(w: string, k: nat)
    requires k <= |w| - Lead(w)
    ensures var i, t := Lead(w), Lower(TrimQualifiers(w));
      |t| == |w| - i && (IsMechanism(t[..k]) && Closes(t[k..]) <==> LookupAt(w, i, i + k))
  {
    PiecesOf(w, k);
    LowerCloses(w[Lead(w) + k..]);
  }

  lemma LookupIsAhead(w: string)
    requires IsLookup(Lower(TrimQualifiers(w)))
    ensures CostsLookup(w)
  {
    var t := Lower(TrimQualifiers(w));
    PiecesOf(w, 0);
    LookupIff(t);
    var k: nat :| k <= |t| && IsMechanism(t[..k]) && Closes(t[k..]);
    LookupInWord(w, k);
  }

  lemma LookupIsFound(w: string, i: nat, j: nat)
    requires LookupAt(w, i, j)
    ensures IsLookup(Lower(TrimQualifiers(w)))
  {
    LookupAtLead(w, i, j);
    LookupInWord(w, j - i);
    LookupIff(Lower(TrimQualifiers(w)));
  }

  lemma WordLookups(w: string)
    ensures IsLookup(Lower(TrimQualifiers(w))) <==> CostsLookup(w)
  {
    if IsLookup(Lower(TrimQualifiers(w))) {
      LookupIsAhead(w);
    }
    if i: nat, j: nat :| LookupAt(w, i, j) {
      LookupIsFound(w, i, j);
    }
  }

  lemma TargetAtLead(w: string, i: nat, j: nat)
    requires TargetAt(w, i, j)
    ensures i == Lead(w)
  {
    StartsWithLetter(w[i..j]);
    LeadIs(w, i);
  }

  predicate TargetFrom(t: string, k: nat) {
    k + 1 < |t| && (t[..k] == "include" || t[..k] == "redirect") && (t[k] == ':' || t[k] == '=')
  }

  lemma TargetInWord(w: string, k: nat)
    requires k < |w| - Lead(w)
    ensures var i, t := Lead(w), Lower(TrimQualifiers(w));
      |t| == |w| - i && (TargetFrom(t, k) <==> TargetAt(w, i, i + k)) && t[k + 1..] == Lower(w[i + k + 1..])
  {
    var i, t := Lead(w), Lower(TrimQualifiers(w));
    PiecesOf(w, k);
    PiecesOf(w, k + 1);
    assert t[k] == t[k..][0] && Lower(w[i + k..])[0] == LowerChar(w[i + k]);
    LowerMarks(w[i + k]);
  }

  lemma TargetIsAhead(w: string)
    requires IncludeTarget(Lower(TrimQualifiers(w))).Some?
    ensures NamesTarget(w)
  {
    var t := Lower(TrimQualifiers(w));
    PiecesOf(w, 0);
    IncludeIff(t, IncludeTarget(t).value);
    var k: nat :| k < |t| && (t[..k] == "include" || t[..k] == "redirect") && (t[k] == ':' || t[k] == '=')
                  && t[k + 1..] == IncludeTarget(t).value;
    TargetInWord(w, k);
  }

  lemma TargetIsFound(w: string, i: nat, j: nat)
    requires TargetAt(w, i, j)
    ensures IncludeTarget(Lower(TrimQualifiers(w))) == Some(Lower(w[j + 1..]))
  {
    TargetAtLead(w, i, j);
    TargetInWord(w, j - i);
    IncludeIff(Lower(TrimQualifiers(w)), Lower(w[j + 1..]));
  }

  /** A word names a target, and then which one, by where its name and its mark stand. */
  lemma WordTarget(w: string)
    ensures IncludeTarget(Lower(TrimQualifiers(w))).Some? <==> NamesTarget(w)
    ensures forall i: nat, j: nat :: TargetAt(w, i, j) ==>
      IncludeTarget(Lower(TrimQualifiers(w))) == Some(Lower(w[j + 1..]))
  {
    forall i: nat, j: nat | TargetAt(w, i, j)
      ensures IncludeTarget(Lower(TrimQualifiers(w))) == Some(Lower(w[j + 1..]))
    {
      TargetIsFound(w, i, j);
    }
    if IncludeTarget(Lower(TrimQualifiers(w))).Some? {
      TargetIsAhead(w);
    }
  }

  lemma WordPtr(w: string)
    ensures IsPtr(Lower(TrimQualifiers(w))) <==> IsPtrWord(w)
  {
    var i, t := Lead(w), Lower(TrimQualifiers(w));
    PiecesOf(w, 0);
    assert t[0..] == t;
    if i + 4 <= |w| {
      PiecesOf(w, 4);
    }
    assert IsPtr(t) <==> PtrAt(w, i);
    if k: nat :| PtrAt(w, k) {
      StartsWithLetter(if Lower(w[k..]) == "ptr" then w[k..] else w[k..k + 4]);
      LeadIs(w, k);
    }
  }

  /**
  What a word of a record is, from its text: one lookup for each of the four
  mechanisms, alone or with an argument, in any case and behind any qualifiers;
  a target for include and redirect with ':' or '=', which is the lower-cased
  rest with the domain in place of its macro; and ptr.
  */
  lemma TermOfWord(w: string, name: string)
    ensures var term := ParseTerm(w, name);
      && term.lookups == (if CostsLookup(w) then 1 else 0)
      && (term.target.Some? <==> NamesTarget(w))
      && (forall i: nat, j: nat :: TargetAt(w, i, j) ==> term.target == Some(ReplaceDomain(Lower(w[j + 1..]), name)))
      && (term.ptr <==> IsPtrWord(w))
  {
    WordLookups(w);
    WordTarget(w);
    WordPtr(w);
  }

  // ----- the domain macro --------------------------------------------------------------------------

  predicate MacroAt(s: string, k: nat) {
    k + 4 <= |s| && s[k] == '%' && s[k + 1] == '{' && s[k + 2] == 'd' && s[k + 3] == '}'
  }

  predicate MacroFree(s: string) {
    forall k :: 0 <= k < |s| ==> !MacroAt(s, k)
  }

  lemma PrefixIsMacro(s: string)
    ensures HasPrefix(s, "%{d}") <==> MacroAt(s, 0)
  {
    if |s| >= 4 {
      assert s[..4] == [s[0], s[1], s[2], s[3]];
    }
  }

  lemma TailIsMacroFree(a: string)
    requires a != "" && MacroFree(a)
    ensures MacroFree(a[1..]) && !MacroAt(a, 0)
  {
    forall k | 0 <= k < |a[1..]|
      ensures !MacroAt(a[1..], k)
    {
      assert !MacroAt(a, k + 1);
    }
  }

  /** A macro behind a text does not begin inside it. */
  lemma NoMacroAhead(a: string, rest: string)
    requires a != "" && !MacroAt(a, 0)
    ensures !MacroAt(a + "%{d}" + rest, 0)
  {
    var s := a + "%{d}" + rest;
    assert s == a + ("%{d}" + rest);
    assert forall k :: 0 <= k < |a| ==> s[k] == a[k];
    assert |a| < 4 ==> s[|a|] == '%';
  }

  /** Every macro of the text, from the left, becomes the name. */
  lemma {:induction false} MacroReplaced(a: string, rest: string, name: string)
    requires MacroFree(a)
    ensures ReplaceDomain(a + "%{d}" + rest, name) == a + name + ReplaceDomain(rest, name)
    decreases |a|
  {
    var s := a + "%{d}" + rest;
    if a == "" {
      assert s == "%{d}" + rest && s[4..] == rest && HasPrefix(s, "%{d}");
      assert a + name == name;
    } else {
      TailIsMacroFree(a);
      NoMacroAhead(a, rest);
      PrefixIsMacro(s);
      MacroReplaced(a[1..], rest, name);
      assert s[1..] == a[1..] + "%{d}" + rest && s[0] == a[0];
      assert [a[0]] + (a[1..] + name + ReplaceDomain(rest, name)) == a + name + ReplaceDomain(rest, name);
    }
  }

  lemma {:induction false} MacroFreeStays(a: string, name: string)
    requires MacroFree(a)
    ensures ReplaceDomain(a, name) == a
    decreases |a|
  {
    if a == "" {
    } else {
      TailIsMacroFree(a);
      PrefixIsMacro(a);
      MacroFreeStays(a[1..], name);
    }
  }

  // ----- a record ------------------------------------------------------------------------------------

  /** A TXT string is an SPF record: the version in any case, alone or before a space. */
  lemma SpfRecordIff(t: string)
    ensures IsSpfRecord(t) <==> |t| >= 6 && Lower(t[..6]) == "v=spf1" && (|t| == 6 || t[6] == ' ')
  {
    if |t| >= 6 {
      LowerCut(t, 6);
      assert |t| == 6 ==> t[..6] == t;
      assert |t| > 6 ==> (HasPrefix(Lower(t), "v=spf1 ") <==> Lower(t)[..6] == "v=spf1" && Lower(t)[6] == ' ');
      assert |t| > 6 ==> (LowerChar(t[6]) == ' ' <==> t[6] == ' ');
    }
  }

  /** How many of the words are lookups, and how many name a target. */
  ghost function CostOfWords(words: seq<string>): nat {
    if words == [] then 0
    else
      (if CostsLookup(words[0]) then 1 else 0) + (if NamesTarget(words[0]) then 1 else 0) + CostOfWords(words[1..])
  }

  lemma {:induction false} CostOfParsed(words: seq<string>, name: string)
    ensures OwnCosts(ParseTerms(words, name)) == CostOfWords(words)
  {
    if words == [] {
    } else {
      TermOfWord(words[0], name);
      CostOfParsed(words[1..], name);
      assert ParseTerms(words, name)[1..] == ParseTerms(words[1..], name);
    }
  }

  /**
  A record of words with single spaces costs, by itself, the number of its
  words after the version that are lookups and of those that name a target.
  */
  lemma CostOfRecord(dns: Dns, name: string, words: seq<string>)
    requires words != [] && AreWords(words) && FindSpf(dns(name)) == Some(Joined(words))
    ensures NetOf(dns)(name).found && OwnCosts(NetOf(dns)(name).terms) == CostOfWords(words[1..])
  {
    FieldsOfJoined(words);
    CostOfParsed(words[1..], name);
  }
}
