/** The string handling of checker/mailposture.go that the SPF walk rests on. Letter case is ASCII. */
module SpfText {
  import opened Common

  /** What strings.Fields splits on. */
  predicate IsSpace(c: char) {
    || c == '\t' || c == '\n' || c == '\U{000B}' || c == '\U{000C}' || c == '\r' || c == ' '
    || c == '\U{0085}' || c == '\U{00A0}' || c == '\U{1680}' || '\U{2000}' <= c <= '\U{200A}'
    || c == '\U{2028}' || c == '\U{2029}' || c == '\U{202F}' || c == '\U{205F}' || c == '\U{3000}'
  }

  /** The 25 characters of Unicode's White_Space property. */
  lemma SpacesAre(c: char)
    ensures IsSpace(c) <==>
      c as int in {0x09, 0x0A, 0x0B, 0x0C, 0x0D, 0x20, 0x85, 0xA0, 0x1680,
                   0x2000, 0x2001, 0x2002, 0x2003, 0x2004, 0x2005, 0x2006, 0x2007, 0x2008, 0x2009, 0x200A,
                   0x2028, 0x2029, 0x202F, 0x205F, 0x3000}
  {
  }

  /** The length of the leading run of characters that are, or are not, spaces. */
  function Run(s: string, spaces: bool): (n: nat)
    ensures n <= |s|
    ensures forall k :: 0 <= k < n ==> IsSpace(s[k]) == spaces
    ensures n < |s| ==> IsSpace(s[n]) != spaces
  {
    if s == [] || IsSpace(s[0]) != spaces then 0 else 1 + Run(s[1..], spaces)
  }

  /** strings.Fields: the maximal runs of characters that are not spaces. */
  function Fields(s: string): (fields: seq<string>)
    ensures forall f :: f in fields ==> f != [] && forall c :: c in f ==> !IsSpace(c)
    ensures (exists c :: c in s && !IsSpace(c)) ==> fields != []
    decreases |s|
  {
    var t := s[Run(s, true)..];
    if t == [] then
      assert forall c :: c in s ==> IsSpace(c);
      []
    else [t[..Run(t, false)]] + Fields(t[Run(t, false)..])
  }

  /** Nonempty words without spaces. */
  predicate AreWords(words: seq<string>) {
    forall w :: w in words ==> w != [] && forall c :: c in w ==> !IsSpace(c)
  }

  /** The words with one space in between. */
  function Joined(words: seq<string>): string {
    if words == [] then ""
    else if |words| == 1 then words[0]
    else words[0] + " " + Joined(words[1..])
  }

  lemma RunIs(w: string, rest: string, spaces: bool)
    requires forall c :: c in w ==> IsSpace(c) == spaces
    requires rest != [] ==> IsSpace(rest[0]) != spaces
    ensures Run(w + rest, spaces) == |w|
  {
    assert forall k :: 0 <= k < |w| ==> (w + rest)[k] == w[k] && w[k] in w;
    assert rest != [] ==> (w + rest)[|w|] == rest[0];
  }

  /** A word and what follows it, which is nothing or begins with a space. */
  lemma FieldsCons(w: string, rest: string)
    requires AreWords([w]) && (rest != [] ==> IsSpace(rest[0]))
    ensures Fields(w + rest) == [w] + Fields(rest)
  {
    var s := w + rest;
    assert w in [w] && w[0] in w;
    RunIs([], s, true);
    assert [] + s == s && s[0..] == s;
    RunIs(w, rest, false);
    assert s[..|w|] == w && s[|w|..] == rest;
  }

  /** Space in front of a text adds nothing. */
  lemma FieldsSkipSpace(c: char, s: string)
    requires IsSpace(c)
    ensures Fields([c] + s) == Fields(s)
  {
    var n := Run(s, true);
    assert s == s[..n] + s[n..] && [c] + s == [c] + s[..n] + s[n..];
    RunIs(s[..n], s[n..], true);
    RunIs([c] + s[..n], s[n..], true);
    assert ([c] + s)[n + 1..] == s[n..];
  }

  lemma WordsTail(words: seq<string>)
    requires AreWords(words) && words != []
    ensures AreWords(words[1..]) && AreWords([words[0]])
  {
    assert words[0] in words && forall w :: w in words[1..] ==> w in words;
  }

  lemma JoinedStarts(words: seq<string>)
    requires AreWords(words) && words != []
    ensures Joined(words) != [] && !IsSpace(Joined(words)[0])
  {
    var w := words[0];
    assert w in words && w[0] in w;
    assert |words| > 1 ==> (w + " " + Joined(words[1..]))[0] == w[0];
  }

  lemma FieldsOfJoinedCons(words: seq<string>)
    requires AreWords(words) && |words| >= 2
    ensures Fields(Joined(words)) == [words[0]] + Fields(Joined(words[1..]))
  {
    var w, rest := words[0], Joined(words[1..]);
    WordsTail(words);
    JoinedStarts(words[1..]);
    assert w + " " + rest == w + (" " + rest);
    FieldsCons(w, " " + rest);
    FieldsSkipSpace(' ', rest);
  }

  /** Splitting undoes joining. */
  lemma {:induction false} FieldsOfJoined(words: seq<string>)
    requires AreWords(words)
    ensures Fields(Joined(words)) == words
  {
    if words == [] {
      RunIs([], [], true);
    } else if |words| == 1 {
      WordsTail(words);
      assert words[0] + [] == words[0];
      FieldsCons(words[0], []);
      RunIs([], [], true);
    } else {
      FieldsOfJoinedCons(words);
      WordsTail(words);
      FieldsOfJoined(words[1..]);
    }
  }

  function LowerChar(c: char): char {
    if 'A' <= c <= 'Z' then c - 'A' + 'a' else c
  }

  function Lower(s: string): (r: string)
    ensures |r| == |s| && forall k :: 0 <= k < |s| ==> r[k] == LowerChar(s[k])
  {
    seq(|s|, k requires 0 <= k < |s| => LowerChar(s[k]))
  }

  /** strings.TrimLeft(s, "+-~?"): the qualifiers in front of a mechanism. */
  function TrimQualifiers(s: string): string {
    if s != [] && s[0] in "+-~?" then TrimQualifiers(s[1..]) else s
  }

  predicate HasPrefix(s: string, prefix: string) {
    prefix <= s
  }

  /** strings.ReplaceAll(s, "%{d}", name). */
  function ReplaceDomain(s: string, name: string): string
    decreases |s|
  {
    if s == [] then []
    else if HasPrefix(s, "%{d}") then name + ReplaceDomain(s[4..], name)
    else [s[0]] + ReplaceDomain(s[1..], name)
  }

  lemma {:induction false} NoMacro(s: string, name: string)
    requires forall c :: c in s ==> c != '%'
    ensures ReplaceDomain(s, name) == s
  {
    if s == [] {
    } else {
      assert s[0] in s && forall c :: c in s[1..] ==> c in s;
      NoMacro(s[1..], name);
    }
  }

  // ----- the patterns, on a lower-cased term ---------------------------------------

  /** ^(a|mx|ptr|exists)(:|/|$) for one of the four words. */
  predicate IsWord(t: string, word: string) {
    HasPrefix(t, word) && (|t| == |word| || t[|word|] == ':' || t[|word|] == '/')
  }

  predicate IsLookup(t: string) {
    IsWord(t, "a") || IsWord(t, "mx") || IsWord(t, "ptr") || IsWord(t, "exists")
  }

  /** ^(include|redirect)[:=](.+)$ and its second group. */
  function IncludeTarget(t: string): Option<string> {
    var word := if HasPrefix(t, "include") then 7 else if HasPrefix(t, "redirect") then 8 else 0;
    if word > 0 && |t| > word + 1 && (t[word] == ':' || t[word] == '=') then Some(t[word + 1..]) else None
  }

  predicate IsPtr(t: string) {
    t == "ptr" || HasPrefix(t, "ptr:")
  }

  predicate IsSpfRecord(t: string) {
    var l := Lower(t);
    l == "v=spf1" || HasPrefix(l, "v=spf1 ")
  }

  /** A record that passes the filter has a first field to drop. */
  lemma RecordHasFields(rec: string)
    requires IsSpfRecord(rec)
    ensures Fields(rec) != []
  {
    assert Lower(rec)[0] == LowerChar(rec[0]) == 'v';
    assert rec[0] in rec && !IsSpace(rec[0]);
  }
}
