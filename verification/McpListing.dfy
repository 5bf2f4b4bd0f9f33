/** The tools/list loop of CheckMCP in checker/mcpcheck.go, against any paging server. */
module McpListing {
  import opened McpSurface

  const MAX_TOOLS := 500
  const MAX_PAGES := 20

  datatype Reply = Failed | Page(tools: seq<Tool>, nextCursor: string)

  /** What the server answers to its k-th request with this cursor; it may keep state, repeat itself or never end. */
  type Server = (nat, string) -> Reply

  /** The cursor sent with request k after these replies. */
  function CursorAt(replies: seq<Reply>, k: nat): string
    requires k <= |replies|
  {
    if k == 0 || replies[k - 1].Failed? then "" else replies[k - 1].nextCursor
  }

  /** A conversation with the server: each request carries the cursor of the reply before it. */
  ghost predicate IsTrace(server: Server, replies: seq<Reply>) {
    forall k :: 0 <= k < |replies| ==> replies[k] == server(k, CursorAt(replies, k))
  }

  /** The concatenated pages. */
  function Collected(replies: seq<Reply>): seq<Tool> {
    if replies == [] then []
    else
      var last := replies[|replies| - 1];
      Collected(replies[..|replies| - 1]) + if last.Page? then last.tools else []
  }

  predicate GoesOn(reply: Reply) {
    reply.Page? && reply.nextCursor != ""
  }

  datatype Listing = ListFailed | Listed(tools: seq<Tool>, truncated: bool)

  /** The loop has read this far without a reason to stop. */
  predicate ReadsOn(replies: seq<Reply>) {
    forall k :: 0 <= k < |replies| ==> ReadsPast(replies, k)
  }

  /** After reply k there is a cursor and room for more tools. */
  predicate ReadsPast(replies: seq<Reply>, k: nat)
    requires k < |replies|
  {
    GoesOn(replies[k]) && |Collected(replies[..k + 1])| < MAX_TOOLS
  }

  lemma ReadsPastPrefix(replies: seq<Reply>, n: nat, k: nat)
    requires k < n <= |replies|
    ensures ReadsPast(replies[..n], k) == ReadsPast(replies, k)
  {
    assert replies[..n][..k + 1] == replies[..k + 1];
  }

  /** Every page there is has been read. */
  predicate Ended(replies: seq<Reply>) {
    replies != [] && replies[|replies| - 1].Page? && replies[|replies| - 1].nextCursor == ""
    && forall k :: 0 <= k < |replies| - 1 ==> GoesOn(replies[k])
  }

  /**
  What the loop promises about the replies it took: it asks on while there is
  a cursor, tools are short of 500 and pages short of 20, and then stops; it
  keeps the first 500 tools; and the flag is down exactly when no cursor was
  left unread and no tool was cut.
  */
  predicate IsListing(replies: seq<Reply>, r: Listing) {
    && 1 <= |replies| <= MAX_PAGES
    && ReadsOn(replies[..|replies| - 1])
    && (|replies| < MAX_PAGES ==> !ReadsOn(replies))
    && match r
       case ListFailed => replies[|replies| - 1].Failed?
       case Listed(tools, truncated) =>
         var all := Collected(replies);
         && replies[|replies| - 1].Page?
         && tools == (if |all| <= MAX_TOOLS then all else all[..MAX_TOOLS])
         && (!truncated <==> Ended(replies) && tools == all)
  }

  lemma ReadOneMore(replies: seq<Reply>, reply: Reply)
    ensures Collected(replies + [reply]) == Collected(replies) + if reply.Page? then reply.tools else []
    ensures ReadsOn(replies) ==>
      (ReadsOn(replies + [reply]) <==> GoesOn(reply) && |Collected(replies + [reply])| < MAX_TOOLS)
  {
    var more := replies + [reply];
    assert more[..|replies|] == replies && more[..|replies| + 1] == more;
    forall k | 0 <= k < |replies|
      ensures ReadsPast(more, k) == ReadsPast(replies, k)
    {
      ReadsPastPrefix(more, |replies|, k);
    }
    assert ReadsPast(more, |replies|) <==> GoesOn(reply) && |Collected(more)| < MAX_TOOLS;
  }

  /** One more reply with no cursor ends the listing. */
  lemma EndsHere(replies: seq<Reply>, reply: Reply)
    requires ReadsOn(replies) && reply.Page?
    ensures Ended(replies + [reply]) <==> reply.nextCursor == ""
  {
    assert forall k :: 0 <= k < |replies| ==> ReadsPast(replies, k) && (replies + [reply])[k] == replies[k];
  }

  lemma ExtendTrace(server: Server, replies: seq<Reply>, reply: Reply)
    requires IsTrace(server, replies) && reply == server(|replies|, CursorAt(replies, |replies|))
    ensures IsTrace(server, replies + [reply])
  {
    var more := replies + [reply];
    forall k | 0 <= k < |more|
      ensures more[k] == server(k, CursorAt(more, k))
    {
      assert CursorAt(more, k) == CursorAt(replies, k);
    }
  }

  lemma ReadsOnBefore(replies: seq<Reply>)
    requires replies != [] && ReadsOn(replies)
    ensures ReadsOn(replies[..|replies| - 1]) && !Ended(replies) && GoesOn(replies[|replies| - 1])
  {
    var before := replies[..|replies| - 1];
    assert ReadsPast(replies, |replies| - 1);
    forall k | 0 <= k < |before|
      ensures ReadsPast(before, k)
    {
      ReadsPastPrefix(replies, |before|, k);
    }
  }

  /** What one more reply does, as the loop sees it. */
  lemma TakeReply(server: Server, replies: seq<Reply>, reply: Reply)
    requires IsTrace(server, replies) && ReadsOn(replies) && reply == server(|replies|, CursorAt(replies, |replies|))
    ensures var more := replies + [reply];
      && IsTrace(server, more) && ReadsOn(more[..|more| - 1]) && more[|more| - 1] == reply
      && (reply.Page? ==>
            && Collected(more) == Collected(replies) + reply.tools
            && (ReadsOn(more) <==> reply.nextCursor != "" && |Collected(more)| < MAX_TOOLS)
            && (Ended(more) <==> reply.nextCursor == "")
            && CursorAt(more, |more|) == reply.nextCursor)
      && (reply.Failed? ==> !ReadsOn(more))
  {
    ExtendTrace(server, replies, reply);
    ReadOneMore(replies, reply);
    LastReply(replies, reply);
    if reply.Page? {
      EndsHere(replies, reply);
    }
  }

  lemma LastReply(replies: seq<Reply>, reply: Reply)
    ensures var more := replies + [reply];
      |more| == |replies| + 1 && more[..|replies|] == replies && more[|replies|] == reply
  {
  }

  /** The loop, its two break conditions, and the cut after it. */
  method ListTools(server: Server) returns (r: Listing)
    ensures exists replies :: IsTrace(server, replies) && IsListing(replies, r)
  {
    var tools: seq<Tool>, cursor, truncated := [], "", false;
    ghost var replies: seq<Reply> := [];
    var page := 0;
    while page < MAX_PAGES
      invariant 0 <= page == |replies| <= MAX_PAGES
      invariant IsTrace(server, replies) && ReadsOn(replies)
      invariant tools == Collected(replies) && cursor == CursorAt(replies, page)
      invariant truncated <==> page == MAX_PAGES
    {
      var res := server(page, cursor);
      TakeReply(server, replies, res);
      replies := replies + [res];
      if res.Failed? {
        r := ListFailed;
        return;
      }
      tools := tools + res.tools;
      if res.nextCursor == "" || |tools| >= MAX_TOOLS {
        if res.nextCursor != "" {
          truncated := true;
        }
        r := Cut(replies, tools, truncated);
        return;
      }
      cursor := res.nextCursor;
      if page == MAX_PAGES - 1 {
        truncated := true;
      }
      page := page + 1;
    }
    ReadsOnBefore(replies);
    r := Cut(replies, tools, truncated);
  }

  /** The cut after the loop. */
  method Cut(ghost replies: seq<Reply>, tools: seq<Tool>, truncated: bool) returns (r: Listing)
    requires 1 <= |replies| <= MAX_PAGES && ReadsOn(replies[..|replies| - 1])
    requires replies[|replies| - 1].Page? && (|replies| < MAX_PAGES ==> !ReadsOn(replies))
    requires tools == Collected(replies) && (!truncated <==> Ended(replies))
    ensures IsListing(replies, r)
  {
    if |tools| > MAX_TOOLS {
      r := Listed(tools[..MAX_TOOLS], true);
    } else {
      r := Listed(tools, truncated);
    }
  }

  lemma SameCursor(a: seq<Reply>, b: seq<Reply>, k: nat)
    requires k <= |a| && k <= |b| && a[..k] == b[..k]
    ensures CursorAt(a, k) == CursorAt(b, k)
  {
    assert k > 0 ==> a[k - 1] == a[..k][k - 1] && b[k - 1] == b[..k][k - 1];
  }

  lemma OneReplyMore(a: seq<Reply>, b: seq<Reply>, k: nat)
    requires 1 <= k <= |a| && k <= |b| && a[..k - 1] == b[..k - 1] && a[k - 1] == b[k - 1]
    ensures a[..k] == b[..k]
  {
    assert a[..k] == a[..k - 1] + [a[k - 1]] && b[..k] == b[..k - 1] + [b[k - 1]];
  }

  /** Two conversations with one server agree as far as both go. */
  lemma {:induction false} OneTrace(server: Server, a: seq<Reply>, b: seq<Reply>, k: nat)
    requires IsTrace(server, a) && IsTrace(server, b) && k <= |a| && k <= |b|
    ensures a[..k] == b[..k]
  {
    if k == 0 {
    } else {
      OneTrace(server, a, b, k - 1);
      SameCursor(a, b, k - 1);
      assert a[k - 1] == server(k - 1, CursorAt(a, k - 1)) == b[k - 1];
      OneReplyMore(a, b, k);
    }
  }

  /** The promise leaves no choice: a server has one conversation and one listing. */
  lemma ListingIsUnique(server: Server, a: seq<Reply>, x: Listing, b: seq<Reply>, y: Listing)
    requires IsTrace(server, a) && IsListing(a, x) && IsTrace(server, b) && IsListing(b, y)
    ensures a == b && x == y
  {
    OneTrace(server, a, b, if |a| < |b| then |a| else |b|);
    PrefixOf(a, b);
    PrefixOf(b, a);
    NoLonger(a, b);
    NoLonger(b, a);
    SameListing(a, x, y);
  }

  lemma PrefixOf(a: seq<Reply>, b: seq<Reply>)
    requires var k := if |a| < |b| then |a| else |b|; a[..k] == b[..k]
    ensures |a| <= |b| ==> a == b[..|a|]
  {
    assert a[..|a|] == a;
  }

  lemma SameListing(replies: seq<Reply>, x: Listing, y: Listing)
    requires IsListing(replies, x) && IsListing(replies, y)
    ensures x == y
  {
  }

  lemma NoLonger(a: seq<Reply>, b: seq<Reply>)
    requires 1 <= |a| && 1 <= |b| <= MAX_PAGES && (|a| < MAX_PAGES ==> !ReadsOn(a)) && ReadsOn(b[..|b| - 1])
    requires |a| <= |b| ==> a == b[..|a|]
    ensures |a| >= |b|
  {
    if |a| < |b| {
      var c := b[..|b| - 1];
      assert a == c[..|a|];
      forall k | 0 <= k < |a|
        ensures ReadsPast(a, k)
      {
        ReadsPastPrefix(c, |a|, k);
      }
    }
  }

  /** Of two lists that agree as far as both go, neither goes on past the end of the other. */
  lemma EndsTogether(a: seq<Reply>, b: seq<Reply>, k: nat)
    requires Ended(a) && Ended(b) && k == (if |a| < |b| then |a| else |b|) && a[..k] == b[..k]
    ensures a == b
  {
    assert a[k - 1] == a[..k][k - 1] && b[k - 1] == b[..k][k - 1];
    assert !GoesOn(a[|a| - 1]) && !GoesOn(b[|b| - 1]);
    assert a[..|a|] == a && b[..|b|] == b;
  }

  /**
  An untruncated listing is the whole listing: any longer conversation with
  the server that follows cursors to the end is the same one.
  */
  lemma UntruncatedIsWhole(server: Server, replies: seq<Reply>, r: Listing, whole: seq<Reply>)
    requires IsTrace(server, replies) && IsListing(replies, r) && r.Listed? && !r.truncated
    requires IsTrace(server, whole) && Ended(whole)
    ensures whole == replies && r.tools == Collected(whole)
  {
    var k := if |replies| < |whole| then |replies| else |whole|;
    OneTrace(server, replies, whole, k);
    EndsTogether(replies, whole, k);
  }

  /** A flagged listing misses something the server offered: a cursor it named, or tools past the 500th. */
  lemma FlaggedMissesSomething(replies: seq<Reply>, r: Listing)
    requires IsListing(replies, r) && r.Listed? && r.truncated
    ensures GoesOn(replies[|replies| - 1]) || |Collected(replies)| > MAX_TOOLS == |r.tools|
  {
    var before := replies[..|replies| - 1];
    assert forall k :: 0 <= k < |before| ==> ReadsPast(before, k) && replies[k] == before[k];
  }

  /** Where a listing stops: 20 pages, 500 tools, the last cursor, or a failure. */
  lemma ListingLimits(replies: seq<Reply>, r: Listing)
    requires IsListing(replies, r)
    ensures 1 <= |replies| <= 20
    ensures r.Listed? ==> |r.tools| <= 500 && r.tools <= Collected(replies)
    ensures r.Listed? && |r.tools| < 500 ==> r.tools == Collected(replies)
    ensures r.Listed? && |r.tools| < 500 && r.truncated ==> |replies| == 20
  {
    var all, n := Collected(replies), |replies| - 1;
    if r.Listed? && |r.tools| < 500 && r.truncated && |replies| < 20 {
      LastStops(replies);
      AllBeforeGoOn(replies);
    }
  }

  /** A listing that stopped before 20 pages did so at its last reply. */
  lemma LastStops(replies: seq<Reply>)
    requires replies != [] && ReadsOn(replies[..|replies| - 1]) && !ReadsOn(replies)
    ensures !ReadsPast(replies, |replies| - 1)
  {
    var before := replies[..|replies| - 1];
    forall k | 0 <= k < |before|
      ensures ReadsPast(replies, k)
    {
      assert ReadsPast(before, k);
      ReadsPastPrefix(replies, |before|, k);
    }
    assert replies[..|replies| - 1 + 1] == replies;
  }

  lemma AllBeforeGoOn(replies: seq<Reply>)
    requires replies != [] && ReadsOn(replies[..|replies| - 1]) && !ReadsPast(replies, |replies| - 1)
    requires replies[|replies| - 1].Page? && |Collected(replies)| < MAX_TOOLS
    ensures Ended(replies)
  {
    var before := replies[..|replies| - 1];
    assert replies[..|replies| - 1 + 1] == replies;
    forall k | 0 <= k < |replies| - 1
      ensures GoesOn(replies[k])
    {
      assert ReadsPast(before, k) && before[k] == replies[k];
    }
  }

  /** The first request has no cursor, and each later one the cursor that the page before it named. */
  lemma TraceFollowsCursors(server: Server, replies: seq<Reply>, k: nat)
    requires IsTrace(server, replies) && k < |replies|
    ensures k == 0 ==> replies[k] == server(0, "")
    ensures k > 0 && replies[k - 1].Page? ==> replies[k] == server(k, replies[k - 1].nextCursor)
  {
  }

  /** The tools of two stretches of pages stand one after the other, in the order of the pages. */
  lemma {:induction false} CollectedInOrder(a: seq<Reply>, b: seq<Reply>)
    ensures Collected(a + b) == Collected(a) + Collected(b)
    ensures forall tools, cursor :: Collected([Page(tools, cursor)]) == tools
    decreases |b|
  {
    forall tools, cursor
      ensures Collected([Page(tools, cursor)]) == tools
    {
      assert [Page(tools, cursor)][..0] == [];
    }
    if b == [] {
      assert a + b == a;
    } else {
      CollectedInOrder(a, b[..|b| - 1]);
      assert (a + b)[..|a + b| - 1] == a + b[..|b| - 1];
    }
  }
}
