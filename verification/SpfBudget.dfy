/** What the SPF walk counts, how much it asks, and what it reaches. */
module SpfBudget {
  import opened Common
  import opened SpfText
  import opened SpfWalk

  // ----- accounting ------------------------------------------------------------------

  /** The own costs of every target in this list that has a record. */
  function TargetCosts(net: Net, order: seq<string>): nat {
    if order == [] then 0
    else TargetCosts(net, order[..|order| - 1]) + OwnCosts(net(order[|order| - 1]).terms)
  }

  /**
  The static count of section 4.6.4 of RFC 7208 with every include unfolded
  where it stands, cut at the walk's depth only.
  */
  function Unfolded(net: Net, terms: seq<Term>, depth: nat): nat
    requires depth <= MAX_DEPTH
    decreases MAX_DEPTH - depth, |terms|
  {
    if terms == [] then 0
    else UnfoldedTerm(net, terms[0], depth) + Unfolded(net, terms[1..], depth)
  }

  function UnfoldedTerm(net: Net, term: Term, depth: nat): nat
    requires depth <= MAX_DEPTH
    decreases MAX_DEPTH - depth, 0
  {
    OwnCost(term) + match term.target
      case None => 0
      case Some(target) => Missed(net, Skip(target, depth))
  }

  /** What the unfolded count has for an include that the walk may have skipped. */
  function Missed(net: Net, s: Skip): nat
    decreases MAX_DEPTH - s.depth - 1, |net(s.target).terms| + 1
  {
    if s.depth >= MAX_DEPTH then 0
    else Unfolded(net, net(s.target).terms, s.depth + 1)
  }

  function MissedAll(net: Net, skips: seq<Skip>): nat {
    if skips == [] then 0 else MissedAll(net, skips[..|skips| - 1]) + Missed(net, skips[|skips| - 1])
  }

  /**
  A stretch of the walk from w to w' over terms of own cost `own` and unfolded
  count `unfolded`: the count grows by the own costs met on the way, and the
  unfolded count is what was counted plus what was skipped.
  */
  ghost predicate Accounts(net: Net, w: Walk, w': Walk, own: nat, unfolded: nat) {
    && w'.n + TargetCosts(net, w.order) == w.n + own + TargetCosts(net, w'.order)
    && w'.n + MissedAll(net, w'.skips) == w.n + MissedAll(net, w.skips) + unfolded
  }

  lemma {:induction false} TermsAccount(net: Net, terms: seq<Term>, depth: nat, w: Walk)
    requires depth <= MAX_DEPTH
    ensures Accounts(net, w, WalkTerms(net, terms, depth, w), OwnCosts(terms), Unfolded(net, terms, depth))
    decreases MAX_DEPTH - depth, |terms|
  {
    if terms == [] {
    } else {
      TermAccount(net, terms[0], depth, w);
      TermsAccount(net, terms[1..], depth, WalkTerm(net, terms[0], depth, w));
    }
  }

  lemma {:induction false} TermAccount(net: Net, term: Term, depth: nat, w: Walk)
    requires depth <= MAX_DEPTH
    ensures Accounts(net, w, WalkTerm(net, term, depth, w), OwnCost(term), UnfoldedTerm(net, term, depth))
    decreases MAX_DEPTH - depth, 0
  {
    var counted := w.(n := w.n + OwnCost(term));
    match term.target
    case None =>
    case Some(target) =>
      if Follows(counted, target, depth) {
        TargetAccount(net, target, depth, counted);
      } else {
        assert (w.skips + [Skip(target, depth)])[..|w.skips|] == w.skips;
      }
  }

  lemma {:induction false} TargetAccount(net: Net, target: string, depth: nat, w: Walk)
    requires depth < MAX_DEPTH
    ensures Accounts(net, w, WalkTarget(net, target, depth, w), 0, Missed(net, Skip(target, depth)))
    decreases MAX_DEPTH - depth - 1, |net(target).terms| + 1
  {
    var v := Enter(net, w, target);
    assert v.order[..|w.order|] == w.order;
    TermsAccount(net, net(target).terms, depth + 1, v);
  }

  // ----- the visited set -----------------------------------------------------------------

  /** The visited set is the targets queried, each of them once. */
  ghost predicate WellSeen(w: Walk) {
    Distinct(w.order) && forall t :: t in w.seen <==> t in w.order
  }

  /**
  A stretch of the walk: it only adds; no target is queried twice; it asks at
  most as often as it counts; and a count that stays within 30 leaves no
  target out except for depth.
  */
  ghost predicate Grows(w: Walk, w': Walk) {
    && WellSeen(w')
    && w.n <= w'.n && w.order <= w'.order && w.skips <= w'.skips && w.seen <= w'.seen
    && (w'.n <= MAX_COUNT ==>
          forall k :: |w.skips| <= k < |w'.skips| && w'.skips[k].depth < MAX_DEPTH ==> w'.skips[k].target in w'.seen)
  }

  lemma {:induction false} TermsGrow(net: Net, terms: seq<Term>, depth: nat, w: Walk)
    requires depth <= MAX_DEPTH && WellSeen(w)
    ensures Grows(w, WalkTerms(net, terms, depth, w))
    decreases MAX_DEPTH - depth, |terms|
  {
    if terms == [] {
    } else {
      TermGrows(net, terms[0], depth, w);
      TermsGrow(net, terms[1..], depth, WalkTerm(net, terms[0], depth, w));
    }
  }

  lemma {:induction false} TermGrows(net: Net, term: Term, depth: nat, w: Walk)
    requires depth <= MAX_DEPTH && WellSeen(w)
    ensures Grows(w, WalkTerm(net, term, depth, w))
    decreases MAX_DEPTH - depth, 0
  {
    var counted := w.(n := w.n + OwnCost(term));
    match term.target
    case None =>
    case Some(target) =>
      if Follows(counted, target, depth) {
        TargetGrows(net, target, depth, counted);
      }
  }

  lemma {:induction false} TargetGrows(net: Net, target: string, depth: nat, w: Walk)
    requires depth < MAX_DEPTH && WellSeen(w) && target !in w.seen
    ensures Grows(w, WalkTarget(net, target, depth, w))
    decreases MAX_DEPTH - depth - 1, |net(target).terms| + 1
  {
    TermsGrow(net, net(target).terms, depth + 1, Enter(net, w, target));
  }

  // ----- how many queries ------------------------------------------------------------------

  /** After a stretch of a call at this depth that began with `base` queries made. */
  predicate Asks(w: Walk, w': Walk, depth: nat, base: nat) {
    && |w'.order| <= base + w'.n
    && (|w'.order| <= |w.order| || |w'.order| <= base + MAX_COUNT * (MAX_DEPTH - depth))
  }

  lemma {:induction false} TermsAsk(net: Net, terms: seq<Term>, depth: nat, w: Walk, base: nat)
    requires depth <= MAX_DEPTH && |w.order| <= base + w.n
    ensures Asks(w, WalkTerms(net, terms, depth, w), depth, base)
    decreases MAX_DEPTH - depth, |terms|
  {
    if terms == [] {
    } else {
      TermAsks(net, terms[0], depth, w, base);
      TermsAsk(net, terms[1..], depth, WalkTerm(net, terms[0], depth, w), base);
    }
  }

  lemma {:induction false} TermAsks(net: Net, term: Term, depth: nat, w: Walk, base: nat)
    requires depth <= MAX_DEPTH && |w.order| <= base + w.n
    ensures Asks(w, WalkTerm(net, term, depth, w), depth, base)
    decreases MAX_DEPTH - depth, 0
  {
    var counted := w.(n := w.n + OwnCost(term));
    match term.target
    case None =>
    case Some(target) =>
      if Follows(counted, target, depth) {
        TermsAsk(net, net(target).terms, depth + 1, Enter(net, counted, target), |w.order| + 1);
      }
  }

  // ----- what is reached ---------------------------------------------------------------------

  /** The record of x names y in an include or a redirect. */
  ghost predicate Edge(net: Net, x: string, y: string) {
    exists term :: term in net(x).terms && term.target == Some(y)
  }

  ghost predicate IsPath(net: Net, p: seq<string>) {
    forall k :: 0 <= k < |p| - 1 ==> Edge(net, p[k], p[k + 1])
  }

  /** y is an include or redirect target reachable from root. */
  ghost predicate Reaches(net: Net, root: string, y: string) {
    exists p :: |p| >= 2 && p[0] == root && p[|p| - 1] == y && IsPath(net, p)
  }

  lemma PathOn(net: Net, p: seq<string>, y: string)
    requires p != [] && IsPath(net, p) && Edge(net, p[|p| - 1], y)
    ensures IsPath(net, p + [y])
  {
    var q := p + [y];
    forall k | 0 <= k < |q| - 1
      ensures Edge(net, q[k], q[k + 1])
    {
      if k < |p| - 1 {
        assert Edge(net, p[k], p[k + 1]);
      }
    }
  }

  lemma ReachOn(net: Net, root: string, x: string, y: string)
    requires (x == root || Reaches(net, root, x)) && Edge(net, x, y)
    ensures Reaches(net, root, y)
  {
    var p := [root];
    if x != root {
      p :| |p| >= 2 && p[0] == root && p[|p| - 1] == x && IsPath(net, p);
    }
    PathOn(net, p, y);
    var q := p + [y];
    assert |q| >= 2 && q[0] == root && q[|q| - 1] == y;
  }

  /** Everything new in w' is reachable. */
  ghost predicate OnlyReaches(net: Net, root: string, w: Walk, w': Walk) {
    && w.order <= w'.order && w.skips <= w'.skips
    && (forall k :: |w.order| <= k < |w'.order| ==> Reaches(net, root, w'.order[k]))
    && (forall k :: |w.skips| <= k < |w'.skips| ==> Reaches(net, root, w'.skips[k].target))
  }

  lemma {:induction false} TermsOnlyReach(net: Net, root: string, name: string, terms: seq<Term>, depth: nat, w: Walk)
    requires depth <= MAX_DEPTH
    requires name == root || Reaches(net, root, name)
    requires forall term :: term in terms ==> term in net(name).terms
    ensures OnlyReaches(net, root, w, WalkTerms(net, terms, depth, w))
    decreases MAX_DEPTH - depth, |terms|
  {
    if terms == [] {
    } else {
      TermOnlyReaches(net, root, name, terms[0], depth, w);
      TermsOnlyReach(net, root, name, terms[1..], depth, WalkTerm(net, terms[0], depth, w));
    }
  }

  lemma {:induction false} TermOnlyReaches(net: Net, root: string, name: string, term: Term, depth: nat, w: Walk)
    requires depth <= MAX_DEPTH
    requires name == root || Reaches(net, root, name)
    requires term in net(name).terms
    ensures OnlyReaches(net, root, w, WalkTerm(net, term, depth, w))
    decreases MAX_DEPTH - depth, 0
  {
    var counted := w.(n := w.n + OwnCost(term));
    match term.target
    case None =>
    case Some(target) =>
      assert Edge(net, name, target);
      ReachOn(net, root, name, target);
      if Follows(counted, target, depth) {
        TargetOnlyReaches(net, root, target, depth, counted);
      }
  }

  lemma {:induction false} TargetOnlyReaches(net: Net, root: string, target: string, depth: nat, w: Walk)
    requires depth < MAX_DEPTH && Reaches(net, root, target)
    ensures OnlyReaches(net, root, w, WalkTarget(net, target, depth, w))
    decreases MAX_DEPTH - depth - 1, |net(target).terms| + 1
  {
    TermsOnlyReach(net, root, target, net(target).terms, depth + 1, Enter(net, w, target));
  }

  predicate Met(w: Walk, y: string) {
    y in w.seen || exists k :: 0 <= k < |w.skips| && w.skips[k].target == y
  }

  /** Every target named by x has been visited or skipped. */
  ghost predicate Covered(net: Net, w: Walk, x: string) {
    forall y :: Edge(net, x, y) ==> Met(w, y)
  }

  /** Everything newly visited has had its own targets met. */
  ghost predicate Covers(net: Net, w: Walk, w': Walk) {
    && WellSeen(w') && w.order <= w'.order && w.skips <= w'.skips && w.seen <= w'.seen
    && forall k :: |w.order| <= k < |w'.order| ==> Covered(net, w', w'.order[k])
  }

  lemma MetLater(w: Walk, w': Walk, y: string)
    requires Met(w, y) && w.seen <= w'.seen && w.skips <= w'.skips
    ensures Met(w', y)
  {
    if y !in w.seen {
      var k :| 0 <= k < |w.skips| && w.skips[k].target == y;
      assert w'.skips[k].target == y;
    }
  }

  lemma CoversOn(net: Net, w: Walk, m: Walk, w': Walk)
    requires Covers(net, w, m) && Covers(net, m, w')
    ensures Covers(net, w, w')
  {
    forall k | |w.order| <= k < |w'.order|
      ensures Covered(net, w', w'.order[k])
    {
      if k < |m.order| {
        assert Covered(net, m, m.order[k]);
        forall y | Edge(net, w'.order[k], y)
          ensures Met(w', y)
        {
          MetLater(m, w', y);
        }
      }
    }
  }

  lemma {:induction false} TermsCover(net: Net, terms: seq<Term>, depth: nat, w: Walk)
    requires depth <= MAX_DEPTH && WellSeen(w)
    ensures var w' := WalkTerms(net, terms, depth, w);
      && Covers(net, w, w')
      && forall term :: term in terms && term.target.Some? ==> Met(w', term.target.value)
    decreases MAX_DEPTH - depth, |terms|
  {
    if terms == [] {
    } else {
      var m := WalkTerm(net, terms[0], depth, w);
      var w' := WalkTerms(net, terms, depth, w);
      TermCovers(net, terms[0], depth, w);
      TermsCover(net, terms[1..], depth, m);
      CoversOn(net, w, m, w');
      if terms[0].target.Some? {
        MetLater(m, w', terms[0].target.value);
      }
    }
  }

  lemma {:induction false} TermCovers(net: Net, term: Term, depth: nat, w: Walk)
    requires depth <= MAX_DEPTH && WellSeen(w)
    ensures var w' := WalkTerm(net, term, depth, w);
      Covers(net, w, w') && (term.target.Some? ==> Met(w', term.target.value))
    decreases MAX_DEPTH - depth, 0
  {
    var counted := w.(n := w.n + OwnCost(term));
    var w' := WalkTerm(net, term, depth, w);
    match term.target
    case None =>
    case Some(target) =>
      if Follows(counted, target, depth) {
        TargetCovers(net, target, depth, counted);
        var r := WalkTarget(net, target, depth, counted);
        assert w'.seen == r.seen && w'.order == r.order && w'.skips == r.skips;
        SameCover(net, counted, r, w');
      } else {
        assert w'.skips[|w.skips|].target == target;
      }
  }

  lemma SameCover(net: Net, w: Walk, r: Walk, w': Walk)
    requires Covers(net, w, r) && w'.seen == r.seen && w'.order == r.order && w'.skips == r.skips
    ensures Covers(net, w, w')
  {
    forall k | |w.order| <= k < |w'.order|
      ensures Covered(net, w', w'.order[k])
    {
      assert Covered(net, r, r.order[k]);
    }
  }

  lemma {:induction false} TargetCovers(net: Net, target: string, depth: nat, w: Walk)
    requires depth < MAX_DEPTH && WellSeen(w) && target !in w.seen
    ensures Covers(net, w, WalkTarget(net, target, depth, w)) && target in WalkTarget(net, target, depth, w).seen
    decreases MAX_DEPTH - depth - 1, |net(target).terms| + 1
  {
    var v := Enter(net, w, target);
    var terms := net(target).terms;
    var r, w' := WalkTerms(net, terms, depth + 1, v), WalkTarget(net, target, depth, w);
    TermsCover(net, terms, depth + 1, v);
    forall k | |w.order| <= k < |w'.order|
      ensures Covered(net, w', w'.order[k])
    {
      if k > |w.order| {
        assert Covered(net, r, r.order[k]);
      }
    }
  }

  // ----- the whole walk ------------------------------------------------------------------------

  /** Section 4.6.4 of RFC 7208 allows this many lookups. */
  const LOOKUP_LIMIT := 10

  /**
  The total is the root's own lookup terms plus those of each visited target
  that has a record; the targets visited are the visited set, each once.
  */
  lemma LookupTotal(net: Net, domain: string)
    ensures var w := WalkFrom(net, domain);
      && w.n == OwnCosts(net(domain).terms) + TargetCosts(net, w.order)
      && Distinct(w.order) && (forall t :: t in w.seen <==> t in w.order)
  {
    TermsAccount(net, net(domain).terms, 0, Fresh());
    TermsGrow(net, net(domain).terms, 0, Fresh());
  }

  /** The unfolded count of RFC 7208 is the walk's total plus what the skipped includes would have added. */
  lemma UnfoldedIsTotalPlusMissed(net: Net, domain: string)
    ensures var w := WalkFrom(net, domain);
      Unfolded(net, net(domain).terms, 0) == w.n + MissedAll(net, w.skips)
  {
    TermsAccount(net, net(domain).terms, 0, Fresh());
  }

  lemma {:induction false} NothingMissed(net: Net, skips: seq<Skip>)
    ensures MissedAll(net, skips) == 0 <==> forall s :: s in skips ==> Missed(net, s) == 0
  {
    if skips == [] {
    } else {
      var rest, last := skips[..|skips| - 1], skips[|skips| - 1];
      NothingMissed(net, rest);
      assert skips == rest + [last] && last in skips;
      assert forall s :: s in skips <==> s in rest || s == last;
    }
  }

  /**
  The walk's verdict "over the limit" is never wrong, and its total is the
  unfolded count exactly when no skipped include would have cost anything.
  */
  lemma TotalAgainstUnfolded(net: Net, domain: string)
    ensures var w, unfolded := WalkFrom(net, domain), Unfolded(net, net(domain).terms, 0);
      && w.n <= unfolded
      && (w.n > LOOKUP_LIMIT ==> unfolded > LOOKUP_LIMIT)
      && (w.n == unfolded <==> forall s :: s in w.skips ==> Missed(net, s) == 0)
  {
    UnfoldedIsTotalPlusMissed(net, domain);
    NothingMissed(net, WalkFrom(net, domain).skips);
  }

  // ----- when the total is the unfolded count, read off the DNS -----------------------------------

  /** The targets of the unfolding, in the order they stand, cut at the walk's depth. */
  function Tree(net: Net, terms: seq<Term>, depth: nat): seq<string>
    requires depth <= MAX_DEPTH
    decreases MAX_DEPTH - depth, |terms|
  {
    if terms == [] then [] else TreeOf(net, terms[0], depth) + Tree(net, terms[1..], depth)
  }

  function TreeOf(net: Net, term: Term, depth: nat): seq<string>
    requires depth <= MAX_DEPTH
    decreases MAX_DEPTH - depth, 0
  {
    match term.target
    case None => []
    case Some(target) =>
      if depth >= MAX_DEPTH then [] else [target] + Tree(net, net(target).terms, depth + 1)
  }

  /** The record of this name costs something by itself. */
  predicate Costly(net: Net, name: string) {
    OwnCosts(net(name).terms) > 0
  }

  /** No name of the given kind stands twice in the list. */
  ghost predicate Once(kind: string -> bool, tree: seq<string>) {
    forall t :: kind(t) ==> multiset(tree)[t] <= 1
  }

  function IsCostly(net: Net): string -> bool {
    name => Costly(net, name)
  }

  /** No name whose record costs anything stands twice in the list. */
  ghost predicate CostlyOnce(net: Net, tree: seq<string>) {
    Once(IsCostly(net), tree)
  }

  /**
  No include of a costly record stands where its record's unfolded count, that
  include counted, has passed 30; n is the count before these terms.
  */
  predicate StaysBelowCut(net: Net, terms: seq<Term>, depth: nat, n: nat)
    requires depth <= MAX_DEPTH
    decreases MAX_DEPTH - depth, |terms|
  {
    terms == [] ||
    (&& TermBelowCut(net, terms[0], depth, n)
     && StaysBelowCut(net, terms[1..], depth, n + UnfoldedTerm(net, terms[0], depth)))
  }

  predicate TermBelowCut(net: Net, term: Term, depth: nat, n: nat)
    requires depth <= MAX_DEPTH
    decreases MAX_DEPTH - depth, 0
  {
    match term.target
    case None => true
    case Some(target) =>
      depth >= MAX_DEPTH ||
      ((n + OwnCost(term) <= MAX_COUNT || !Costly(net, target)) && StaysBelowCut(net, net(target).terms, depth + 1, 0))
  }

  /** A record without own cost includes nothing. */
  lemma {:induction false} CostlessIsEmpty(net: Net, terms: seq<Term>, depth: nat, n: nat)
    requires depth <= MAX_DEPTH && OwnCosts(terms) == 0
    ensures Unfolded(net, terms, depth) == 0 && Tree(net, terms, depth) == [] && StaysBelowCut(net, terms, depth, n)
    decreases |terms|
  {
    if terms == [] {
    } else {
      CostlessIsEmpty(net, terms[1..], depth, n);
    }
  }

  lemma {:induction false} UnfoldedCovers(net: Net, terms: seq<Term>, depth: nat)
    requires depth <= MAX_DEPTH
    ensures OwnCosts(terms) <= Unfolded(net, terms, depth)
    decreases |terms|
  {
    if terms == [] {
    } else {
      UnfoldedCovers(net, terms[1..], depth);
    }
  }

  /** What the unfolding has at a followed or skipped include is nothing exactly for a record without own cost. */
  lemma MissedIffCostly(net: Net, target: string, depth: nat)
    requires depth < MAX_DEPTH
    ensures Missed(net, Skip(target, depth)) > 0 <==> Costly(net, target)
  {
    if Costly(net, target) {
      UnfoldedCovers(net, net(target).terms, depth + 1);
    } else {
      CostlessIsEmpty(net, net(target).terms, depth + 1, 0);
    }
  }

  /** The targets queried since `before` are, with their multiplicities, among those of the tree. */
  ghost predicate Among(order: seq<string>, before: seq<string>, tree: seq<string>) {
    multiset(order) <= multiset(before) + multiset(tree)
  }

  lemma AmongBoth(a: seq<string>, b: seq<string>, c: seq<string>, first: seq<string>, rest: seq<string>)
    requires Among(b, a, first) && Among(c, b, rest)
    ensures Among(c, a, first + rest)
  {
  }

  lemma AmongFrom(order: seq<string>, before: seq<string>, target: string, sub: seq<string>)
    requires Among(order, before + [target], sub)
    ensures Among(order, before, [target] + sub)
  {
  }

  lemma {:induction false} TermsInTree(net: Net, terms: seq<Term>, depth: nat, w: Walk)
    requires depth <= MAX_DEPTH
    ensures Among(WalkTerms(net, terms, depth, w).order, w.order, Tree(net, terms, depth))
    decreases MAX_DEPTH - depth, |terms|
  {
    if terms == [] {
    } else {
      var m := WalkTerm(net, terms[0], depth, w);
      TermInTree(net, terms[0], depth, w);
      TermsInTree(net, terms[1..], depth, m);
      AmongBoth(w.order, m.order, WalkTerms(net, terms, depth, w).order,
        TreeOf(net, terms[0], depth), Tree(net, terms[1..], depth));
    }
  }

  lemma {:induction false} TermInTree(net: Net, term: Term, depth: nat, w: Walk)
    requires depth <= MAX_DEPTH
    ensures Among(WalkTerm(net, term, depth, w).order, w.order, TreeOf(net, term, depth))
    decreases MAX_DEPTH - depth, 0
  {
    var counted := w.(n := w.n + OwnCost(term));
    if term.target.Some? && Follows(counted, term.target.value, depth) {
      TargetInTree(net, term.target.value, depth, counted);
    } else {
      assert WalkTerm(net, term, depth, w).order == w.order;
    }
  }

  lemma {:induction false} TargetInTree(net: Net, target: string, depth: nat, w: Walk)
    requires depth < MAX_DEPTH
    ensures Among(WalkTarget(net, target, depth, w).order, w.order, [target] + Tree(net, net(target).terms, depth + 1))
    decreases MAX_DEPTH - depth - 1, |net(target).terms| + 1
  {
    var terms, v := net(target).terms, Enter(net, w, target);
    TermsInTree(net, terms, depth + 1, v);
    AmongFrom(WalkTerms(net, terms, depth + 1, v).order, w.order, target, Tree(net, terms, depth + 1));
  }

  /** `before` is the part of the tree the walk has passed. */
  ghost predicate PassedBy(w: Walk, before: seq<string>) {
    WellSeen(w) && forall t :: t in w.seen ==> t in before
  }

  lemma PassedOn(w: Walk, w': Walk, before: seq<string>, tree: seq<string>)
    requires PassedBy(w, before) && WellSeen(w') && Among(w'.order, w.order, tree)
    ensures PassedBy(w', before + tree)
  {
    forall t | t in w'.seen
      ensures t in before + tree
    {
      assert t in w'.order && multiset(w'.order)[t] > 0;
      assert multiset(w.order)[t] > 0 || multiset(tree)[t] > 0;
    }
  }

  lemma OnceInFront(kind: string -> bool, front: seq<string>, back: seq<string>)
    requires Once(kind, front + back)
    ensures Once(kind, front)
  {
    assert forall t :: multiset(front + back)[t] == multiset(front)[t] + multiset(back)[t];
  }

  /** The tree of these terms, the part of the first one apart. */
  lemma TreeCons(net: Net, terms: seq<Term>, depth: nat, before: seq<string>)
    requires depth <= MAX_DEPTH && terms != []
    ensures before + Tree(net, terms, depth) == before + TreeOf(net, terms[0], depth) + Tree(net, terms[1..], depth)
  {
  }

  lemma TreeFrom(net: Net, term: Term, target: string, depth: nat, before: seq<string>)
    requires depth < MAX_DEPTH && term.target == Some(target)
    ensures before + TreeOf(net, term, depth) == before + [target] + Tree(net, net(target).terms, depth + 1)
  {
  }

  lemma {:induction false} TermsExact(net: Net, terms: seq<Term>, depth: nat, w: Walk, before: seq<string>)
    requires depth <= MAX_DEPTH && PassedBy(w, before)
    requires Once(IsCostly(net), before + Tree(net, terms, depth)) && StaysBelowCut(net, terms, depth, w.n)
    ensures WalkTerms(net, terms, depth, w).n == w.n + Unfolded(net, terms, depth)
    decreases MAX_DEPTH - depth, |terms|
  {
    if terms == [] {
    } else {
      var m, first := WalkTerm(net, terms[0], depth, w), TreeOf(net, terms[0], depth);
      TreeCons(net, terms, depth, before);
      OnceInFront(IsCostly(net), before + first, Tree(net, terms[1..], depth));
      TermExact(net, terms[0], depth, w, before);
      TermGrows(net, terms[0], depth, w);
      TermInTree(net, terms[0], depth, w);
      PassedOn(w, m, before, first);
      TermsExact(net, terms[1..], depth, m, before + first);
    }
  }

  lemma {:induction false} TermExact(net: Net, term: Term, depth: nat, w: Walk, before: seq<string>)
    requires depth <= MAX_DEPTH && PassedBy(w, before)
    requires Once(IsCostly(net), before + TreeOf(net, term, depth)) && TermBelowCut(net, term, depth, w.n)
    ensures WalkTerm(net, term, depth, w).n == w.n + UnfoldedTerm(net, term, depth)
    decreases MAX_DEPTH - depth, 0
  {
    var counted := w.(n := w.n + OwnCost(term));
    if term.target.Some? && depth < MAX_DEPTH {
      var target := term.target.value;
      TermAtTarget(net, term, target, depth, w);
      if Follows(counted, target, depth) {
        TreeFrom(net, term, target, depth, before);
        TargetExact(net, target, depth, counted, before);
      } else {
        SkippedIsCostless(net, term, target, depth, w, before);
        MissedIffCostly(net, target, depth);
      }
    } else {
      TermAlone(net, term, depth, w);
    }
  }

  /** What a term with a target adds, to the walk and to the unfolding. */
  lemma TermAtTarget(net: Net, term: Term, target: string, depth: nat, w: Walk)
    requires depth < MAX_DEPTH && term.target == Some(target)
    ensures var counted := w.(n := w.n + OwnCost(term));
      && WalkTerm(net, term, depth, w).n ==
           (if Follows(counted, target, depth) then WalkTarget(net, target, depth, counted).n else counted.n)
      && UnfoldedTerm(net, term, depth) == OwnCost(term) + Missed(net, Skip(target, depth))
      && Missed(net, Skip(target, depth)) == Unfolded(net, net(target).terms, depth + 1)
  {
  }

  lemma TermAlone(net: Net, term: Term, depth: nat, w: Walk)
    requires depth <= MAX_DEPTH && (term.target.None? || depth == MAX_DEPTH)
    ensures WalkTerm(net, term, depth, w).n == w.n + OwnCost(term) && UnfoldedTerm(net, term, depth) == OwnCost(term)
  {
  }

  /** Below the cut an include is skipped because it stood before, or costs nothing. */
  lemma SkippedIsCostless(net: Net, term: Term, target: string, depth: nat, w: Walk, before: seq<string>)
    requires depth < MAX_DEPTH && PassedBy(w, before) && term.target == Some(target)
    requires Once(IsCostly(net), before + TreeOf(net, term, depth)) && TermBelowCut(net, term, depth, w.n)
    requires !Follows(w.(n := w.n + OwnCost(term)), target, depth)
    ensures !Costly(net, target)
  {
    if target in w.seen {
      var sub := Tree(net, net(target).terms, depth + 1);
      assert target in before && multiset(before)[target] >= 1;
      assert multiset(before + ([target] + sub))[target] == multiset(before)[target] + 1 + multiset(sub)[target];
    }
  }

  lemma EnterPassedBy(net: Net, w: Walk, target: string, before: seq<string>)
    requires PassedBy(w, before) && target !in w.seen
    ensures PassedBy(Enter(net, w, target), before + [target])
  {
  }

  lemma {:induction false} TargetExact(net: Net, target: string, depth: nat, w: Walk, before: seq<string>)
    requires depth < MAX_DEPTH && PassedBy(w, before) && target !in w.seen
    requires Once(IsCostly(net), before + [target] + Tree(net, net(target).terms, depth + 1))
    requires StaysBelowCut(net, net(target).terms, depth + 1, 0)
    ensures WalkTarget(net, target, depth, w).n == w.n + Unfolded(net, net(target).terms, depth + 1)
    decreases MAX_DEPTH - depth - 1, |net(target).terms| + 1
  {
    EnterPassedBy(net, w, target, before);
    TermsExact(net, net(target).terms, depth + 1, Enter(net, w, target), before + [target]);
  }

  /** A stretch of the walk never counts more than the unfolding has there. */
  lemma TermsBelowUnfolded(net: Net, terms: seq<Term>, depth: nat, w: Walk)
    requires depth <= MAX_DEPTH && WellSeen(w)
    ensures WalkTerms(net, terms, depth, w).n <= w.n + Unfolded(net, terms, depth)
  {
    TermsAccount(net, terms, depth, w);
    TermsGrow(net, terms, depth, w);
    MissedGrows(net, w.skips, WalkTerms(net, terms, depth, w).skips);
  }

  lemma TermBelowUnfolded(net: Net, term: Term, depth: nat, w: Walk)
    requires depth <= MAX_DEPTH && WellSeen(w)
    ensures WalkTerm(net, term, depth, w).n <= w.n + UnfoldedTerm(net, term, depth)
  {
    TermAccount(net, term, depth, w);
    TermGrows(net, term, depth, w);
    MissedGrows(net, w.skips, WalkTerm(net, term, depth, w).skips);
  }

  lemma {:induction false} MissedGrows(net: Net, skips: seq<Skip>, more: seq<Skip>)
    requires skips <= more
    ensures MissedAll(net, skips) <= MissedAll(net, more)
    decreases |more|
  {
    if skips == more {
    } else {
      MissedGrows(net, skips, more[..|more| - 1]);
    }
  }

  /** If nothing is missed, nothing costly was cut. */
  lemma {:induction false} TermsUncut(net: Net, terms: seq<Term>, depth: nat, w: Walk)
    requires depth <= MAX_DEPTH && WellSeen(w)
    requires WalkTerms(net, terms, depth, w).n == w.n + Unfolded(net, terms, depth)
    ensures StaysBelowCut(net, terms, depth, w.n)
    decreases MAX_DEPTH - depth, |terms|
  {
    if terms == [] {
    } else {
      var m := WalkTerm(net, terms[0], depth, w);
      TermGrows(net, terms[0], depth, w);
      TermBelowUnfolded(net, terms[0], depth, w);
      TermsBelowUnfolded(net, terms[1..], depth, m);
      TermUncut(net, terms[0], depth, w);
      TermsUncut(net, terms[1..], depth, m);
    }
  }

  lemma {:induction false} TermUncut(net: Net, term: Term, depth: nat, w: Walk)
    requires depth <= MAX_DEPTH && WellSeen(w)
    requires WalkTerm(net, term, depth, w).n == w.n + UnfoldedTerm(net, term, depth)
    ensures TermBelowCut(net, term, depth, w.n)
    decreases MAX_DEPTH - depth, 0
  {
    var counted := w.(n := w.n + OwnCost(term));
    match term.target
    case None =>
    case Some(target) =>
      if Follows(counted, target, depth) {
        TermsUncut(net, net(target).terms, depth + 1, Enter(net, counted, target));
      } else if depth < MAX_DEPTH {
        MissedIffCostly(net, target, depth);
        CostlessIsEmpty(net, net(target).terms, depth + 1, 0);
      }
  }

  /** The unfolded count is the root's own cost and that of every target of the tree. */
  lemma {:induction false} UnfoldedIsTree(net: Net, terms: seq<Term>, depth: nat)
    requires depth <= MAX_DEPTH
    ensures Unfolded(net, terms, depth) == OwnCosts(terms) + TargetCosts(net, Tree(net, terms, depth))
    decreases MAX_DEPTH - depth, |terms|
  {
    if terms == [] {
    } else {
      UnfoldedTermIsTree(net, terms[0], depth);
      UnfoldedIsTree(net, terms[1..], depth);
      CostsOfConcat(net, TreeOf(net, terms[0], depth), Tree(net, terms[1..], depth));
    }
  }

  lemma {:induction false} UnfoldedTermIsTree(net: Net, term: Term, depth: nat)
    requires depth <= MAX_DEPTH
    ensures UnfoldedTerm(net, term, depth) == OwnCost(term) + TargetCosts(net, TreeOf(net, term, depth))
    decreases MAX_DEPTH - depth, 0
  {
    match term.target
    case None =>
    case Some(target) =>
      if depth < MAX_DEPTH {
        var sub := Tree(net, net(target).terms, depth + 1);
        UnfoldedIsTree(net, net(target).terms, depth + 1);
        CostsOfConcat(net, [target], sub);
        assert [target][..0] == [];
        assert TargetCosts(net, [target]) == TargetCosts(net, [target][..0]) + OwnCosts(net(target).terms);
      }
  }

  lemma {:induction false} CostsOfConcat(net: Net, a: seq<string>, b: seq<string>)
    ensures TargetCosts(net, a + b) == TargetCosts(net, a) + TargetCosts(net, b)
    decreases |b|
  {
    if b == [] {
      assert a + b == a;
    } else {
      CostsOfConcat(net, a, b[..|b| - 1]);
      assert (a + b)[..|a + b| - 1] == a + b[..|b| - 1];
    }
  }

  /** Taking one occurrence of t out of a list. */
  lemma TakeOut(net: Net, q: seq<string>, t: string) returns (rest: seq<string>)
    requires t in q
    ensures multiset(q) == multiset(rest) + multiset{t}
    ensures TargetCosts(net, q) == TargetCosts(net, rest) + OwnCosts(net(t).terms)
  {
    var i :| 0 <= i < |q| && q[i] == t;
    var a, b := q[..i], q[i + 1..];
    assert q == a + ([t] + b);
    rest := a + b;
    CostsOfConcat(net, a, [t] + b);
    CostsOfConcat(net, [t], b);
    CostsOfConcat(net, a, b);
    assert [t][..0] == [];
    assert TargetCosts(net, [t]) == TargetCosts(net, [t][..0]) + OwnCosts(net(t).terms);
  }

  lemma CancelOne(a: multiset<string>, b: multiset<string>, x: string)
    requires a + multiset{x} <= b + multiset{x}
    ensures a <= b
  {
    assert forall y :: a[y] == (a + multiset{x})[y] - multiset{x}[y] && b[y] == (b + multiset{x})[y] - multiset{x}[y];
  }

  /** A list with the elements of another and one costly element more costs more. */
  lemma {:induction false} FewerCostLess(net: Net, a: seq<string>, b: seq<string>, t: string)
    requires multiset(a) <= multiset(b) && multiset(a)[t] < multiset(b)[t] && Costly(net, t)
    ensures TargetCosts(net, a) < TargetCosts(net, b)
    decreases |a|
  {
    if a == [] {
      assert t in multiset(b);
      var rest := TakeOut(net, b, t);
    } else {
      var init, last := a[..|a| - 1], a[|a| - 1];
      assert a == init + [last];
      assert last in multiset(b);
      var rest := TakeOut(net, b, last);
      assert multiset(a) == multiset(init) + multiset{last};
      CancelOne(multiset(init), multiset(rest), last);
      FewerCostLess(net, init, rest, t);
    }
  }

  lemma {:induction false} DistinctOnce(q: seq<string>, t: string)
    requires Distinct(q)
    ensures multiset(q)[t] <= 1
    decreases |q|
  {
    if q == [] {
    } else {
      DistinctOnce(q[..|q| - 1], t);
      assert q == q[..|q| - 1] + [q[|q| - 1]];
    }
  }

  /**
  On every DNS snapshot the walk's total is the unfolded count if and only if
  no costly target occurs twice in the unfolding and no include of a costly
  target stands beyond the cut at 30.
  */
  lemma TotalIsUnfoldedIff(net: Net, domain: string)
    ensures var terms := net(domain).terms;
      WalkFrom(net, domain).n == Unfolded(net, terms, 0)
      <==> CostlyOnce(net, Tree(net, terms, 0)) && StaysBelowCut(net, terms, 0, 0)
  {
    var terms, w := net(domain).terms, WalkFrom(net, domain);
    var tree := Tree(net, terms, 0);
    if CostlyOnce(net, tree) && StaysBelowCut(net, terms, 0, 0) {
      assert [] + tree == tree;
      TermsExact(net, terms, 0, Fresh(), []);
    }
    if w.n == Unfolded(net, terms, 0) {
      TermsUncut(net, terms, 0, Fresh());
      LookupTotal(net, domain);
      UnfoldedIsTree(net, terms, 0);
      TermsInTree(net, terms, 0, Fresh());
      forall t | Costly(net, t)
        ensures multiset(tree)[t] <= 1
      {
        DistinctOnce(w.order, t);
        if multiset(tree)[t] > 1 {
          FewerCostLess(net, w.order, tree, t);
        }
      }
    }
  }

  lemma {:induction false} SmallStaysBelowCut(net: Net, terms: seq<Term>, depth: nat, n: nat)
    requires depth <= MAX_DEPTH && n + Unfolded(net, terms, depth) <= MAX_COUNT
    ensures StaysBelowCut(net, terms, depth, n)
    decreases MAX_DEPTH - depth, |terms|
  {
    if terms == [] {
    } else {
      SmallStaysBelowCut(net, terms[1..], depth, n + UnfoldedTerm(net, terms[0], depth));
      if terms[0].target.Some? && depth < MAX_DEPTH {
        SmallStaysBelowCut(net, net(terms[0].target.value).terms, depth + 1, 0);
      }
    }
  }

  /**
  Up to an unfolded count of 30 repetition of a costly target is the only thing
  that can make the total fall short.
  */
  lemma Within30RepetitionDecides(net: Net, domain: string)
    requires Unfolded(net, net(domain).terms, 0) <= MAX_COUNT
    ensures WalkFrom(net, domain).n == Unfolded(net, net(domain).terms, 0)
      <==> CostlyOnce(net, Tree(net, net(domain).terms, 0))
  {
    SmallStaysBelowCut(net, net(domain).terms, 0, 0);
    TotalIsUnfoldedIff(net, domain);
  }

  /** With no target met twice in the unfolding and no cut at 30, the total is the unfolded count. */
  lemma NoRepeatNoCut(net: Net, domain: string)
    requires Distinct(Tree(net, net(domain).terms, 0)) && StaysBelowCut(net, net(domain).terms, 0, 0)
    ensures WalkFrom(net, domain).n == Unfolded(net, net(domain).terms, 0)
  {
    forall t
      ensures multiset(Tree(net, net(domain).terms, 0))[t] <= 1
    {
      DistinctOnce(Tree(net, net(domain).terms, 0), t);
    }
    TotalIsUnfoldedIff(net, domain);
  }

  // ----- a record over the limit that passes -------------------------------------------------------

  /** In this net, `domain` includes `sender` twice and nothing else; the sender's record has six mechanisms. */
  predicate IncludesTwice(net: Net, domain: string, sender: string) {
    && net(domain).terms == [Term(0, Some(sender), false), Term(0, Some(sender), false)]
    && net(sender) == Node(true, seq(6, _ => Term(1, None, false)))
  }

  /** Counted 8, unfolded 14. */
  lemma TwiceCountsOnce(net: Net, domain: string, sender: string)
    requires IncludesTwice(net, domain, sender)
    ensures WalkFrom(net, domain).n == 8 && Unfolded(net, net(domain).terms, 0) == 14
  {
    var incl := Term(0, Some(sender), false);
    MechanismCosts(6);
    PlainTerms(net, net(sender).terms, 1, Enter(net, Fresh().(n := 1), sender));
    PlainUnfolds(net, net(sender).terms, 1);
    TwoTerms(net, incl, incl, 0, Fresh());
  }

  /** A name without spaces, capitals and macros. */
  predicate PlainName(name: string) {
    name != "" && forall c :: c in name ==> !IsSpace(c) && c != '%' && !('A' <= c <= 'Z')
  }

  function DomainWords(sender: string): seq<string> {
    ["v=spf1", "include:" + sender, "include:" + sender]
  }

  const SENDER_WORDS: seq<string> := ["v=spf1"] + seq(6, _ => "mx")

  /** A snapshot with two TXT strings: the domain's record and the sender's. */
  function TwiceIncluded(domain: string, sender: string): Dns {
    name =>
      if name == domain then [Joined(DomainWords(sender))]
      else if name == sender then [Joined(SENDER_WORDS)]
      else []
  }

  lemma ParseInclude(sender: string, name: string)
    requires PlainName(sender)
    ensures ParseTerm("include:" + sender, name) == Term(0, Some(sender), false)
  {
    var t := "include:" + sender;
    LowerInclude(sender);
    assert t[0] == 'i' && t[..7] == "include" && t[7] == ':' && t[8..] == sender;
    NoMacro(sender, name);
  }

  lemma LowerInclude(sender: string)
    requires PlainName(sender)
    ensures Lower("include:" + sender) == "include:" + sender
  {
    var t := "include:" + sender;
    assert forall k :: 8 <= k < |t| ==> t[k] in sender;
  }

  lemma ParseMx(name: string)
    ensures ParseTerm("mx", name) == Term(1, None, false)
  {
    assert Lower("mx") == "mx";
  }

  /** A record whose first word is the version, in a one-string TXT list. */
  lemma OneRecord(dns: Dns, name: string, words: seq<string>)
    requires |words| >= 2 && words[0] == "v=spf1" && AreWords(words) && dns(name) == [Joined(words)]
    ensures NetOf(dns)(name) == Node(true, ParseTerms(words[1..], name))
  {
    var rec := Joined(words);
    assert rec == "v=spf1 " + Joined(words[1..]);
    assert Lower(rec)[..7] == "v=spf1 " by {
      assert forall k :: 0 <= k < 7 ==> rec[k] == "v=spf1 "[k] && LowerChar(rec[k]) == rec[k];
    }
    FieldsOfJoined(words);
  }

  lemma DomainRecord(dns: Dns, domain: string, sender: string)
    requires PlainName(sender) && dns(domain) == [Joined(DomainWords(sender))]
    ensures NetOf(dns)(domain).terms == [Term(0, Some(sender), false), Term(0, Some(sender), false)]
  {
    var words := DomainWords(sender);
    assert forall c :: c in "include:" + sender ==> c in "include:" || c in sender;
    assert forall c :: c in "include:" || c in "v=spf1" ==> !IsSpace(c);
    OneRecord(dns, domain, words);
    ParseInclude(sender, domain);
    assert words[1..] == ["include:" + sender, "include:" + sender];
  }

  lemma {:induction false} ParseSame(field: string, n: nat, name: string)
    ensures ParseTerms(seq(n, _ => field), name) == seq(n, _ => ParseTerm(field, name))
  {
    if n == 0 {
    } else {
      ParseSame(field, n - 1, name);
      assert seq(n, _ => field)[1..] == seq(n - 1, _ => field);
    }
  }

  lemma SenderWordsAreWords()
    ensures AreWords(SENDER_WORDS)
  {
    assert forall w :: w in SENDER_WORDS ==> w == "v=spf1" || w == "mx";
    assert forall c :: c in "v=spf1" || c in "mx" ==> !IsSpace(c);
  }

  lemma SenderRecord(dns: Dns, sender: string)
    requires dns(sender) == [Joined(SENDER_WORDS)]
    ensures NetOf(dns)(sender) == Node(true, seq(6, _ => Term(1, None, false)))
  {
    SenderWordsAreWords();
    OneRecord(dns, sender, SENDER_WORDS);
    assert SENDER_WORDS[1..] == seq(6, _ => "mx");
    ParseSame("mx", 6, sender);
    ParseMx(sender);
  }

  /**
  A record over the limit passes: on this snapshot a domain that includes one
  sender with six mechanisms twice is counted 8, and unfolds to 14.
  */
  lemma RepeatedIncludePasses(domain: string, sender: string)
    requires domain != sender && PlainName(sender)
    ensures var net := NetOf(TwiceIncluded(domain, sender));
      WalkFrom(net, domain).n == 8 <= LOOKUP_LIMIT < 14 == Unfolded(net, net(domain).terms, 0)
  {
    var dns := TwiceIncluded(domain, sender);
    DomainRecord(dns, domain, sender);
    SenderRecord(dns, sender);
    TwiceCountsOnce(NetOf(dns), domain, sender);
  }

  lemma TwoTerms(net: Net, a: Term, b: Term, depth: nat, w: Walk)
    requires depth <= MAX_DEPTH
    ensures WalkTerms(net, [a, b], depth, w) == WalkTerm(net, b, depth, WalkTerm(net, a, depth, w))
    ensures Unfolded(net, [a, b], depth) == UnfoldedTerm(net, a, depth) + UnfoldedTerm(net, b, depth)
  {
    assert [a, b][1..] == [b] && [b][1..] == [];
    var m := WalkTerm(net, a, depth, w);
    assert WalkTerms(net, [b], depth, m) == WalkTerm(net, b, depth, m);
    assert Unfolded(net, [b], depth) == UnfoldedTerm(net, b, depth);
  }

  lemma {:induction false} MechanismCosts(n: nat)
    ensures OwnCosts(seq(n, _ => Term(1, None, false))) == n
  {
    if n == 0 {
    } else {
      MechanismCosts(n - 1);
      assert seq(n, _ => Term(1, None, false))[1..] == seq(n - 1, _ => Term(1, None, false));
    }
  }

  lemma {:induction false} PlainTerms(net: Net, terms: seq<Term>, depth: nat, w: Walk)
    requires depth <= MAX_DEPTH && forall t :: t in terms ==> t.target.None? && !t.ptr
    ensures WalkTerms(net, terms, depth, w) == w.(n := w.n + OwnCosts(terms))
    decreases |terms|
  {
    if terms == [] {
    } else {
      assert terms[0] in terms;
      PlainTerms(net, terms[1..], depth, WalkTerm(net, terms[0], depth, w));
    }
  }

  lemma {:induction false} PlainUnfolds(net: Net, terms: seq<Term>, depth: nat)
    requires depth <= MAX_DEPTH && forall t :: t in terms ==> t.target.None?
    ensures Unfolded(net, terms, depth) == OwnCosts(terms)
    decreases |terms|
  {
    if terms == [] {
    } else {
      assert terms[0] in terms;
      PlainUnfolds(net, terms[1..], depth);
    }
  }

  /**
  The walk ends on every DNS snapshot, cyclic or not, after at most 180 TXT
  queries: 30 for each of the six levels a call can be at.
  */
  lemma AtMost180Queries(net: Net, domain: string)
    ensures |WalkFrom(net, domain).order| <= 180
  {
    TermsAsk(net, net(domain).terms, 0, Fresh(), 0);
  }

  lemma PathPrefix(net: Net, p: seq<string>, q: seq<string>)
    requires IsPath(net, p) && q <= p
    ensures IsPath(net, q)
  {
    forall k | 0 <= k < |q| - 1
      ensures Edge(net, q[k], q[k + 1])
    {
      assert q[k] == p[k] && q[k + 1] == p[k + 1];
    }
  }

  lemma {:induction false} PathStaysSeen(net: Net, domain: string, p: seq<string>)
    requires var w := WalkFrom(net, domain); forall s :: s in w.skips ==> s.target in w.seen
    requires |p| >= 2 && p[0] == domain && IsPath(net, p)
    ensures p[|p| - 1] in WalkFrom(net, domain).seen
    decreases |p|
  {
    var w, k := WalkFrom(net, domain), |p| - 2;
    TermsCover(net, net(domain).terms, 0, Fresh());
    assert Edge(net, p[k], p[k + 1]);
    if k == 0 {
    } else {
      PathPrefix(net, p, p[..k + 1]);
      PathStaysSeen(net, domain, p[..k + 1]);
      assert p[k] in w.order;
      var at :| 0 <= at < |w.order| && w.order[at] == p[k];
      assert Covered(net, w, w.order[at]);
    }
    assert Met(w, p[k + 1]);
  }

  /**
  The visited set is exactly the set of include and redirect targets
  reachable from the domain, cycles included, if and only if every skipped
  target was visited at some other place.
  */
  lemma VisitsExactlyTheReachable(net: Net, domain: string)
    ensures var w := WalkFrom(net, domain);
      (forall y :: y in w.seen <==> Reaches(net, domain, y)) <==> (forall s :: s in w.skips ==> s.target in w.seen)
  {
    var w := WalkFrom(net, domain);
    TermsOnlyReach(net, domain, domain, net(domain).terms, 0, Fresh());
    TermsGrow(net, net(domain).terms, 0, Fresh());
    assert forall y :: y in w.seen ==> y in w.order && Reaches(net, domain, y);
    if forall s :: s in w.skips ==> s.target in w.seen {
      forall y | Reaches(net, domain, y)
        ensures y in w.seen
      {
        var p :| |p| >= 2 && p[0] == domain && p[|p| - 1] == y && IsPath(net, p);
        PathStaysSeen(net, domain, p);
      }
    }
  }

  /** A total of at most 30 leaves depth as the only reason for a target to be missing. */
  lemma CompleteWithin30(net: Net, domain: string)
    requires var w := WalkFrom(net, domain);
      w.n <= MAX_COUNT && forall s :: s in w.skips && s.depth >= MAX_DEPTH ==> s.target in w.seen
    ensures forall y :: y in WalkFrom(net, domain).seen <==> Reaches(net, domain, y)
  {
    TermsGrow(net, net(domain).terms, 0, Fresh());
    VisitsExactlyTheReachable(net, domain);
  }

  // ----- completeness, read off the DNS --------------------------------------------------------

  /** The targets that the unfolding names at the depth where the walk no longer follows. */
  function Beyond(net: Net, terms: seq<Term>, depth: nat): seq<string>
    requires depth <= MAX_DEPTH
    decreases MAX_DEPTH - depth, |terms|
  {
    if terms == [] then [] else BeyondOf(net, terms[0], depth) + Beyond(net, terms[1..], depth)
  }

  function BeyondOf(net: Net, term: Term, depth: nat): seq<string>
    requires depth <= MAX_DEPTH
    decreases MAX_DEPTH - depth, 0
  {
    match term.target
    case None => []
    case Some(target) => if depth >= MAX_DEPTH then [target] else Beyond(net, net(target).terms, depth + 1)
  }

  predicate SkippedIn(w: Walk, target: string) {
    exists k :: 0 <= k < |w.skips| && w.skips[k].target == target
  }

  /** What the walk has met of these terms: their whole tree, and beyond it what it had to skip. */
  ghost predicate MeetsAll(w: Walk, tree: seq<string>, beyond: seq<string>) {
    (forall t :: t in tree ==> t in w.seen) && (forall t :: t in beyond ==> SkippedIn(w, t))
  }

  lemma MeetsLater(w: Walk, w': Walk, tree: seq<string>, beyond: seq<string>)
    requires MeetsAll(w, tree, beyond) && w.seen <= w'.seen && w.skips <= w'.skips
    ensures MeetsAll(w', tree, beyond)
  {
    forall t | t in beyond
      ensures SkippedIn(w', t)
    {
      var k :| 0 <= k < |w.skips| && w.skips[k].target == t;
      assert w'.skips[k].target == t;
    }
  }

  lemma MeetsBoth(w: Walk, a: seq<string>, b: seq<string>, c: seq<string>, d: seq<string>)
    requires MeetsAll(w, a, b) && MeetsAll(w, c, d)
    ensures MeetsAll(w, a + c, b + d)
  {
  }

  /** Where no costly target repeats and nothing is cut at 30, the walk goes through the whole unfolding. */
  lemma {:induction false} TermsMeetAll(net: Net, terms: seq<Term>, depth: nat, w: Walk, before: seq<string>)
    requires depth <= MAX_DEPTH && PassedBy(w, before)
    requires Once(IsCostly(net), before + Tree(net, terms, depth))
    requires w.n + Unfolded(net, terms, depth) <= MAX_COUNT
    ensures MeetsAll(WalkTerms(net, terms, depth, w), Tree(net, terms, depth), Beyond(net, terms, depth))
    decreases MAX_DEPTH - depth, |terms|
  {
    if terms == [] {
    } else {
      var m, w' := WalkTerm(net, terms[0], depth, w), WalkTerms(net, terms, depth, w);
      var first := TreeOf(net, terms[0], depth);
      TreeCons(net, terms, depth, before);
      OnceInFront(IsCostly(net), before + first, Tree(net, terms[1..], depth));
      TermBelowUnfolded(net, terms[0], depth, w);
      TermMeetsAll(net, terms[0], depth, w, before);
      TermGrows(net, terms[0], depth, w);
      TermInTree(net, terms[0], depth, w);
      PassedOn(w, m, before, first);
      TermsMeetAll(net, terms[1..], depth, m, before + first);
      TermsGrow(net, terms[1..], depth, m);
      MeetsLater(m, w', first, BeyondOf(net, terms[0], depth));
      MeetsBoth(w', first, BeyondOf(net, terms[0], depth),
        Tree(net, terms[1..], depth), Beyond(net, terms[1..], depth));
    }
  }

  lemma {:induction false} TermMeetsAll(net: Net, term: Term, depth: nat, w: Walk, before: seq<string>)
    requires depth <= MAX_DEPTH && PassedBy(w, before)
    requires Once(IsCostly(net), before + TreeOf(net, term, depth))
    requires w.n + UnfoldedTerm(net, term, depth) <= MAX_COUNT
    ensures MeetsAll(WalkTerm(net, term, depth, w), TreeOf(net, term, depth), BeyondOf(net, term, depth))
    decreases MAX_DEPTH - depth, 0
  {
    var counted, w' := w.(n := w.n + OwnCost(term)), WalkTerm(net, term, depth, w);
    if term.target.Some? {
      var target := term.target.value;
      if depth >= MAX_DEPTH {
        assert w'.skips[|w.skips|].target == target;
      } else if Follows(counted, target, depth) {
        TreeFrom(net, term, target, depth, before);
        TermAtTarget(net, term, target, depth, w);
        TargetMeetsAll(net, target, depth, counted, before);
        var r := WalkTarget(net, target, depth, counted);
        assert w'.seen == r.seen && w'.skips == r.skips;
        MeetsLater(r, w', TreeOf(net, term, depth), BeyondOf(net, term, depth));
      } else {
        SeenIsCostless(net, term, target, depth, w, before);
        CostlessMeets(net, term, target, depth, w');
      }
    }
  }

  /** Within 30 an include is skipped only because it stood before. */
  lemma SeenIsCostless(net: Net, term: Term, target: string, depth: nat, w: Walk, before: seq<string>)
    requires depth < MAX_DEPTH && PassedBy(w, before) && term.target == Some(target)
    requires Once(IsCostly(net), before + TreeOf(net, term, depth))
    requires w.n + UnfoldedTerm(net, term, depth) <= MAX_COUNT
    requires !Follows(w.(n := w.n + OwnCost(term)), target, depth)
    ensures target in w.seen && !Costly(net, target)
  {
    var sub := Tree(net, net(target).terms, depth + 1);
    assert target in before && multiset(before)[target] >= 1;
    assert multiset(before + ([target] + sub))[target] == multiset(before)[target] + 1 + multiset(sub)[target];
    assert !IsCostly(net)(target);
  }

  lemma CostlessMeets(net: Net, term: Term, target: string, depth: nat, w: Walk)
    requires depth < MAX_DEPTH && term.target == Some(target) && target in w.seen && !Costly(net, target)
    ensures MeetsAll(w, TreeOf(net, term, depth), BeyondOf(net, term, depth))
  {
    CostlessIsEmpty(net, net(target).terms, depth + 1, 0);
    NothingBeyond(net, net(target).terms, depth + 1);
  }

  lemma {:induction false} NothingBeyond(net: Net, terms: seq<Term>, depth: nat)
    requires depth <= MAX_DEPTH && OwnCosts(terms) == 0
    ensures Beyond(net, terms, depth) == []
    decreases |terms|
  {
    if terms == [] {
    } else {
      NothingBeyond(net, terms[1..], depth);
    }
  }

  lemma MeetsFrom(w: Walk, w': Walk, target: string, tree: seq<string>, beyond: seq<string>)
    requires MeetsAll(w, tree, beyond) && target in w.seen && w'.seen == w.seen && w'.skips == w.skips
    ensures MeetsAll(w', [target] + tree, beyond)
  {
    MeetsLater(w, w', tree, beyond);
  }

  /** The nested count, on which the target itself is marked, is all that a followed target changes in these. */
  lemma TargetIsSeen(net: Net, target: string, depth: nat, w: Walk)
    requires depth < MAX_DEPTH && WellSeen(w) && target !in w.seen
    ensures var w' := WalkTarget(net, target, depth, w);
      var r := WalkTerms(net, net(target).terms, depth + 1, Enter(net, w, target));
      w'.seen == r.seen && w'.skips == r.skips && target in r.seen
  {
    TermsGrow(net, net(target).terms, depth + 1, Enter(net, w, target));
  }

  lemma {:induction false} TargetMeetsAll(net: Net, target: string, depth: nat, w: Walk, before: seq<string>)
    requires depth < MAX_DEPTH && PassedBy(w, before) && target !in w.seen
    requires Once(IsCostly(net), before + [target] + Tree(net, net(target).terms, depth + 1))
    requires Unfolded(net, net(target).terms, depth + 1) <= MAX_COUNT
    ensures MeetsAll(WalkTarget(net, target, depth, w),
      [target] + Tree(net, net(target).terms, depth + 1), Beyond(net, net(target).terms, depth + 1))
    decreases MAX_DEPTH - depth - 1, |net(target).terms| + 1
  {
    var terms, v := net(target).terms, Enter(net, w, target);
    EnterPassedBy(net, w, target, before);
    TermsMeetAll(net, terms, depth + 1, v, before + [target]);
    TargetIsSeen(net, target, depth, w);
    MeetsFrom(WalkTerms(net, terms, depth + 1, v), WalkTarget(net, target, depth, w), target,
      Tree(net, terms, depth + 1), Beyond(net, terms, depth + 1));
  }

  /** An include skipped at the last depth is one beyond the tree. */
  lemma {:induction false} TermsSkipBeyond(net: Net, terms: seq<Term>, depth: nat, w: Walk, k: nat)
    requires depth <= MAX_DEPTH && WellSeen(w)
    requires var w' := WalkTerms(net, terms, depth, w);
      |w.skips| <= k < |w'.skips| && w'.skips[k].depth >= MAX_DEPTH
    ensures WalkTerms(net, terms, depth, w).skips[k].target in Beyond(net, terms, depth)
    decreases MAX_DEPTH - depth, |terms|
  {
    if terms == [] {
    } else {
      var m := WalkTerm(net, terms[0], depth, w);
      TermGrows(net, terms[0], depth, w);
      TermsGrow(net, terms[1..], depth, m);
      if k < |m.skips| {
        TermSkipsBeyond(net, terms[0], depth, w, k);
      } else {
        TermsSkipBeyond(net, terms[1..], depth, m, k);
      }
    }
  }

  lemma {:induction false} TermSkipsBeyond(net: Net, term: Term, depth: nat, w: Walk, k: nat)
    requires depth <= MAX_DEPTH && WellSeen(w)
    requires var w' := WalkTerm(net, term, depth, w);
      |w.skips| <= k < |w'.skips| && w'.skips[k].depth >= MAX_DEPTH
    ensures WalkTerm(net, term, depth, w).skips[k].target in BeyondOf(net, term, depth)
    decreases MAX_DEPTH - depth, 0
  {
    var counted := w.(n := w.n + OwnCost(term));
    if term.target.Some? && Follows(counted, term.target.value, depth) {
      var target := term.target.value;
      TermsSkipBeyond(net, net(target).terms, depth + 1, Enter(net, counted, target), k);
    }
  }

  /**
  Up to an unfolded count of 30 and without repetition of a costly target, all
  read off the DNS: the visited set is the tree, and it is exactly the set of
  reachable targets if and only if every target named at the last depth also
  stands in the tree.
  */
  lemma CompleteIffNothingNewBeyond(net: Net, domain: string)
    requires var terms := net(domain).terms;
      Unfolded(net, terms, 0) <= MAX_COUNT && CostlyOnce(net, Tree(net, terms, 0))
    ensures var terms, seen := net(domain).terms, WalkFrom(net, domain).seen;
      && (forall y :: y in seen <==> y in Tree(net, terms, 0))
      && ((forall y :: y in seen <==> Reaches(net, domain, y))
          <==> forall t :: t in Beyond(net, terms, 0) ==> t in Tree(net, terms, 0))
  {
    var terms, w := net(domain).terms, WalkFrom(net, domain);
    var tree := Tree(net, terms, 0);
    assert [] + tree == tree;
    TermsMeetAll(net, terms, 0, Fresh(), []);
    TermsGrow(net, terms, 0, Fresh());
    TermsInTree(net, terms, 0, Fresh());
    PassedOn(Fresh(), w, [], tree);
    SkipsAreSeenOrBeyond(net, domain);
    VisitsExactlyTheReachable(net, domain);
    SeenIffNothingNew(net, w, tree, Beyond(net, terms, 0));
  }

  lemma SkipsAreSeenOrBeyond(net: Net, domain: string)
    requires Unfolded(net, net(domain).terms, 0) <= MAX_COUNT
    ensures var w := WalkFrom(net, domain);
      forall s :: s in w.skips ==> s.target in w.seen || s.target in Beyond(net, net(domain).terms, 0)
  {
    var terms, w := net(domain).terms, WalkFrom(net, domain);
    TermsGrow(net, terms, 0, Fresh());
    TermsBelowUnfolded(net, terms, 0, Fresh());
    forall k | 0 <= k < |w.skips|
      ensures w.skips[k].target in w.seen || w.skips[k].target in Beyond(net, terms, 0)
    {
      if w.skips[k].depth >= MAX_DEPTH {
        TermsSkipBeyond(net, terms, 0, Fresh(), k);
      }
    }
  }

  lemma SeenIffNothingNew(net: Net, w: Walk, tree: seq<string>, beyond: seq<string>)
    requires MeetsAll(w, tree, beyond) && forall y :: y in w.seen ==> y in tree
    requires forall s :: s in w.skips ==> s.target in w.seen || s.target in beyond
    ensures (forall s :: s in w.skips ==> s.target in w.seen) <==> forall t :: t in beyond ==> t in tree
  {
    if forall s :: s in w.skips ==> s.target in w.seen {
      forall t | t in beyond
        ensures t in tree
      {
        var k :| 0 <= k < |w.skips| && w.skips[k].target == t;
        assert w.skips[k] in w.skips;
      }
    }
  }

  // ----- the issues met on the way --------------------------------------------------------------

  predicate HasPtr(terms: seq<Term>) {
    exists k :: 0 <= k < |terms| && terms[k].ptr
  }

  /** Some target visited between w and w' has ptr in its record. */
  ghost predicate NewPtr(net: Net, w: Walk, w': Walk) {
    exists t :: t in w'.seen && t !in w.seen && HasPtr(net(t).terms)
  }

  predicate NewlyMissing(net: Net, w: Walk, w': Walk, t: string) {
    t in w'.seen && t !in w.seen && !net(t).found
  }

  /**
  A stretch of the walk over terms with ptr among them or not: a missing record
  is reported exactly for the newly visited targets that have none, ptr exactly
  when these terms or those of a newly visited target have it.
  */
  ghost predicate Reports(net: Net, w: Walk, w': Walk, ptr: bool) {
    && w.seen <= w'.seen
    && (forall t :: NoRecordAt(t) in w'.issues <==> NoRecordAt(t) in w.issues || NewlyMissing(net, w, w', t))
    && (PtrDeprecated in w'.issues <==> PtrDeprecated in w.issues || ptr || NewPtr(net, w, w'))
  }

  lemma ReportsBoth(net: Net, w: Walk, m: Walk, w': Walk, a: bool, b: bool)
    requires Reports(net, w, m, a) && Reports(net, m, w', b)
    ensures Reports(net, w, w', a || b)
  {
    forall t
      ensures NewlyMissing(net, w, w', t) <==> NewlyMissing(net, w, m, t) || NewlyMissing(net, m, w', t)
    {
    }
    if NewPtr(net, w, w') {
      var t :| t in w'.seen && t !in w.seen && HasPtr(net(t).terms);
      assert if t in m.seen then NewPtr(net, w, m) else NewPtr(net, m, w');
    }
  }

  lemma HasPtrCons(terms: seq<Term>)
    requires terms != []
    ensures HasPtr(terms) <==> terms[0].ptr || HasPtr(terms[1..])
  {
    if HasPtr(terms) && !terms[0].ptr {
      var k :| 0 <= k < |terms| && terms[k].ptr;
      assert terms[1..][k - 1].ptr;
    }
    if HasPtr(terms[1..]) {
      var k :| 0 <= k < |terms[1..]| && terms[1..][k].ptr;
      assert terms[k + 1].ptr;
    }
  }

  lemma {:induction false} TermsReport(net: Net, terms: seq<Term>, depth: nat, w: Walk)
    requires depth <= MAX_DEPTH
    ensures Reports(net, w, WalkTerms(net, terms, depth, w), HasPtr(terms))
    decreases MAX_DEPTH - depth, |terms|
  {
    if terms == [] {
    } else {
      var m := WalkTerm(net, terms[0], depth, w);
      TermReports(net, terms[0], depth, w);
      TermsReport(net, terms[1..], depth, m);
      ReportsBoth(net, w, m, WalkTerms(net, terms, depth, w), terms[0].ptr, HasPtr(terms[1..]));
      HasPtrCons(terms);
    }
  }

  /** The ptr issue of a term comes after what the term's target brings. */
  lemma ReportsPtr(net: Net, w: Walk, m: Walk, w': Walk, ptr: bool)
    requires Reports(net, w, m, false) && w'.seen == m.seen
    requires w'.issues == m.issues + if ptr then [PtrDeprecated] else []
    ensures Reports(net, w, w', ptr)
  {
    assert NewPtr(net, w, w') <==> NewPtr(net, w, m);
    assert forall t :: NewlyMissing(net, w, w', t) <==> NewlyMissing(net, w, m, t);
  }

  lemma {:induction false} TermReports(net: Net, term: Term, depth: nat, w: Walk)
    requires depth <= MAX_DEPTH
    ensures Reports(net, w, WalkTerm(net, term, depth, w), term.ptr)
    decreases MAX_DEPTH - depth, 0
  {
    var counted := w.(n := w.n + OwnCost(term));
    if term.target.Some? && Follows(counted, term.target.value, depth) {
      TargetReports(net, term.target.value, depth, counted);
      SameStart(net, w, counted, WalkTarget(net, term.target.value, depth, counted));
      ReportsPtr(net, w, WalkTarget(net, term.target.value, depth, counted), WalkTerm(net, term, depth, w), term.ptr);
    } else {
      assert Reports(net, w, w, false);
      ReportsPtr(net, w, w, WalkTerm(net, term, depth, w), term.ptr);
    }
  }

  lemma SameStart(net: Net, w: Walk, v: Walk, w': Walk)
    requires Reports(net, v, w', false) && v.seen == w.seen && v.issues == w.issues
    ensures Reports(net, w, w', false)
  {
    assert NewPtr(net, w, w') <==> NewPtr(net, v, w');
    assert forall t :: NewlyMissing(net, w, w', t) <==> NewlyMissing(net, v, w', t);
  }

  lemma {:induction false} TargetReports(net: Net, target: string, depth: nat, w: Walk)
    requires depth < MAX_DEPTH && target !in w.seen
    ensures Reports(net, w, WalkTarget(net, target, depth, w), false)
    decreases MAX_DEPTH - depth - 1, |net(target).terms| + 1
  {
    var v, w' := Enter(net, w, target), WalkTarget(net, target, depth, w);
    var r := WalkTerms(net, net(target).terms, depth + 1, v);
    TermsReport(net, net(target).terms, depth + 1, v);
    EnterReports(net, w, v, r, w', target);
  }

  lemma EnterReports(net: Net, w: Walk, v: Walk, r: Walk, w': Walk, target: string)
    requires target !in w.seen && v == Enter(net, w, target) && w'.seen == r.seen && w'.issues == r.issues
    requires Reports(net, v, r, HasPtr(net(target).terms))
    ensures Reports(net, w, w', false)
  {
    assert forall t :: NoRecordAt(t) in v.issues <==> NoRecordAt(t) in w.issues || (t == target && !net(t).found);
    assert forall t :: NewlyMissing(net, w, w', t) <==> NewlyMissing(net, v, r, t) || (t == target && !net(t).found);
    if NewPtr(net, w, w') {
      var t :| t in w'.seen && t !in w.seen && HasPtr(net(t).terms);
      assert t != target ==> t in r.seen && t !in v.seen;
    }
    if NewPtr(net, v, r) {
      var t :| t in r.seen && t !in v.seen && HasPtr(net(t).terms);
      assert t in w'.seen && t !in w.seen;
    }
  }

  /**
  The issues of the whole walk: a missing record is reported exactly for the
  visited targets that have none, and ptr exactly when it stands in the
  domain's record or in that of a visited target.
  */
  lemma WalkReports(net: Net, domain: string)
    ensures var w := WalkFrom(net, domain);
      && (forall t :: NoRecordAt(t) in w.issues <==> t in w.seen && !net(t).found)
      && (PtrDeprecated in w.issues <==>
            HasPtr(net(domain).terms) || exists t :: t in w.seen && HasPtr(net(t).terms))
  {
    TermsReport(net, net(domain).terms, 0, Fresh());
    var w := WalkFrom(net, domain);
    assert forall t :: NewlyMissing(net, Fresh(), w, t) <==> t in w.seen && !net(t).found;
  }
}
