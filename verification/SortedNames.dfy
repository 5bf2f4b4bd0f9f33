/** sort.Strings over the keys of a map: one order, whatever order the map is iterated in. */
module SortedNames {

  /** Go's < on strings. */
  predicate Less(a: string, b: string) {
    b != [] && (a == [] || a[0] < b[0] || (a[0] == b[0] && Less(a[1..], b[1..])))
  }

  /** a and b agree up to k, and there a ends or has the smaller character. */
  predicate SmallerAt(a: string, b: string, k: nat) {
    && k <= |a| && k < |b| && (k == |a| || a[k] < b[k])
    && forall i :: 0 <= i < k ==> a[i] == b[i]
  }

  /** That order is the lexicographic one. */
  lemma {:induction false} LessIsLexicographic(a: string, b: string)
    ensures Less(a, b) <==> exists k: nat :: SmallerAt(a, b, k)
  {
    if a == [] || b == [] || a[0] != b[0] {
      assert Less(a, b) ==> SmallerAt(a, b, 0);
      assert forall k: nat :: k > 0 && k <= |a| && k < |b| && SmallerAt(a, b, k) ==> a[0] == b[0];
    } else {
      LessIsLexicographic(a[1..], b[1..]);
      forall k: nat
        ensures SmallerAt(a[1..], b[1..], k) <==> SmallerAt(a, b, k + 1)
      {
        SmallerBehind(a, b, k);
      }
      assert !SmallerAt(a, b, 0);
      if Less(a, b) {
        var k: nat :| SmallerAt(a[1..], b[1..], k);
        assert SmallerAt(a, b, k + 1);
      }
      if k: nat :| SmallerAt(a, b, k) {
        assert SmallerAt(a[1..], b[1..], k - 1) <==> SmallerAt(a, b, k - 1 + 1);
      }
    }
  }

  lemma SmallerBehind(a: string, b: string, k: nat)
    requires a != [] && b != [] && a[0] == b[0]
    ensures SmallerAt(a[1..], b[1..], k) <==> SmallerAt(a, b, k + 1)
  {
    if SmallerAt(a[1..], b[1..], k) {
      assert forall i :: 1 <= i < k + 1 ==> a[i] == a[1..][i - 1] && b[i] == b[1..][i - 1];
    }
    if SmallerAt(a, b, k + 1) {
      assert forall i :: 0 <= i < k ==> a[1..][i] == a[i + 1] && b[1..][i] == b[i + 1];
    }
  }

  lemma {:induction false} LessIsTotal(a: string, b: string)
    ensures Less(a, b) || a == b || Less(b, a)
    ensures !(Less(a, b) && Less(b, a)) && !Less(a, a)
  {
    if a == [] {
    } else {
      LessIsTotal(a[1..], a[1..]);
      if b != [] && a[0] == b[0] {
        LessIsTotal(a[1..], b[1..]);
        assert a == [a[0]] + a[1..] && b == [b[0]] + b[1..];
      }
    }
  }

  lemma {:induction false} LessIsTransitive(a: string, b: string, c: string)
    requires Less(a, b) && Less(b, c)
    ensures Less(a, c)
  {
    if a == [] || a[0] != b[0] || b[0] != c[0] {
    } else {
      LessIsTransitive(a[1..], b[1..], c[1..]);
    }
  }

  predicate Sorted(names: seq<string>) {
    forall i, j :: 0 <= i < j < |names| ==> Less(names[i], names[j])
  }

  /** names lists s in strictly ascending order. */
  ghost predicate IsSorting(names: seq<string>, s: set<string>) {
    Sorted(names) && forall n :: n in names <==> n in s
  }

  function Insert(x: string, names: seq<string>): seq<string> {
    if names == [] then [x]
    else if Less(x, names[0]) then [x] + names
    else [names[0]] + Insert(x, names[1..])
  }

  lemma {:induction false} InsertSorts(x: string, names: seq<string>, s: set<string>)
    requires IsSorting(names, s) && x !in s
    ensures IsSorting(Insert(x, names), s + {x})
    decreases |names|
  {
    if names == [] {
    } else if Less(x, names[0]) {
      forall j | 0 <= j < |names|
        ensures Less(x, names[j])
      {
        if j > 0 {
          LessIsTransitive(x, names[0], names[j]);
        }
      }
    } else {
      LessIsTotal(x, names[0]);
      TailSorts(names, s);
      InsertSorts(x, names[1..], s - {names[0]});
      var rest := Insert(x, names[1..]);
      forall n | n in rest
        ensures Less(names[0], n)
      {
        assert n == x || n in names[1..];
      }
    }
  }

  lemma TailSorts(names: seq<string>, s: set<string>)
    requires IsSorting(names, s) && names != []
    ensures IsSorting(names[1..], s - {names[0]})
  {
    LessIsTotal(names[0], names[0]);
    assert forall n :: n in names <==> n == names[0] || n in names[1..];
    assert forall k :: 0 <= k < |names[1..]| ==> names[1..][k] == names[k + 1] && Less(names[0], names[k + 1]);
  }

  /** There is only one such list. */
  lemma {:induction false} SortingIsUnique(a: seq<string>, b: seq<string>, s: set<string>)
    requires IsSorting(a, s) && IsSorting(b, s)
    ensures a == b
    decreases |a|
  {
    assert (a != [] ==> a[0] in b) && (b != [] ==> b[0] in a);
    if a == [] || b == [] {
    } else {
      LessIsTotal(a[0], b[0]);
      TailSorts(a, s);
      TailSorts(b, s);
      SortingIsUnique(a[1..], b[1..], s - {a[0]});
      assert a == [a[0]] + a[1..] && b == [b[0]] + b[1..];
    }
  }

  lemma {:induction false} SortingExists(s: set<string>)
    ensures exists names :: IsSorting(names, s)
  {
    if s == {} {
      assert IsSorting([], s);
    } else {
      var x :| x in s;
      SortingExists(s - {x});
      var names :| IsSorting(names, s - {x});
      InsertSorts(x, names, s - {x});
      assert s - {x} + {x} == s;
    }
  }

  /** The keys in ascending order. */
  ghost function SortedKeys(s: set<string>): (names: seq<string>)
    ensures IsSorting(names, s)
  {
    SortingExists(s);
    var names :| IsSorting(names, s);
    names
  }

  /** Collects the keys in any order and sorts them as they come; the order they come in does not show. */
  method SortKeys(s: set<string>) returns (names: seq<string>)
    ensures names == SortedKeys(s)
  {
    names := [];
    var left := s;
    ghost var done: set<string> := {};
    while left != {}
      invariant left !! done && left + done == s
      invariant IsSorting(names, done)
      decreases left
    {
      var x :| x in left;
      InsertSorts(x, names, done);
      names := Insert(x, names);
      left, done := left - {x}, done + {x};
    }
    assert done == s;
    SortingIsUnique(names, SortedKeys(s), s);
  }
}
