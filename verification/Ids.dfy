/**
 * Identifiers in byte order, and the ordered walk over a set of them that
 * `BTreeMap` and `BTreeSet` make.
 */
module Ids {
  predicate Before(a: string, b: string) {
    b != "" && (a == "" || a[0] < b[0] || (a[0] == b[0] && Before(a[1..], b[1..])))
  }

  lemma {:induction false} Trichotomy(a: string, b: string)
    ensures a == b || Before(a, b) || Before(b, a)
    ensures !(Before(a, b) && Before(b, a)) && !Before(a, a)
  {
    if a != "" {
      if b != "" && a[0] == b[0] {
        Trichotomy(a[1..], b[1..]);
        assert a[1..] == b[1..] ==> a == [a[0]] + a[1..] == [b[0]] + b[1..] == b;
      }
      Irreflexive(a);
    }
  }

  lemma {:induction false} Irreflexive(a: string)
    ensures !Before(a, a)
  {
    if a != "" { Irreflexive(a[1..]); }
  }

  lemma {:induction false} Transitive(a: string, b: string, c: string)
    requires Before(a, b) && Before(b, c)
    ensures Before(a, c)
  {
    if a != "" && a[0] == b[0] == c[0] { Transitive(a[1..], b[1..], c[1..]); }
  }

  predicate Ascending(s: seq<string>) {
    forall i, j :: 0 <= i < j < |s| ==> Before(s[i], s[j])
  }

  predicate IsFirst(id: string, ids: set<string>) {
    id in ids && forall other :: other in ids && other != id ==> Before(id, other)
  }

  lemma {:induction false} FirstExists(ids: set<string>)
    requires ids != {}
    ensures exists id :: IsFirst(id, ids)
  {
    var x :| x in ids;
    if ids == {x} {
      assert IsFirst(x, ids);
    } else {
      var rest := ids - {x};
      FirstExists(rest);
      var y :| IsFirst(y, rest);
      Trichotomy(x, y);
      if Before(x, y) {
        forall other | other in ids && other != x ensures Before(x, other) {
          if other != y { Transitive(x, y, other); }
        }
        assert IsFirst(x, ids);
      } else {
        assert IsFirst(y, ids);
      }
    }
  }

  lemma FirstIsUnique(ids: set<string>, a: string, b: string)
    requires IsFirst(a, ids) && IsFirst(b, ids)
    ensures a == b
  {
    if a != b { Trichotomy(a, b); }
  }

  /** The elements of a set in ascending order. */
  function InOrder(ids: set<string>): (s: seq<string>)
    ensures Ascending(s) && |s| == |ids|
    ensures forall id :: id in s <==> id in ids
  {
    if ids == {} then []
    else
      FirstExists(ids);
      assert forall a, b :: IsFirst(a, ids) && IsFirst(b, ids) ==> a == b by {
        forall a, b | IsFirst(a, ids) && IsFirst(b, ids) ensures a == b { FirstIsUnique(ids, a, b); }
      }
      var first :| IsFirst(first, ids);
      [first] + InOrder(ids - {first})
  }

  lemma AscendingIsDistinct(s: seq<string>, i: nat, j: nat)
    requires Ascending(s) && i < |s| && j < |s| && s[i] == s[j]
    ensures i == j
  {
    Irreflexive(s[i]);
  }

  lemma HeadIsMember(s: seq<string>)
    requires s != []
    ensures s[0] in s
  {
  }

  /** An ascending sequence is determined by its elements. */
  lemma {:induction false} AscendingIsUnique(a: seq<string>, b: seq<string>)
    requires Ascending(a) && Ascending(b) && forall id :: id in a <==> id in b
    ensures a == b
  {
    if b != [] { HeadIsMember(b); }
    if a != [] {
      HeadIsMember(a);
      SameHead(a, b);
      forall id ensures id in a[1..] <==> id in b[1..] {
        TailMember(a, id);
        TailMember(b, id);
      }
      AscendingIsUnique(a[1..], b[1..]);
      assert a == [a[0]] + a[1..] && b == [b[0]] + b[1..];
    }
  }

  lemma SameHead(a: seq<string>, b: seq<string>)
    requires Ascending(a) && Ascending(b) && a != [] && b != [] && a[0] in b && b[0] in a
    ensures a[0] == b[0]
  {
    var i :| 0 <= i < |b| && b[i] == a[0];
    var j :| 0 <= j < |a| && a[j] == b[0];
    if i > 0 && j > 0 { Trichotomy(a[0], b[0]); }
  }

  lemma TailMember(a: seq<string>, id: string)
    requires Ascending(a) && a != []
    ensures id in a[1..] <==> id in a && id != a[0]
  {
    Irreflexive(a[0]);
    if id in a[1..] {
      var k :| 0 <= k < |a| - 1 && a[1..][k] == id;
      assert a[k + 1] == id;
    }
    if id in a && id != a[0] {
      var k :| 0 <= k < |a| && a[k] == id;
      assert a[1..][k - 1] == id;
    }
  }
}
