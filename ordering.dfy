/** The orderings that the models declare in their `Meta.ordering` and that the
    queries ask for with `order_by`, and `.first()` on such a query.

    A query result is modelled as the sequence of matching row identifiers:
    first the identifiers in ascending order (the model's tie-break, where the
    database leaves the order of equal keys open), then a stable insertion sort by
    the ordering key. */
module Ordering {
  import opened Basics

  /** A two-part sort key, compared lexicographically; a descending field is
      stored negated. */
  datatype Key = Key(major: int, minor: int)

  predicate KeyLe(a: Key, b: Key) {
    a.major < b.major || (a.major == b.major && a.minor <= b.minor)
  }

  predicate SortedBy(s: seq<Id>, key: Id -> Key) {
    forall i, j :: 0 <= i < j < |s| ==> KeyLe(key(s[i]), key(s[j]))
  }

  predicate NoDuplicates(s: seq<Id>) {
    forall i, j :: 0 <= i < j < |s| ==> s[i] != s[j]
  }

  /** The members of `s` below `bound`, in ascending order. */
  function Enumerate(s: set<Id>, bound: nat): (r: seq<Id>)
    ensures forall x :: x in r <==> x in s && x < bound
    ensures forall i :: 0 <= i < |r| ==> r[i] < bound
    ensures forall i, j :: 0 <= i < j < |r| ==> r[i] < r[j]
  {
    if bound == 0 then []
    else Enumerate(s, bound - 1) + (if bound - 1 in s then [bound - 1] else [])
  }

  /** Inserts `x` before the first element whose key is not smaller. */
  function Insert(x: Id, s: seq<Id>, key: Id -> Key): (r: seq<Id>)
    requires SortedBy(s, key)
    ensures SortedBy(r, key)
    ensures multiset(r) == multiset(s) + multiset{x}
  {
    if s == [] then [x]
    else if KeyLe(key(x), key(s[0])) then [x] + s
    else
      var rest := Insert(x, s[1..], key);
      assert forall k :: 0 <= k < |rest| ==> rest[k] in multiset(s[1..]) + multiset{x} by {
        forall k | 0 <= k < |rest| ensures rest[k] in multiset(s[1..]) + multiset{x} {
          assert rest[k] in multiset(rest);
        }
      }
      assert forall k :: 0 <= k < |rest| ==> KeyLe(key(s[0]), key(rest[k])) by {
        forall k | 0 <= k < |rest| ensures KeyLe(key(s[0]), key(rest[k])) {
          assert rest[k] in multiset(s[1..]) + multiset{x};
          if rest[k] != x {
            assert rest[k] in s[1..];
          }
        }
      }
      assert s == [s[0]] + s[1..];
      [s[0]] + rest
  }

  /** Stable insertion sort by `key`. */
  function SortBy(s: seq<Id>, key: Id -> Key): (r: seq<Id>)
    ensures SortedBy(r, key)
    ensures multiset(r) == multiset(s)
  {
    if s == [] then []
    else
      assert s == [s[0]] + s[1..];
      Insert(s[0], SortBy(s[1..], key), key)
  }

  /** The rows of `s` (all below `bound`), ordered by `key`: the model of
      `queryset.order_by(...)`. */
  function OrderedIds(s: set<Id>, bound: nat, key: Id -> Key): (r: seq<Id>)
    requires Below(s, bound)
    ensures SortedBy(r, key) && NoDuplicates(r)
    ensures forall x :: x in r <==> x in s
    ensures |r| == |s|
  {
    var e := Enumerate(s, bound);
    var r := SortBy(e, key);
    assert forall x :: x in r <==> x in e by {
      forall x ensures x in r <==> x in e {
        assert x in r <==> x in multiset(r);
        assert x in e <==> x in multiset(e);
      }
    }
    assert NoDuplicates(e);
    PermutationKeepsNoDuplicates(e, r);
    DistinctCardinality(r, s);
    r
  }

  /** `.first()` on an ordered query: the head of the ordered rows. */
  function First(s: set<Id>, bound: nat, key: Id -> Key): (r: Option<Id>)
    requires Below(s, bound)
    ensures r.None? <==> s == {}
    ensures r.Some? ==> r.value in s && forall x :: x in s ==> KeyLe(key(r.value), key(x))
  {
    var o := OrderedIds(s, bound, key);
    if o == [] then
      assert forall x :: x in s ==> x in o;
      None
    else
      assert forall x :: x in s ==> KeyLe(key(o[0]), key(x)) by {
        forall x | x in s ensures KeyLe(key(o[0]), key(x)) {
          var k :| 0 <= k < |o| && o[k] == x;
          if k != 0 {
            assert KeyLe(key(o[0]), key(o[k]));
          } else {
            KeyLeReflexive(key(x));
          }
        }
      }
      Some(o[0])
  }

  lemma KeyLeReflexive(a: Key)
    ensures KeyLe(a, a)
  {
  }

  lemma PermutationKeepsNoDuplicates(a: seq<Id>, b: seq<Id>)
    requires NoDuplicates(a)
    requires multiset(a) == multiset(b)
    ensures NoDuplicates(b)
  {
    forall i, j | 0 <= i < j < |b| ensures b[i] != b[j] {
      if b[i] == b[j] {
        MultiplicityAtLeastTwo(b, i, j);
        MultiplicityAtMostOne(a, b[i]);
        assert false;
      }
    }
  }

  lemma {:induction false} MultiplicityAtLeastTwo(s: seq<Id>, i: nat, j: nat)
    requires i < j < |s| && s[i] == s[j]
    ensures multiset(s)[s[i]] >= 2
  {
    var x := s[i];
    assert s == s[..i] + [x] + s[i + 1..];
    assert s[i + 1..] == s[i + 1..j] + [x] + s[j + 1..];
    assert multiset(s) == multiset(s[..i]) + multiset{x} + multiset(s[i + 1..j]) + multiset{x} + multiset(s[j + 1..]);
  }

  lemma {:induction false} MultiplicityAtMostOne(s: seq<Id>, x: Id)
    requires NoDuplicates(s)
    ensures multiset(s)[x] <= 1
  {
    if s != [] {
      assert s == [s[0]] + s[1..];
      assert NoDuplicates(s[1..]) by {
        forall i, j | 0 <= i < j < |s[1..]| ensures s[1..][i] != s[1..][j] {
          assert s[1..][i] == s[i + 1] && s[1..][j] == s[j + 1];
        }
      }
      MultiplicityAtMostOne(s[1..], x);
      if s[0] == x {
        assert x !in s[1..] by {
          forall k | 0 <= k < |s[1..]| ensures s[1..][k] != x {
            assert s[1..][k] == s[k + 1];
          }
        }
      }
    }
  }

  /** A sequence without duplicates whose members are exactly `s` has `|s|` elements. */
  lemma {:induction false} DistinctCardinality(r: seq<Id>, s: set<Id>)
    requires NoDuplicates(r)
    requires forall x :: x in r <==> x in s
    ensures |r| == |s|
  {
    if r == [] {
      assert forall x :: x !in s;
      assert s == {};
    } else {
      var last := r[|r| - 1];
      var init := r[..|r| - 1];
      assert r == init + [last];
      assert NoDuplicates(init) by {
        forall i, j | 0 <= i < j < |init| ensures init[i] != init[j] {
          assert init[i] == r[i] && init[j] == r[j];
        }
      }
      assert last !in init by {
        forall k | 0 <= k < |init| ensures init[k] != last {
          assert init[k] == r[k];
        }
      }
      assert forall x :: x in init <==> x in s - {last} by {
        forall x ensures x in init <==> x in s - {last} {
          if x in init {
            var k :| 0 <= k < |init| && init[k] == x;
            assert r[k] == x;
          }
          if x in s - {last} {
            assert x in r;
            var k :| 0 <= k < |r| && r[k] == x;
            assert k < |r| - 1;
            assert init[k] == x;
          }
        }
      }
      DistinctCardinality(init, s - {last});
    }
  }
}
