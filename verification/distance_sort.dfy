/** Kotlin's `sortedBy { it.distanceMeters }` on a list of places: a stable
    sort, written here as an insertion sort over sequences. */
module DistanceSort {
  import opened Model

  predicate Sorted(s: seq<Place>)
  {
    forall i, j :: 0 <= i < j < |s| ==> s[i].distanceMeters <= s[j].distanceMeters
  }

  /** No place of s is nearer than d. */
  predicate NoneNearer(s: seq<Place>, d: real)
  {
    forall i :: 0 <= i < |s| ==> d <= s[i].distanceMeters
  }

  /** The places of s at distance d, in the order s lists them. Stability
      says a sort leaves every one of these subsequences unchanged. */
  function AtDistance(s: seq<Place>, d: real): seq<Place>
  {
    if |s| == 0 then []
    else (if s[0].distanceMeters == d then [s[0]] else []) + AtDistance(s[1..], d)
  }

  ghost predicate SameTies(s: seq<Place>, t: seq<Place>)
  {
    forall d :: AtDistance(s, d) == AtDistance(t, d)
  }

  lemma {:induction false} AtDistanceConcat(a: seq<Place>, b: seq<Place>, d: real)
    ensures AtDistance(a + b, d) == AtDistance(a, d) + AtDistance(b, d)
    decreases |a|
  {
    if |a| > 0 {
      var head := if a[0].distanceMeters == d then [a[0]] else [];
      assert (a + b)[0] == a[0];
      assert (a + b)[1..] == a[1..] + b;
      AtDistanceConcat(a[1..], b, d);
      assert AtDistance(a + b, d) == head + AtDistance(a[1..] + b, d);
      assert AtDistance(a, d) == head + AtDistance(a[1..], d);
    } else {
      assert a + b == b;
    }
  }

  /** A bound that holds of every element carries over to any rearrangement. */
  lemma NoneNearerPermutation(s: seq<Place>, t: seq<Place>, d: real)
    requires multiset(s) == multiset(t)
    requires NoneNearer(t, d)
    ensures NoneNearer(s, d)
  {
    forall i | 0 <= i < |s| ensures d <= s[i].distanceMeters {
      assert s[i] in multiset(t);
      var j :| 0 <= j < |t| && t[j] == s[i];
    }
  }

  /** Places x in front of the first element that is not strictly nearer, so x
      precedes every element at its own distance. */
  function Insert(x: Place, s: seq<Place>): (r: seq<Place>)
    ensures |r| == |s| + 1
    ensures multiset(r) == multiset(s) + multiset{x}
    ensures Sorted(s) ==> Sorted(r)
    ensures forall d :: AtDistance(r, d) == AtDistance([x], d) + AtDistance(s, d)
  {
    if |s| == 0 || x.distanceMeters <= s[0].distanceMeters then
      InsertFrontTies(x, s);
      [x] + s
    else
      var rest := Insert(x, s[1..]);
      assert s == [s[0]] + s[1..];
      InsertBehindTies(x, s, rest);
      InsertBehindSorted(x, s, rest);
      [s[0]] + rest
  }

  lemma InsertFrontTies(x: Place, s: seq<Place>)
    ensures forall d :: AtDistance([x] + s, d) == AtDistance([x], d) + AtDistance(s, d)
  {
    forall d ensures AtDistance([x] + s, d) == AtDistance([x], d) + AtDistance(s, d) {
      AtDistanceConcat([x], s, d);
    }
  }

  lemma InsertBehindTies(x: Place, s: seq<Place>, rest: seq<Place>)
    requires |s| > 0 && s[0].distanceMeters < x.distanceMeters
    requires forall d :: AtDistance(rest, d) == AtDistance([x], d) + AtDistance(s[1..], d)
    ensures forall d :: AtDistance([s[0]] + rest, d) == AtDistance([x], d) + AtDistance(s, d)
  {
    forall d ensures AtDistance([s[0]] + rest, d) == AtDistance([x], d) + AtDistance(s, d) {
      InsertBehindTiesAt(x, s, rest, d);
    }
  }

  lemma InsertBehindTiesAt(x: Place, s: seq<Place>, rest: seq<Place>, d: real)
    requires |s| > 0 && s[0].distanceMeters < x.distanceMeters
    requires AtDistance(rest, d) == AtDistance([x], d) + AtDistance(s[1..], d)
    ensures AtDistance([s[0]] + rest, d) == AtDistance([x], d) + AtDistance(s, d)
  {
    var tail := AtDistance(s[1..], d);
    AtDistanceConcat([s[0]], rest, d);
    assert s == [s[0]] + s[1..];
    AtDistanceConcat([s[0]], s[1..], d);
    if x.distanceMeters == d {
      assert AtDistance([s[0]], d) == [];
    } else {
      assert AtDistance([x], d) == [];
    }
  }

  lemma InsertBehindSorted(x: Place, s: seq<Place>, rest: seq<Place>)
    requires |s| > 0 && s[0].distanceMeters < x.distanceMeters
    requires multiset(rest) == multiset(s[1..]) + multiset{x}
    requires Sorted(s[1..]) ==> Sorted(rest)
    ensures Sorted(s) ==> Sorted([s[0]] + rest)
  {
    if Sorted(s) {
      assert NoneNearer(s[1..] + [x], s[0].distanceMeters);
      NoneNearerPermutation(rest, s[1..] + [x], s[0].distanceMeters);
    }
  }

  /** `sortedBy { it.distanceMeters }`: the ascending, stable rearrangement of s. */
  function SortByDistance(s: seq<Place>): (r: seq<Place>)
    ensures |r| == |s|
    ensures multiset(r) == multiset(s)
    ensures Sorted(r)
    ensures SameTies(r, s)
  {
    if |s| == 0 then []
    else
      var sorted := SortByDistance(s[1..]);
      assert s == [s[0]] + s[1..];
      SortStepTies(s, sorted);
      Insert(s[0], sorted)
  }

  lemma SortStepTies(s: seq<Place>, sorted: seq<Place>)
    requires |s| > 0
    requires SameTies(sorted, s[1..])
    ensures SameTies(Insert(s[0], sorted), s)
  {
    forall d ensures AtDistance(Insert(s[0], sorted), d) == AtDistance(s, d) {
      assert s == [s[0]] + s[1..];
      AtDistanceConcat([s[0]], s[1..], d);
    }
  }

  lemma {:induction false} NearestFirst(a: seq<Place>, d: real)
    requires Sorted(a)
    requires AtDistance(a, d) != []
    ensures |a| > 0 && a[0].distanceMeters <= d
    decreases |a|
  {
    if a[0].distanceMeters != d {
      NearestFirst(a[1..], d);
    }
  }

  /** Sortedness and stability pin the result down: two ascending sequences
      that agree on the order of every group of equally distant places are
      the same sequence. */
  lemma {:induction false} SortedTiesDetermine(a: seq<Place>, b: seq<Place>)
    requires Sorted(a) && Sorted(b)
    requires SameTies(a, b)
    ensures a == b
    decreases |a| + |b|
  {
    if |b| > 0 {
      assert AtDistance(a, b[0].distanceMeters) != [];
    }
    if |a| > 0 {
      assert AtDistance(b, a[0].distanceMeters) != [];
      var k := a[0].distanceMeters;
      assert AtDistance(a, k) != [];
      NearestFirst(b, k);
      assert AtDistance(b, b[0].distanceMeters) != [];
      NearestFirst(a, b[0].distanceMeters);
      assert b[0].distanceMeters == k;
      assert AtDistance(a, k) == [a[0]] + AtDistance(a[1..], k);
      assert AtDistance(b, k) == [b[0]] + AtDistance(b[1..], k);
      assert AtDistance(a, k)[0] == a[0] && AtDistance(b, k)[0] == b[0];
      assert a[0] == b[0];
      forall d ensures AtDistance(a[1..], d) == AtDistance(b[1..], d) {
        var head := if a[0].distanceMeters == d then [a[0]] else [];
        var whole := AtDistance(a, d);
        assert whole == AtDistance(b, d);
        assert whole == head + AtDistance(a[1..], d);
        assert whole == head + AtDistance(b[1..], d);
        assert whole[|head|..] == AtDistance(a[1..], d);
        assert whole[|head|..] == AtDistance(b[1..], d);
      }
      SortedTiesDetermine(a[1..], b[1..]);
      assert a == [a[0]] + a[1..];
      assert b == [b[0]] + b[1..];
    }
  }

  /** Any ascending arrangement of s that keeps ties in their input order is
      exactly what `sortedBy` returns. */
  lemma StableSortIsUnique(s: seq<Place>, t: seq<Place>)
    requires Sorted(t)
    requires SameTies(t, s)
    ensures t == SortByDistance(s)
  {
    SortedTiesDetermine(t, SortByDistance(s));
  }

  predicate IdsDistinct(s: seq<Place>)
  {
    forall i, j :: 0 <= i < j < |s| ==> s[i].id != s[j].id
  }

  predicate IdAbsent(s: seq<Place>, id: string)
  {
    forall i :: 0 <= i < |s| ==> s[i].id != id
  }

  /** An id absent from s is absent from every rearrangement of s. */
  lemma IdAbsentPermutation(s: seq<Place>, t: seq<Place>, id: string)
    requires multiset(s) == multiset(t)
    requires IdAbsent(t, id)
    ensures IdAbsent(s, id)
  {
    forall i | 0 <= i < |s| ensures s[i].id != id {
      assert s[i] in multiset(t);
      var j :| 0 <= j < |t| && t[j] == s[i];
    }
  }

  lemma {:induction false} InsertKeepsIdsDistinct(x: Place, s: seq<Place>)
    requires IdsDistinct(s)
    requires IdAbsent(s, x.id)
    ensures IdsDistinct(Insert(x, s))
    decreases |s|
  {
    if |s| > 0 && s[0].distanceMeters < x.distanceMeters {
      var rest := Insert(x, s[1..]);
      InsertKeepsIdsDistinct(x, s[1..]);
      assert IdAbsent(s[1..] + [x], s[0].id);
      IdAbsentPermutation(rest, s[1..] + [x], s[0].id);
      assert Insert(x, s) == [s[0]] + rest;
    }
  }

  /** Sorting never duplicates an id: the ranked list is as free of repeats as its input. */
  lemma {:induction false} SortKeepsIdsDistinct(s: seq<Place>)
    requires IdsDistinct(s)
    ensures IdsDistinct(SortByDistance(s))
    decreases |s|
  {
    if |s| > 0 {
      var sorted := SortByDistance(s[1..]);
      SortKeepsIdsDistinct(s[1..]);
      assert IdAbsent(s[1..], s[0].id);
      IdAbsentPermutation(sorted, s[1..], s[0].id);
      InsertKeepsIdsDistinct(s[0], sorted);
    }
  }
}
