/** Byte ranges that must not overlap: sorting them and comparing neighbours decides it. */
module PayloadRanges {
  datatype Range = Range(first: nat, second: nat)

  predicate Apart(a: Range, b: Range) {
    a.second <= b.first || b.second <= a.first
  }

  /** No two of the ranges overlap. */
  ghost predicate AllApart(s: seq<Range>) {
    s == [] || (ApartFrom(s[0], s[1..]) && AllApart(s[1..]))
  }

  ghost predicate ApartFrom(x: Range, s: seq<Range>) {
    forall y | y in s :: Apart(x, y)
  }

  /** The order of pairs. */
  predicate AtMost(a: Range, b: Range) {
    a.first < b.first || (a.first == b.first && a.second <= b.second)
  }

  ghost predicate Sorted(s: seq<Range>) {
    s == [] || ((forall y | y in s[1..] :: AtMost(s[0], y)) && Sorted(s[1..]))
  }

  function Insert(x: Range, s: seq<Range>): seq<Range> {
    if s == [] then [x] else if AtMost(x, s[0]) then [x] + s else [s[0]] + Insert(x, s[1..])
  }

  function Sort(s: seq<Range>): seq<Range> {
    if s == [] then [] else Insert(s[0], Sort(s[1..]))
  }

  lemma {:induction false} InsertMembers(x: Range, s: seq<Range>, y: Range)
    ensures y in Insert(x, s) <==> y == x || y in s
  {
    if s != [] && !AtMost(x, s[0]) {
      InsertMembers(x, s[1..], y);
      assert s == [s[0]] + s[1..];
    }
  }

  lemma {:induction false} InsertSorted(x: Range, s: seq<Range>)
    requires Sorted(s)
    ensures Sorted(Insert(x, s))
  {
    var r := Insert(x, s);
    if s != [] && !AtMost(x, s[0]) {
      InsertSorted(x, s[1..]);
      assert r[1..] == Insert(x, s[1..]);
      forall y | y in r[1..]
        ensures AtMost(s[0], y)
      {
        InsertMembers(x, s[1..], y);
      }
    } else {
      assert r[1..] == s;
      forall y | y in s
        ensures AtMost(x, y)
      {
        assert y == s[0] || y in s[1..];
      }
    }
  }

  lemma ApartFromOne(x: Range, s: seq<Range>, z: Range, t: seq<Range>)
    requires forall y :: y in s <==> y == z || y in t
    ensures ApartFrom(x, s) <==> Apart(x, z) && ApartFrom(x, t)
  {
    if ApartFrom(x, s) {
      assert z in s;
      forall y | y in t
        ensures Apart(x, y)
      {
        assert y in s;
      }
    }
  }

  lemma {:induction false} InsertApart(x: Range, s: seq<Range>)
    ensures AllApart(Insert(x, s)) <==> ApartFrom(x, s) && AllApart(s)
  {
    var r := Insert(x, s);
    if s == [] || AtMost(x, s[0]) {
      assert r[1..] == s;
    } else {
      InsertApart(x, s[1..]);
      assert r[1..] == Insert(x, s[1..]);
      forall y
        ensures y in r[1..] <==> y == x || y in s[1..]
        ensures y in s <==> y == s[0] || y in s[1..]
      {
        InsertMembers(x, s[1..], y);
        assert s == [s[0]] + s[1..];
      }
      ApartFromOne(s[0], r[1..], x, s[1..]);
      ApartFromOne(x, s, s[0], s[1..]);
    }
  }

  lemma {:induction false} SortMembers(s: seq<Range>, y: Range)
    ensures y in Sort(s) <==> y in s
  {
    if s != [] {
      SortMembers(s[1..], y);
      InsertMembers(s[0], Sort(s[1..]), y);
      assert s == [s[0]] + s[1..];
    }
  }

  /** Sorting orders the ranges and keeps whether they overlap. */
  lemma {:induction false} SortKeeps(s: seq<Range>)
    ensures Sorted(Sort(s)) && (AllApart(Sort(s)) <==> AllApart(s))
  {
    if s != [] {
      SortKeeps(s[1..]);
      InsertSorted(s[0], Sort(s[1..]));
      InsertApart(s[0], Sort(s[1..]));
      forall y
        ensures y in Sort(s[1..]) <==> y in s[1..]
      {
        SortMembers(s[1..], y);
      }
    }
  }

  ghost predicate Forward(s: seq<Range>) {
    forall y | y in s :: y.first <= y.second
  }

  /** Each range ends before the next one starts. */
  ghost predicate NeighboursApart(s: seq<Range>) {
    forall i | 0 < i < |s| :: s[i - 1].second <= s[i].first
  }

  lemma {:induction false} NeighboursTail(s: seq<Range>)
    requires |s| >= 2
    ensures NeighboursApart(s) <==> s[0].second <= s[1].first && NeighboursApart(s[1..])
  {
    var t := s[1..];
    if s[0].second <= s[1].first && NeighboursApart(t) {
      forall i | 0 < i < |s|
        ensures s[i - 1].second <= s[i].first
      {
        if i > 1 {
          assert t[i - 1 - 1].second <= t[i - 1].first;
        }
      }
    }
    if NeighboursApart(s) {
      forall i | 0 < i < |t|
        ensures t[i - 1].second <= t[i].first
      {
        assert s[i + 1 - 1].second <= s[i + 1].first;
      }
    }
  }

  /** Of sorted ranges, only neighbours need comparing. */
  lemma {:induction false} SortedApart(s: seq<Range>)
    requires Sorted(s) && Forward(s)
    ensures AllApart(s) <==> NeighboursApart(s)
  {
    if |s| >= 2 {
      var t := s[1..];
      assert s[0] in s && t[0] in t && forall y | y in t :: y in s;
      SortedApart(t);
      NeighboursTail(s);
      forall y | y in t
        ensures AtMost(t[0], y)
      {
        assert y == t[0] || y in t[1..];
      }
      if s[0].second <= s[1].first {
        assert forall y | y in t :: Apart(s[0], y);
      }
      if AllApart(s) {
        assert Apart(s[0], t[0]) && AtMost(s[0], t[0]);
      }
    } else if s != [] {
      assert s[1..] == [];
    }
  }

  /** Sorts the ranges and compares neighbours. */
  method Overlap(ranges: seq<Range>) returns (r: bool)
    requires Forward(ranges)
    ensures r <==> !AllApart(ranges)
  {
    var sorted := Sort(ranges);
    SortKeeps(ranges);
    forall y | y in sorted
      ensures y.first <= y.second
    {
      SortMembers(ranges, y);
    }
    SortedApart(sorted);
    var i := 1;
    while i < |sorted|
      invariant i >= 1 && forall j | 0 < j < i && j < |sorted| :: sorted[j - 1].second <= sorted[j].first
    {
      if sorted[i].first < sorted[i - 1].second {
        return true;
      }
      i := i + 1;
    }
    r := false;
  }

  // ---- what overlap-freedom gives

  lemma ApartFromAppend(x: Range, a: seq<Range>, b: seq<Range>)
    ensures ApartFrom(x, a + b) <==> ApartFrom(x, a) && ApartFrom(x, b)
  {
    if ApartFrom(x, a + b) {
      forall y | y in a || y in b
        ensures Apart(x, y)
      {
        assert y in a + b;
      }
    }
  }

  ghost predicate EachApart(a: seq<Range>, b: seq<Range>) {
    forall x | x in a :: ApartFrom(x, b)
  }

  lemma EachApartFirst(a: seq<Range>, b: seq<Range>)
    requires a != []
    ensures EachApart(a, b) <==> ApartFrom(a[0], b) && EachApart(a[1..], b)
  {
    forall x
      ensures x in a <==> x == a[0] || x in a[1..]
    {
      assert a == [a[0]] + a[1..];
    }
  }

  lemma {:induction false} ApartAppend(a: seq<Range>, b: seq<Range>)
    ensures AllApart(a + b) <==> AllApart(a) && AllApart(b) && EachApart(a, b)
  {
    if a == [] {
      assert a + b == b;
    } else {
      assert (a + b)[1..] == a[1..] + b;
      ApartAppend(a[1..], b);
      ApartFromAppend(a[0], a[1..], b);
      EachApartFirst(a, b);
    }
  }
}
