/** Byte-pair merging.  One pass merges all leftmost non-overlapping occurrences of the best-ranked
    pair; this is compared with merging one occurrence at a time. */
module Bpe {
  import opened Utf8

  const MAX_RANK: nat := 0xFFFF_FFFF

  type Ranks = map<Text, nat>

  /** The key of a pair in the table of ranks. */
  function PairKey(left: Text, right: Text): (r: Text)
    ensures r != []
  {
    left + [0] + right
  }

  function FirstZero(s: Text): nat {
    if s == [] || s[0] == 0 then 0 else 1 + FirstZero(s[1..])
  }

  lemma {:induction false} FirstZeroOfKey(left: Text, right: Text)
    requires 0 !in left
    ensures FirstZero(PairKey(left, right)) == |left|
  {
    if left != [] {
      assert PairKey(left, right)[1..] == PairKey(left[1..], right);
      FirstZeroOfKey(left[1..], right);
    }
  }

  /** Keys of symbols without zero bytes tell their pairs apart. */
  lemma KeyInjective(a: Text, b: Text, c: Text, d: Text)
    requires 0 !in a && 0 !in c && PairKey(a, b) == PairKey(c, d)
    ensures a == c && b == d
  {
    FirstZeroOfKey(a, b);
    FirstZeroOfKey(c, d);
    var p, q := PairKey(a, b), PairKey(c, d);
    assert a == p[..|a|] && c == q[..|a|];
    assert b == p[|a| + 1..] && d == q[|a| + 1..];
  }

  function KeyAt(symbols: seq<Text>, i: nat): Text
    requires i + 1 < |symbols|
  {
    PairKey(symbols[i], symbols[i + 1])
  }

  /** Whether pair i of the symbols is the pair with this key. */
  predicate Occurs(symbols: seq<Text>, key: Text, i: nat) {
    i + 1 < |symbols| && KeyAt(symbols, i) == key
  }

  predicate Mergeable(symbols: seq<Text>, ranks: Ranks, i: nat) {
    i + 1 < |symbols| && KeyAt(symbols, i) in ranks && ranks[KeyAt(symbols, i)] < MAX_RANK
  }

  /** The key of the leftmost best-ranked pair, or [] when no pair can be merged. */
  ghost predicate IsBest(symbols: seq<Text>, ranks: Ranks, key: Text) {
    if key == [] then forall i: nat :: !Mergeable(symbols, ranks, i)
    else
      && key in ranks && ranks[key] < MAX_RANK
      && (exists i: nat :: Occurs(symbols, key, i))
      && (forall i: nat | Mergeable(symbols, ranks, i) :: ranks[key] <= ranks[KeyAt(symbols, i)])
  }

  /** Different keys have different ranks. */
  ghost predicate RanksDistinct(ranks: Ranks) {
    forall k, l | k in ranks && l in ranks && ranks[k] == ranks[l] :: k == l
  }

  function MergeKey(merges: seq<(Text, Text)>, i: nat): Text
    requires i < |merges|
  {
    PairKey(merges[i].0, merges[i].1)
  }

  /** The ranks of the first n rules: a rule listed twice has the rank of its first listing. */
  ghost predicate RanksOf(ranks: Ranks, merges: seq<(Text, Text)>, n: nat) {
    && n <= |merges| && (forall i | 0 <= i < n :: MergeKey(merges, i) in ranks)
    && forall k | k in ranks ::
         && ranks[k] < n && MergeKey(merges, ranks[k]) == k
         && forall j | 0 <= j < ranks[k] :: MergeKey(merges, j) != k
  }

  method LoadRanks(merges: seq<(Text, Text)>) returns (ranks: Ranks)
    ensures RanksOf(ranks, merges, |merges|) && RanksDistinct(ranks)
  {
    ranks := map[];
    for rank := 0 to |merges|
      invariant RanksOf(ranks, merges, rank)
    {
      var key := PairKey(merges[rank].0, merges[rank].1);
      if key !in ranks {
        ranks := ranks[key := rank];
      }
    }
  }

  function Best(symbols: seq<Text>, ranks: Ranks, n: nat): Text
    requires n <= |symbols|
  {
    if n <= 1 then []
    else
      var before, key := Best(symbols, ranks, n - 1), KeyAt(symbols, n - 2);
      if key in ranks && ranks[key] < MAX_RANK
        && (before == [] || before !in ranks || ranks[key] < ranks[before]) then key else before
  }

  /** What Best finds among the first n symbols. */
  lemma {:induction false} BestOfPrefix(symbols: seq<Text>, ranks: Ranks, n: nat)
    requires n <= |symbols|
    ensures IsBest(symbols[..n], ranks, Best(symbols, ranks, n))
    decreases n
  {
    var few, best := symbols[..n], Best(symbols, ranks, n);
    if n <= 1 {
      assert forall i: nat :: !Mergeable(few, ranks, i);
    } else {
      var less, before := symbols[..n - 1], Best(symbols, ranks, n - 1);
      BestOfPrefix(symbols, ranks, n - 1);
      assert KeyAt(few, n - 2) == KeyAt(symbols, n - 2);
      forall i: nat | i + 1 < n - 1
        ensures KeyAt(few, i) == KeyAt(less, i)
      {
      }
      if best == before {
        if best != [] {
          var i: nat :| Occurs(less, best, i);
          assert Occurs(few, best, i);
        }
      } else {
        assert Occurs(few, best, n - 2);
      }
      forall i: nat | Mergeable(few, ranks, i)
        ensures best != [] && best in ranks && ranks[best] <= ranks[KeyAt(few, i)]
      {
        if i < n - 2 {
          assert Mergeable(less, ranks, i);
        }
      }
    }
  }

  /** The best pair is unique. */
  lemma BestUnique(symbols: seq<Text>, ranks: Ranks, k: Text, l: Text)
    requires RanksDistinct(ranks) && IsBest(symbols, ranks, k) && IsBest(symbols, ranks, l)
    ensures k == l
  {
    if k != [] {
      var i: nat :| Occurs(symbols, k, i);
      assert Mergeable(symbols, ranks, i);
      if l != [] {
        var j: nat :| Occurs(symbols, l, j);
        assert Mergeable(symbols, ranks, j);
      }
    } else if l != [] {
      var j: nat :| Occurs(symbols, l, j);
      assert Mergeable(symbols, ranks, j);
    }
  }

  // ---- merging

  /** One pass: all leftmost non-overlapping occurrences of a pair. */
  function MergeAll(symbols: seq<Text>, key: Text): (r: seq<Text>)
    ensures |r| <= |symbols|
  {
    if |symbols| < 2 then symbols
    else if KeyAt(symbols, 0) == key then [symbols[0] + symbols[1]] + MergeAll(symbols[2..], key)
    else [symbols[0]] + MergeAll(symbols[1..], key)
  }

  /** A single merge at position i. */
  function MergeAt(symbols: seq<Text>, i: nat): (r: seq<Text>)
    requires i + 1 < |symbols|
    ensures |r| == |symbols| - 1
  {
    symbols[..i] + [symbols[i] + symbols[i + 1]] + symbols[i + 2..]
  }

  function Flatten(symbols: seq<Text>): Text {
    if symbols == [] then [] else symbols[0] + Flatten(symbols[1..])
  }

  /** A pass keeps the text. */
  lemma {:induction false} MergeKeepsText(symbols: seq<Text>, key: Text)
    ensures Flatten(MergeAll(symbols, key)) == Flatten(symbols)
    decreases |symbols|
  {
    if |symbols| >= 2 {
      var r := MergeAll(symbols, key);
      if KeyAt(symbols, 0) == key {
        MergeKeepsText(symbols[2..], key);
        assert r[1..] == MergeAll(symbols[2..], key);
        assert symbols[1..][1..] == symbols[2..];
        assert Flatten(symbols) == symbols[0] + (symbols[1] + Flatten(symbols[2..]));
      } else {
        MergeKeepsText(symbols[1..], key);
        assert r[1..] == MergeAll(symbols[1..], key);
      }
    }
  }

  /** A pass for a pair that occurs merges something. */
  lemma {:induction false} MergeShortens(symbols: seq<Text>, key: Text, i: nat)
    requires Occurs(symbols, key, i)
    ensures |MergeAll(symbols, key)| < |symbols|
    decreases |symbols|
  {
    if KeyAt(symbols, 0) != key {
      assert KeyAt(symbols[1..], i - 1) == KeyAt(symbols, i);
      MergeShortens(symbols[1..], key, i - 1);
    }
  }

  /** Passes until no pair can be merged. */
  function Merged(symbols: seq<Text>, ranks: Ranks): (r: seq<Text>)
    decreases |symbols|
  {
    var key := Best(symbols, ranks, |symbols|);
    if key == [] then symbols
    else
      BestOccurs(symbols, ranks);
      Merged(MergeAll(symbols, key), ranks)
  }

  lemma {:induction false} BestOccurs(symbols: seq<Text>, ranks: Ranks)
    ensures var key := Best(symbols, ranks, |symbols|);
            IsBest(symbols, ranks, key) && (key != [] ==> |MergeAll(symbols, key)| < |symbols|)
  {
    BestOfPrefix(symbols, ranks, |symbols|);
    assert symbols[..|symbols|] == symbols;
    var key := Best(symbols, ranks, |symbols|);
    if key != [] {
      var i: nat :| Occurs(symbols, key, i);
      MergeShortens(symbols, key, i);
    }
  }

  // ---- what merging leaves, without its definition

  /** One symbol behind a pass: the pair is merged wherever the scan meets it. */
  ghost predicate IsBlock(symbols: seq<Text>, key: Text, begin: nat, end: nat, symbol: Text) {
    begin < |symbols|
    && if Occurs(symbols, key, begin) then end == begin + 2 && symbol == symbols[begin] + symbols[begin + 1]
       else end == begin + 1 && symbol == symbols[begin]
  }

  ghost predicate IsPass(symbols: seq<Text>, key: Text, begins: seq<nat>, merged: seq<Text>) {
    && |begins| == |merged| + 1 && begins[0] == 0 && begins[|merged|] == |symbols|
    && forall j | 0 <= j < |merged| :: IsBlock(symbols, key, begins[j], begins[j + 1], merged[j])
  }

  ghost predicate Passed(symbols: seq<Text>, key: Text, merged: seq<Text>) {
    exists begins: seq<nat> :: IsPass(symbols, key, begins, merged)
  }

  /** A step: a pass for a pair that ranks best. */
  ghost predicate Step(before: seq<Text>, after: seq<Text>, ranks: Ranks) {
    exists key: Text :: key != [] && IsBest(before, ranks, key) && Passed(before, key, after)
  }

  ghost predicate IsPath(path: seq<seq<Text>>, ranks: Ranks) {
    path != [] && forall i | 0 < i < |path| :: Step(path[i - 1], path[i], ranks)
  }

  /** No neighbouring pair can be merged. */
  ghost predicate Settled(symbols: seq<Text>, ranks: Ranks) {
    forall i: nat :: !Mergeable(symbols, ranks, i)
  }

  /** Symbols reached by such steps, of which no neighbouring pair can be merged. */
  ghost predicate IsMerged(initial: seq<Text>, symbols: seq<Text>, ranks: Ranks) {
    && (exists path: seq<seq<Text>> :: IsPath(path, ranks) && path[0] == initial && path[|path| - 1] == symbols)
    && Settled(symbols, ranks)
  }

  function Shifted(begins: seq<nat>, width: nat): (r: seq<nat>) {
    [0] + seq(|begins|, i requires 0 <= i < |begins| => begins[i] + width)
  }

  lemma ShiftedBlock(symbols: seq<Text>, key: Text, width: nat, begin: nat, end: nat, symbol: Text)
    requires width <= |symbols| && IsBlock(symbols[width..], key, begin, end, symbol)
    ensures IsBlock(symbols, key, begin + width, end + width, symbol)
  {
    if begin + 1 < |symbols[width..]| {
      assert KeyAt(symbols[width..], begin) == KeyAt(symbols, begin + width);
    }
  }

  lemma ShiftedPass(symbols: seq<Text>, key: Text, width: nat, first: Text, begins: seq<nat>, merged: seq<Text>)
    requires width <= |symbols| && IsBlock(symbols, key, 0, width, first)
             && IsPass(symbols[width..], key, begins, merged)
    ensures IsPass(symbols, key, Shifted(begins, width), [first] + merged)
  {
    var all, more := Shifted(begins, width), [first] + merged;
    forall j | 0 <= j < |more|
      ensures IsBlock(symbols, key, all[j], all[j + 1], more[j])
    {
      if j > 0 {
        ShiftedBlock(symbols, key, width, begins[j - 1], begins[j], merged[j - 1]);
      }
    }
  }

  lemma {:induction false} PassBegins(symbols: seq<Text>, key: Text) returns (begins: seq<nat>)
    ensures IsPass(symbols, key, begins, MergeAll(symbols, key))
    decreases |symbols|
  {
    if symbols == [] {
      begins := [0];
    } else {
      assert symbols[0..] == symbols;
      PassStep(symbols, key, 0);
      if Occurs(symbols, key, 0) {
        var rest := PassBegins(symbols[2..], key);
        ShiftedPass(symbols, key, 2, symbols[0] + symbols[1], rest, MergeAll(symbols[2..], key));
        begins := Shifted(rest, 2);
      } else {
        var rest := PassBegins(symbols[1..], key);
        ShiftedPass(symbols, key, 1, symbols[0], rest, MergeAll(symbols[1..], key));
        begins := Shifted(rest, 1);
      }
    }
  }

  lemma {:induction false} SameBegins(symbols: seq<Text>, key: Text, b: seq<nat>, x: seq<Text>, c: seq<nat>,
                                      y: seq<Text>, n: nat)
    requires IsPass(symbols, key, b, x) && IsPass(symbols, key, c, y) && n <= |x| && n <= |y|
    ensures b[n] == c[n] && x[..n] == y[..n]
  {
    if n > 0 {
      SameBegins(symbols, key, b, x, c, y, n - 1);
      assert IsBlock(symbols, key, b[n - 1], b[n - 1 + 1], x[n - 1]);
      assert IsBlock(symbols, key, c[n - 1], c[n - 1 + 1], y[n - 1]);
      assert x[..n] == x[..n - 1] + [x[n - 1]] && y[..n] == y[..n - 1] + [y[n - 1]];
    }
  }

  lemma Begun(symbols: seq<Text>, key: Text, begins: seq<nat>, merged: seq<Text>, n: nat)
    requires IsPass(symbols, key, begins, merged) && n <= |merged|
    ensures n < |merged| <==> begins[n] < |symbols|
  {
    if n < |merged| {
      assert IsBlock(symbols, key, begins[n], begins[n + 1], merged[n]);
    }
  }

  /** The pass for a key is unique, and MergeAll computes it. */
  lemma {:induction false} PassedIs(symbols: seq<Text>, key: Text, merged: seq<Text>)
    ensures Passed(symbols, key, merged) <==> merged == MergeAll(symbols, key)
  {
    var all := MergeAll(symbols, key);
    var begins := PassBegins(symbols, key);
    if Passed(symbols, key, merged) {
      var others: seq<nat> :| IsPass(symbols, key, others, merged);
      var n: nat := if |all| < |merged| then |all| else |merged|;
      SameBegins(symbols, key, begins, all, others, merged, n);
      Begun(symbols, key, begins, all, n);
      Begun(symbols, key, others, merged, n);
      assert all[..n] == all && merged[..n] == merged;
    }
  }

  lemma LongerPath(symbols: seq<Text>, path: seq<seq<Text>>, ranks: Ranks)
    requires IsPath(path, ranks) && Step(symbols, path[0], ranks)
    ensures IsPath([symbols] + path, ranks)
  {
    var longer := [symbols] + path;
    forall i | 0 < i < |longer|
      ensures Step(longer[i - 1], longer[i], ranks)
    {
      if i > 1 {
        assert Step(path[i - 2], path[i - 1], ranks);
      }
    }
  }

  lemma {:induction false} MergedPath(symbols: seq<Text>, ranks: Ranks) returns (path: seq<seq<Text>>)
    ensures IsPath(path, ranks) && path[0] == symbols && path[|path| - 1] == Merged(symbols, ranks)
    ensures Settled(Merged(symbols, ranks), ranks)
    decreases |symbols|
  {
    var key := Best(symbols, ranks, |symbols|);
    BestOccurs(symbols, ranks);
    if key == [] {
      path := [symbols];
    } else {
      var next := MergeAll(symbols, key);
      var rest := MergedPath(next, ranks);
      PassedIs(symbols, key, next);
      LongerPath(symbols, rest, ranks);
      path := [symbols] + rest;
    }
  }

  lemma {:induction false} PathIsMerged(path: seq<seq<Text>>, ranks: Ranks)
    requires RanksDistinct(ranks) && IsPath(path, ranks) && Settled(path[|path| - 1], ranks)
    ensures path[|path| - 1] == Merged(path[0], ranks)
    decreases |path|
  {
    if |path| == 1 {
      BestIs(path[0], ranks, []);
    } else {
      var rest := path[1..];
      assert Step(path[1 - 1], path[1], ranks);
      var key: Text :| key != [] && IsBest(path[0], ranks, key) && Passed(path[0], key, path[1]);
      PassedIs(path[0], key, path[1]);
      BestIs(path[0], ranks, key);
      forall i | 0 < i < |rest|
        ensures Step(rest[i - 1], rest[i], ranks)
      {
        assert Step(path[i + 1 - 1], path[i + 1], ranks);
      }
      PathIsMerged(rest, ranks);
      BestOccurs(path[0], ranks);
    }
  }

  /** The merged symbols are reached from the first ones by passes for best pairs and hold no pair that
      can be merged; when ranks are distinct, no other symbols are and do. */
  lemma {:induction false} MergedIs(initial: seq<Text>, ranks: Ranks, symbols: seq<Text>)
    ensures symbols == Merged(initial, ranks) ==> IsMerged(initial, symbols, ranks)
    ensures RanksDistinct(ranks) && IsMerged(initial, symbols, ranks) ==> symbols == Merged(initial, ranks)
  {
    var path := MergedPath(initial, ranks);
    if RanksDistinct(ranks) && IsMerged(initial, symbols, ranks) {
      var other: seq<seq<Text>> :| IsPath(other, ranks) && other[0] == initial && other[|other| - 1] == symbols;
      PathIsMerged(other, ranks);
    }
  }

  /** The merge loop of one pretoken. */
  method MergeLoop(initial: seq<Text>, ranks: Ranks) returns (symbols: seq<Text>)
    ensures symbols == Merged(initial, ranks) && IsMerged(initial, symbols, ranks)
  {
    symbols := initial;
    while |symbols| > 1
      invariant Merged(symbols, ranks) == Merged(initial, ranks)
      decreases |symbols|
    {
      var bestRank, bestPair: Text := MAX_RANK, [];
      for index := 0 to |symbols| - 1
        invariant bestPair == Best(symbols, ranks, index + 1)
        invariant bestPair != [] ==> bestPair in ranks
        invariant bestRank <= MAX_RANK && bestRank == if bestPair == [] then MAX_RANK else ranks[bestPair]
        invariant bestPair != [] ==> bestRank < MAX_RANK
      {
        var key := PairKey(symbols[index], symbols[index + 1]);
        if key in ranks && ranks[key] < bestRank {
          bestRank := ranks[key];
          bestPair := key;
        }
      }
      if bestPair == [] {
        break;
      }
      BestOccurs(symbols, ranks);
      symbols := MergePass(symbols, bestPair);
    }
    MergedIs(initial, ranks, symbols);
  }

  lemma {:induction false} PassStep(symbols: seq<Text>, key: Text, index: nat)
    requires index < |symbols|
    ensures index + 1 < |symbols| && KeyAt(symbols, index) == key ==>
              MergeAll(symbols[index..], key)
                == [symbols[index] + symbols[index + 1]] + MergeAll(symbols[index + 2..], key)
    ensures !(index + 1 < |symbols| && KeyAt(symbols, index) == key) ==>
              MergeAll(symbols[index..], key) == [symbols[index]] + MergeAll(symbols[index + 1..], key)
  {
    var rest := symbols[index..];
    assert rest[1..] == symbols[index + 1..];
    if index + 1 < |symbols| {
      assert KeyAt(rest, 0) == KeyAt(symbols, index) && rest[2..] == symbols[index + 2..];
    } else {
      assert rest == [symbols[index]] && rest[1..] == [];
    }
  }

  method MergePass(symbols: seq<Text>, bestPair: Text) returns (merged: seq<Text>)
    ensures merged == MergeAll(symbols, bestPair)
  {
    merged := [];
    var index := 0;
    while index < |symbols|
      invariant index <= |symbols| && merged + MergeAll(symbols[index..], bestPair) == MergeAll(symbols, bestPair)
    {
      PassStep(symbols, bestPair, index);
      if index + 1 < |symbols| && PairKey(symbols[index], symbols[index + 1]) == bestPair {
        Regroup(merged, symbols[index] + symbols[index + 1], MergeAll(symbols[index + 2..], bestPair));
        merged := merged + [symbols[index] + symbols[index + 1]];
        index := index + 2;
      } else {
        Regroup(merged, symbols[index], MergeAll(symbols[index + 1..], bestPair));
        merged := merged + [symbols[index]];
        index := index + 1;
      }
    }
  }

  // ---- merging one occurrence at a time

  /** The first position of a pair at or behind i, or |symbols|. */
  function FirstAt(symbols: seq<Text>, key: Text, i: nat): (r: nat)
    requires i <= |symbols|
    ensures i <= r && (r < |symbols| ==> Occurs(symbols, key, r)) && r <= |symbols|
    ensures forall j: nat | i <= j < r :: !Occurs(symbols, key, j)
    decreases |symbols| - i
  {
    if i == |symbols| || Occurs(symbols, key, i) then i else FirstAt(symbols, key, i + 1)
  }

  /** The leftmost best-ranked pair merged, again and again. */
  function Singly(symbols: seq<Text>, ranks: Ranks): seq<Text>
    decreases |symbols|
  {
    var key := Best(symbols, ranks, |symbols|);
    if key == [] then symbols
    else
      var i := FirstAt(symbols, key, 0);
      if i == |symbols| then symbols else Singly(MergeAt(symbols, i), ranks)
  }

  ghost predicate Plain(symbols: seq<Text>) {
    forall i | 0 <= i < |symbols| :: symbols[i] != [] && 0 !in symbols[i]
  }

  /** A rule that uses the result of another ranks after it. */
  ghost predicate Ordered(ranks: Ranks) {
    forall a, b, c, d | 0 !in a && 0 !in c && PairKey(a, b) in ranks && PairKey(c, d) in ranks
      && (c == a + b || d == a + b) ::
      ranks[PairKey(a, b)] < ranks[PairKey(c, d)]
  }

  /** No pair of the symbols ranks before r. */
  ghost predicate AtLeast(symbols: seq<Text>, ranks: Ranks, r: nat) {
    forall i: nat | Mergeable(symbols, ranks, i) :: r <= ranks[KeyAt(symbols, i)]
  }

  /** The symbols a pass has gone over, with the pair nowhere in them and not across the end. */
  ghost predicate Scanned(done: seq<Text>, rest: seq<Text>, key: Text) {
    forall i: nat | i < |done| :: !Occurs(done + rest, key, i)
  }

  /** The best pair of done + rest, when it stands at the head of rest. */
  lemma {:induction false} BestIsKey(done: seq<Text>, rest: seq<Text>, ranks: Ranks, key: Text)
    requires RanksDistinct(ranks) && key in ranks && ranks[key] < MAX_RANK && key != []
    requires AtLeast(done + rest, ranks, ranks[key]) && |rest| >= 2 && KeyAt(rest, 0) == key && Scanned(done, rest, key)
    ensures Best(done + rest, ranks, |done + rest|) == key && FirstAt(done + rest, key, 0) == |done|
  {
    var all := done + rest;
    assert KeyAt(all, |done|) == KeyAt(rest, 0);
    assert Occurs(all, key, |done|);
    assert all[..|all|] == all;
    BestOfPrefix(all, ranks, |all|);
    BestUnique(all, ranks, key, Best(all, ranks, |all|));
  }

  /** Merging at the head of rest makes no new occurrence of the pair and no better pair. */
  lemma MergeAtHead(done: seq<Text>, rest: seq<Text>, ranks: Ranks, a: Text, b: Text)
    requires Plain(done + rest) && Ordered(ranks) && PairKey(a, b) in ranks && ranks[PairKey(a, b)] < MAX_RANK
    requires |rest| >= 2 && rest[0] == a && rest[1] == b
    requires AtLeast(done + rest, ranks, ranks[PairKey(a, b)]) && Scanned(done, rest, PairKey(a, b))
    ensures Plain(done + [a + b] + rest[2..])
    ensures AtLeast(done + [a + b] + rest[2..], ranks, ranks[PairKey(a, b)])
    ensures Scanned(done + [a + b], rest[2..], PairKey(a, b))
  {
    var all, key, ab := done + rest, PairKey(a, b), a + b;
    var next := done + [ab] + rest[2..];
    assert a == all[|done|] && b == all[|done| + 1];
    forall i | 0 <= i < |next|
      ensures next[i] != [] && 0 !in next[i]
    {
      if i > |done| {
        assert next[i] == all[i + 1];
      } else if i < |done| {
        assert next[i] == all[i];
      }
    }
    forall i: nat | i + 1 < |next|
      ensures i < |done| + 1 ==> KeyAt(next, i) != key
      ensures KeyAt(next, i) in ranks && ranks[KeyAt(next, i)] < MAX_RANK ==> ranks[key] <= ranks[KeyAt(next, i)]
    {
      if i + 1 < |done| {
        assert KeyAt(next, i) == KeyAt(all, i);
        assert !Occurs(all, key, i);
        assert Mergeable(all, ranks, i) <==> KeyAt(next, i) in ranks && ranks[KeyAt(next, i)] < MAX_RANK;
      } else if i + 1 == |done| {
        assert next[i + 1] == ab && next[i] == all[i];
        DifferentPair(next[i], ab, a, b);
      } else if i == |done| {
        assert next[i] == ab && next[i + 1] == all[i + 2];
        DifferentPair(ab, next[i + 1], a, b);
      } else {
        assert next[i] == all[i + 1] && next[i + 1] == all[i + 2];
        assert KeyAt(next, i) == KeyAt(all, i + 1);
        assert Mergeable(all, ranks, i + 1) <==> KeyAt(next, i) in ranks && ranks[KeyAt(next, i)] < MAX_RANK;
      }
    }
    assert (done + [ab]) + rest[2..] == next;
  }

  /** A pair with the merged symbol in it is another pair. */
  lemma DifferentPair(c: Text, d: Text, a: Text, b: Text)
    requires a != [] && b != [] && 0 !in a && 0 !in c && (c == a + b || d == a + b)
    ensures PairKey(c, d) != PairKey(a, b)
  {
    assert |a + b| > |a| && |a + b| > |b|;
    if PairKey(c, d) == PairKey(a, b) {
      KeyInjective(c, d, a, b);
    }
  }

  ghost predicate MidPass(done: seq<Text>, rest: seq<Text>, ranks: Ranks, a: Text, b: Text) {
    && RanksDistinct(ranks) && Ordered(ranks) && Plain(done + rest)
    && PairKey(a, b) in ranks && ranks[PairKey(a, b)] < MAX_RANK && 0 !in a
    && AtLeast(done + rest, ranks, ranks[PairKey(a, b)]) && Scanned(done, rest, PairKey(a, b))
  }

  /** The pair stands at the head of rest: merging it is the next single step. */
  lemma {:induction false} PassMerges(done: seq<Text>, rest: seq<Text>, ranks: Ranks, a: Text, b: Text)
    requires MidPass(done, rest, ranks, a, b) && |rest| >= 2 && KeyAt(rest, 0) == PairKey(a, b)
    ensures rest[0] == a && rest[1] == b && MidPass(done + [a + b], rest[2..], ranks, a, b)
    ensures Singly(done + rest, ranks) == Singly(done + [a + b] + rest[2..], ranks)
  {
    assert rest[0] == (done + rest)[|done|];
    KeyInjective(rest[0], rest[1], a, b);
    BestIsKey(done, rest, ranks, PairKey(a, b));
    MergeAtHead(done, rest, ranks, a, b);
    assert MergeAt(done + rest, |done|) == done + [a + b] + rest[2..];
  }

  /** Another pair stands at the head of rest: the scan goes on. */
  lemma PassSkips(done: seq<Text>, rest: seq<Text>, ranks: Ranks, a: Text, b: Text)
    requires MidPass(done, rest, ranks, a, b) && |rest| >= 2 && KeyAt(rest, 0) != PairKey(a, b)
    ensures done + [rest[0]] + rest[1..] == done + rest && MidPass(done + [rest[0]], rest[1..], ranks, a, b)
  {
    var next, key := done + [rest[0]], PairKey(a, b);
    assert next + rest[1..] == done + rest;
    assert KeyAt(done + rest, |done|) == KeyAt(rest, 0);
    forall i: nat | i < |next|
      ensures !Occurs(next + rest[1..], key, i)
    {
      if i < |done| {
        assert !Occurs(done + rest, key, i);
      }
    }
  }

  lemma Regroup(done: seq<Text>, x: Text, rest: seq<Text>)
    ensures done + ([x] + rest) == done + [x] + rest
  {
  }

  /** What is left of a pass, one merge at a time. */
  lemma {:induction false} PassIsSteps(done: seq<Text>, rest: seq<Text>, ranks: Ranks, a: Text, b: Text)
    requires MidPass(done, rest, ranks, a, b)
    ensures Singly(done + rest, ranks) == Singly(done + MergeAll(rest, PairKey(a, b)), ranks)
    decreases |rest|
  {
    var key := PairKey(a, b);
    if |rest| >= 2 {
      if KeyAt(rest, 0) == key {
        PassMerges(done, rest, ranks, a, b);
        PassIsSteps(done + [a + b], rest[2..], ranks, a, b);
        Regroup(done, a + b, MergeAll(rest[2..], key));
      } else {
        PassSkips(done, rest, ranks, a, b);
        PassIsSteps(done + [rest[0]], rest[1..], ranks, a, b);
        Regroup(done, rest[0], MergeAll(rest[1..], key));
      }
    }
  }

  lemma {:induction false} MergedPlain(symbols: seq<Text>, key: Text)
    requires Plain(symbols)
    ensures Plain(MergeAll(symbols, key))
    decreases |symbols|
  {
    if |symbols| >= 2 {
      MergedPlain(symbols[2..], key);
      MergedPlain(symbols[1..], key);
    }
  }

  /** Merging in passes and merging one leftmost best pair at a time come to the same, if every rule
      that uses the result of another ranks after it.  The condition is sufficient and, as PassesNeedOrder
      shows, cannot be dropped; it is not claimed to be exact, since a table may break it in rules that no
      text brings together. */
  lemma {:induction false} PassesAreSteps(symbols: seq<Text>, ranks: Ranks)
    requires RanksDistinct(ranks) && Ordered(ranks) && Plain(symbols)
    ensures Merged(symbols, ranks) == Singly(symbols, ranks)
    decreases |symbols|
  {
    var key := Best(symbols, ranks, |symbols|);
    BestOccurs(symbols, ranks);
    if key != [] {
      var i: nat :| Occurs(symbols, key, i);
      MergedPlain(symbols, key);
      PassesAreSteps(MergeAll(symbols, key), ranks);
      assert [] + symbols == symbols && [] + MergeAll(symbols, key) == MergeAll(symbols, key);
      PassIsSteps([], symbols, ranks, symbols[i], symbols[i + 1]);
    }
  }

  // ---- the order is needed

  /** The rule for "aba" ranked before the one for "ab". */
  function Disordered(): Ranks {
    map[PairKey([97], [98]) := 1, PairKey([97, 98], [97]) := 0]
  }

  lemma Pairs(a: Text, b: Text)
    requires 0 !in a
    ensures PairKey(a, b) in Disordered() <==> (a == [97] && b == [98]) || (a == [97, 98] && b == [97])
    ensures a == [97] && b == [98] ==> Disordered()[PairKey(a, b)] == 1
    ensures a == [97, 98] && b == [97] ==> Disordered()[PairKey(a, b)] == 0
  {
    if PairKey(a, b) == PairKey([97], [98]) {
      KeyInjective(a, b, [97], [98]);
    }
    if PairKey(a, b) == PairKey([97, 98], [97]) {
      KeyInjective(a, b, [97, 98], [97]);
    }
  }

  lemma {:induction false} BestIs(symbols: seq<Text>, ranks: Ranks, key: Text)
    requires RanksDistinct(ranks) && IsBest(symbols, ranks, key)
    ensures Best(symbols, ranks, |symbols|) == key
  {
    BestOccurs(symbols, ranks);
    BestUnique(symbols, ranks, key, Best(symbols, ranks, |symbols|));
  }

  ghost predicate Run(ranks: Ranks, a: Text, b: Text) {
    && RanksDistinct(ranks) && 0 !in a && 0 !in b
    && PairKey(a, b) in ranks && ranks[PairKey(a, b)] == 1 && PairKey(a + b, a) in ranks
       && ranks[PairKey(a + b, a)] == 0
    && PairKey(b, a) !in ranks && PairKey(a + b, a + b) !in ranks && PairKey(a + b + a, b) !in ranks
  }

  lemma {:induction false} RunMerged(ranks: Ranks, a: Text, b: Text)
    requires Run(ranks, a, b) && PairKey(b, a) != PairKey(a, b)
    ensures Merged([a, b, a, b], ranks) == [a + b, a + b]
  {
    var symbols, key, rest := [a, b, a, b], PairKey(a, b), [a, b];
    assert Occurs(symbols, key, 0);
    BestIs(symbols, ranks, key);
    assert KeyAt(symbols, 0) == key && KeyAt(rest, 0) == key;
    assert symbols[2..] == rest && rest[2..] == [];
    assert MergeAll(rest, key) == [a + b] + MergeAll(rest[2..], key);
    assert MergeAll(symbols, key) == [a + b] + MergeAll(rest, key) == [a + b, a + b];
    BestIs([a + b, a + b], ranks, []);
    BestOccurs(symbols, ranks);
  }

  lemma {:induction false} RunSingly(ranks: Ranks, a: Text, b: Text)
    requires Run(ranks, a, b)
    ensures Singly([a, b, a, b], ranks) == [a + b + a, b]
  {
    var symbols, once, last := [a, b, a, b], [a + b, a, b], [a + b + a, b];
    assert Occurs(symbols, PairKey(a, b), 0);
    BestIs(symbols, ranks, PairKey(a, b));
    assert MergeAt(symbols, 0) == once;
    assert Occurs(once, PairKey(a + b, a), 0);
    BestIs(once, ranks, PairKey(a + b, a));
    assert MergeAt(once, 0) == last;
    BestIs(last, ranks, []);
    assert Singly(once, ranks) == Singly(last, ranks) == last;
  }

  /** Without that order the two can differ: on "abab" a pass leaves "ab ab", single merges "aba b". */
  lemma PassesNeedOrder()
    ensures RanksDistinct(Disordered()) && Plain([[97], [98], [97], [98]])
    ensures Merged([[97], [98], [97], [98]], Disordered()) != Singly([[97], [98], [97], [98]], Disordered())
  {
    var ranks, a: Text, b: Text := Disordered(), [97], [98];
    Pairs(a, b);
    Pairs(b, a);
    Pairs(a + b, a);
    Pairs(a + b, a + b);
    Pairs(a + b + a, b);
    assert PairKey(b, a)[0] != PairKey(a, b)[0];
    RunMerged(ranks, a, b);
    RunSingly(ranks, a, b);
    assert |(a + b) + a| == 3;
  }
}
