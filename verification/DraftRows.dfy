/** The rows of the output head that the draft head keeps: the best ranked tokens, with room made for
    the special tokens. */
module DraftRows {
  datatype Selection = Selected(rows: seq<nat>) | CorruptArtifact

  /** The ranking: more occurrences first, then the smaller token. */
  predicate Better(counts: seq<int>, left: nat, right: nat)
    requires left < |counts| && right < |counts|
  {
    if counts[left] != counts[right] then counts[left] > counts[right] else left < right
  }

  ghost predicate InRange(rows: seq<nat>, n: nat) {
    forall i | 0 <= i < |rows| :: rows[i] < n
  }

  ghost predicate Distinct(rows: seq<nat>) {
    forall i, j | 0 <= i < j < |rows| :: rows[i] != rows[j]
  }

  /** Best first; in particular no row occurs twice. */
  ghost predicate Ranked(counts: seq<int>, rows: seq<nat>) {
    InRange(rows, |counts|) && forall i, j | 0 <= i < j < |rows| :: Better(counts, rows[i], rows[j])
  }

  // ---- sorting

  function Insert(counts: seq<int>, row: nat, rows: seq<nat>): (r: seq<nat>)
    requires row < |counts| && InRange(rows, |counts|)
    ensures InRange(r, |counts|) && |r| == |rows| + 1
  {
    if rows == [] then [row]
    else if Better(counts, row, rows[0]) then [row] + rows
    else [rows[0]] + Insert(counts, row, rows[1..])
  }

  function Sort(counts: seq<int>, rows: seq<nat>): (r: seq<nat>)
    requires InRange(rows, |counts|)
    ensures InRange(r, |counts|) && |r| == |rows|
  {
    if rows == [] then [] else Insert(counts, rows[0], Sort(counts, rows[1..]))
  }

  lemma {:induction false} InsertMembers(counts: seq<int>, row: nat, rows: seq<nat>, x: nat)
    requires row < |counts| && InRange(rows, |counts|)
    ensures x in Insert(counts, row, rows) <==> x == row || x in rows
  {
    if rows != [] && !Better(counts, row, rows[0]) {
      InsertMembers(counts, row, rows[1..], x);
      assert rows == [rows[0]] + rows[1..];
    }
  }

  lemma {:induction false} SortMembers(counts: seq<int>, rows: seq<nat>, x: nat)
    requires InRange(rows, |counts|)
    ensures x in Sort(counts, rows) <==> x in rows
  {
    if rows != [] {
      SortMembers(counts, rows[1..], x);
      InsertMembers(counts, rows[0], Sort(counts, rows[1..]), x);
      assert rows == [rows[0]] + rows[1..];
    }
  }

  lemma {:induction false} InsertRanked(counts: seq<int>, row: nat, rows: seq<nat>)
    requires row < |counts| && Ranked(counts, rows) && row !in rows
    ensures Ranked(counts, Insert(counts, row, rows))
  {
    if rows != [] && !Better(counts, row, rows[0]) {
      var rest := Insert(counts, row, rows[1..]);
      InsertRanked(counts, row, rows[1..]);
      forall j | 0 <= j < |rest|
        ensures Better(counts, rows[0], rest[j])
      {
        InsertMembers(counts, row, rows[1..], rest[j]);
        if rest[j] != row {
          var i :| 0 <= i < |rows[1..]| && rows[1..][i] == rest[j];
          assert rows[i + 1] == rest[j];
        }
      }
    }
  }

  lemma {:induction false} SortRanked(counts: seq<int>, rows: seq<nat>)
    requires InRange(rows, |counts|) && Distinct(rows)
    ensures Ranked(counts, Sort(counts, rows))
  {
    if rows != [] {
      SortRanked(counts, rows[1..]);
      SortMembers(counts, rows[1..], rows[0]);
      InsertRanked(counts, rows[0], Sort(counts, rows[1..]));
    }
  }

  /** Ranked rows with the same members are the same. */
  lemma {:induction false} RankedUnique(counts: seq<int>, a: seq<nat>, b: seq<nat>)
    requires Ranked(counts, a) && Ranked(counts, b) && |a| == |b|
    requires forall x :: x in a <==> x in b
    ensures a == b
  {
    if a != [] {
      assert a[0] in b && b[0] in a;
      var i :| 0 <= i < |b| && b[i] == a[0];
      var j :| 0 <= j < |a| && a[j] == b[0];
      assert a[0] == b[0];
      forall x
        ensures x in a[1..] <==> x in b[1..]
      {
        RestMembers(counts, a, x);
        RestMembers(counts, b, x);
      }
      RankedUnique(counts, a[1..], b[1..]);
    }
  }

  lemma RestMembers(counts: seq<int>, rows: seq<nat>, x: nat)
    requires Ranked(counts, rows) && rows != []
    ensures x in rows[1..] <==> x in rows && x != rows[0]
  {
    assert rows == [rows[0]] + rows[1..];
    if x in rows[1..] {
      var i :| 0 <= i < |rows[1..]| && rows[1..][i] == x;
      assert Better(counts, rows[0], rows[i + 1]);
    }
  }

  // ---- counting

  ghost function Members(rows: seq<nat>): set<nat> {
    set x | x in rows
  }

  lemma {:induction false} DistinctCount(rows: seq<nat>)
    requires Distinct(rows)
    ensures |Members(rows)| == |rows|
  {
    if rows != [] {
      DistinctCount(rows[1..]);
      assert Members(rows) == Members(rows[1..]) + {rows[0]};
    }
  }

  lemma {:induction false} SetCount(rows: seq<nat>)
    ensures |Members(rows)| <= |rows|
  {
    if rows != [] {
      SetCount(rows[1..]);
      assert Members(rows) == Members(rows[1..]) + {rows[0]};
    }
  }

  lemma Subset(a: set<nat>, b: set<nat>)
    requires a <= b
    ensures |a| <= |b|
  {
    assert b == a + (b - a);
  }

  /** Distinct rows without some required token are not all required. */
  lemma RoomLeft(rows: seq<nat>, required: seq<nat>, token: nat)
    requires Distinct(rows) && token in required && token !in rows && |required| <= |rows|
    ensures exists i | 0 <= i < |rows| :: rows[i] !in required
  {
    if forall i | 0 <= i < |rows| :: rows[i] in required {
      DistinctCount(rows);
      SetCount(required);
      Subset(Members(rows) + {token}, Members(required));
      assert false;
    }
  }

  // ---- the selection

  /** What is to be selected: the required tokens, and of the others the best ranked ones. */
  ghost predicate Chosen(counts: seq<int>, tokens: nat, headRows: nat, required: seq<nat>, rows: seq<nat>) {
    && |rows| == headRows && tokens <= |counts| && InRange(rows, tokens) && Ranked(counts, rows)
    && (forall t | t in required :: t in rows)
    && (forall r: nat, s: nat | r in rows && s < tokens && r !in required && s !in rows :: Better(counts, r, s))
  }

  /** The choice is determined by what is chosen. */
  lemma ChosenUnique(counts: seq<int>, tokens: nat, headRows: nat, required: seq<nat>, a: seq<nat>, b: seq<nat>)
    requires Chosen(counts, tokens, headRows, required, a) && Chosen(counts, tokens, headRows, required, b)
    ensures a == b
  {
    ChosenContained(counts, tokens, headRows, required, a, b);
    ChosenContained(counts, tokens, headRows, required, b, a);
    RankedUnique(counts, a, b);
  }

  lemma ChosenContained(counts: seq<int>, tokens: nat, headRows: nat, required: seq<nat>, a: seq<nat>, b: seq<nat>)
    requires Chosen(counts, tokens, headRows, required, a) && Chosen(counts, tokens, headRows, required, b)
    ensures forall r | r in a :: r in b
  {
    forall r | r in a
      ensures r in b
    {
      if r !in b {
        var s := Missing(a, b, r);
        assert false;
      }
    }
  }

  /** Of two selections of the same size, one not within the other, neither contains the other. */
  lemma Missing(a: seq<nat>, b: seq<nat>, r: nat) returns (s: nat)
    requires Distinct(a) && Distinct(b) && |a| == |b| && r in a && r !in b
    ensures s in b && s !in a
  {
    DistinctCount(a);
    DistinctCount(b);
    if Members(b) <= Members(a) {
      Subset(Members(b) + {r}, Members(a));
      assert false;
    }
    s :| s in Members(b) && s !in Members(a);
  }

  // ---- the choice is the best one

  /** The counts of the rows below n, added up; each row counts once. */
  ghost function SumOf(counts: seq<int>, rows: seq<nat>, n: nat): int
    requires n <= |counts|
  {
    if n == 0 then 0 else SumOf(counts, rows, n - 1) + if n - 1 in rows then counts[n - 1] else 0
  }

  ghost function RowsBelow(rows: seq<nat>, n: nat): nat {
    if n == 0 then 0 else RowsBelow(rows, n - 1) + if n - 1 in rows then 1 else 0
  }

  ghost function Below(rows: seq<nat>, n: nat): set<nat> {
    set x | x in rows && x < n
  }

  lemma {:induction false} RowsCounted(rows: seq<nat>, n: nat)
    ensures RowsBelow(rows, n) == |Below(rows, n)|
  {
    if n > 0 {
      RowsCounted(rows, n - 1);
      assert Below(rows, n) == if n - 1 in rows then Below(rows, n - 1) + {n - 1} else Below(rows, n - 1);
    }
  }

  lemma {:induction false} AllCounted(rows: seq<nat>, n: nat)
    requires InRange(rows, n) && Distinct(rows)
    ensures RowsBelow(rows, n) == |rows|
  {
    RowsCounted(rows, n);
    DistinctCount(rows);
    assert Below(rows, n) == Members(rows);
  }

  /** A count that divides the rows: none left out has more, none kept that could be left out has less. */
  ghost predicate Divides(counts: seq<int>, required: seq<nat>, rows: seq<nat>, n: nat, bound: int)
    requires n <= |counts|
  {
    && (forall s: nat | s < n && s !in rows :: counts[s] <= bound)
    && forall r: nat | r < n && r in rows && r !in required :: bound <= counts[r]
  }

  /** The largest count among the rows below n that are left out, if there are any. */
  lemma {:induction false} LargestOut(counts: seq<int>, rows: seq<nat>, n: nat) returns (any: bool, s: nat)
    requires n <= |counts|
    ensures any ==> s < n && s !in rows && forall t: nat | t < n && t !in rows :: counts[t] <= counts[s]
    ensures !any ==> forall t: nat | t < n :: t in rows
  {
    any, s := false, 0;
    if n > 0 {
      any, s := LargestOut(counts, rows, n - 1);
      if n - 1 !in rows && (!any || counts[s] < counts[n - 1]) {
        any, s := true, n - 1;
      }
    }
  }

  lemma {:induction false} SmallestCount(counts: seq<int>, n: nat) returns (bound: int)
    requires n <= |counts|
    ensures forall t | 0 <= t < n :: bound <= counts[t]
  {
    bound := 0;
    if n > 0 {
      bound := SmallestCount(counts, n - 1);
      if counts[n - 1] < bound { bound := counts[n - 1]; }
    }
  }

  lemma DividingCount(counts: seq<int>, tokens: nat, headRows: nat, required: seq<nat>, rows: seq<nat>)
    returns (bound: int)
    requires Chosen(counts, tokens, headRows, required, rows)
    ensures Divides(counts, required, rows, tokens, bound)
  {
    var any, s := LargestOut(counts, rows, tokens);
    if any {
      bound := counts[s];
      forall r: nat | r < tokens && r in rows && r !in required
        ensures bound <= counts[r]
      {
        assert Better(counts, r, s);
      }
    } else {
      bound := SmallestCount(counts, tokens);
    }
  }

  /** Row by row, what exceeds the dividing count. */
  lemma {:induction false} Exceeds(counts: seq<int>, required: seq<nat>, rows: seq<nat>, others: seq<nat>, n: nat,
                                   bound: int)
    requires n <= |counts| && Divides(counts, required, rows, n, bound)
    requires forall t | t in required :: t in others
    ensures SumOf(counts, others, n) - bound * RowsBelow(others, n)
            <= SumOf(counts, rows, n) - bound * RowsBelow(rows, n)
  {
    if n > 0 {
      Exceeds(counts, required, rows, others, n - 1, bound);
      OneMore(bound, RowsBelow(rows, n - 1));
      OneMore(bound, RowsBelow(others, n - 1));
    }
  }

  lemma OneMore(bound: int, n: nat)
    ensures bound * (n + 1) == bound * n + bound
  {
  }

  /** No other rows of that number that hold the required tokens occur more often. */
  lemma {:induction false} ChosenIsLargest(counts: seq<int>, tokens: nat, headRows: nat, required: seq<nat>,
                                           rows: seq<nat>, others: seq<nat>)
    requires Chosen(counts, tokens, headRows, required, rows)
    requires |others| == headRows && Distinct(others) && InRange(others, tokens)
    requires forall t | t in required :: t in others
    ensures SumOf(counts, others, tokens) <= SumOf(counts, rows, tokens)
  {
    var bound := DividingCount(counts, tokens, headRows, required, rows);
    Exceeds(counts, required, rows, others, tokens, bound);
    RankedDistinct(counts, rows);
    AllCounted(rows, tokens);
    AllCounted(others, tokens);
  }

  /** Chosen rows are listed by falling counts, equal counts by rising tokens, and the same holds between
      an optional row that is kept and one that is left out. */
  lemma ChosenOrder(counts: seq<int>, tokens: nat, headRows: nat, required: seq<nat>, rows: seq<nat>)
    requires Chosen(counts, tokens, headRows, required, rows)
    ensures forall i, j | 0 <= i < j < |rows| ::
              counts[rows[i]] > counts[rows[j]] || (counts[rows[i]] == counts[rows[j]] && rows[i] < rows[j])
    ensures forall r: nat, s: nat | r in rows && r !in required && s < tokens && s !in rows ::
              counts[r] > counts[s] || (counts[r] == counts[s] && r < s)
  {
    forall r: nat, s: nat | r in rows && r !in required && s < tokens && s !in rows
      ensures counts[r] > counts[s] || (counts[r] == counts[s] && r < s)
    {
      assert Better(counts, r, s);
    }
  }

  /** The first n rows of the ranking of all tokens. */
  ghost predicate Front(counts: seq<int>, tokens: nat, best: seq<nat>) {
    && tokens <= |counts| && InRange(best, tokens) && Ranked(counts, best)
    && forall r: nat, s: nat | r in best && s < tokens && s !in best :: Better(counts, r, s)
  }

  /** Sorts the tokens and keeps the best ones. */
  method BestTokens(counts: seq<int>, tokens: nat, headRows: nat) returns (best: seq<nat>)
    requires headRows <= tokens <= |counts|
    ensures |best| == headRows && Front(counts, tokens, best)
  {
    var rows := seq(tokens, i requires 0 <= i < tokens => i as nat);
    var sorted := Sort(counts, rows);
    SortRanked(counts, rows);
    best := sorted[..headRows];
    FrontOfSorted(counts, tokens, rows, sorted, headRows);
  }

  lemma Among(rows: seq<nat>, i: nat, row: nat)
    requires i < |rows| && rows[i] == row
    ensures row in rows
  {
  }

  lemma {:induction false} FrontOfSorted(counts: seq<int>, tokens: nat, rows: seq<nat>, sorted: seq<nat>, n: nat)
    requires n <= tokens <= |counts| && |rows| == tokens && forall i | 0 <= i < tokens :: rows[i] == i
    requires sorted == Sort(counts, rows) && Ranked(counts, sorted)
    ensures Front(counts, tokens, sorted[..n])
  {
    var best := sorted[..n];
    forall i | 0 <= i < n
      ensures best[i] < tokens
    {
      SortMembers(counts, rows, best[i]);
    }
    forall r: nat, s: nat | r in best && s < tokens && s !in best
      ensures Better(counts, r, s)
    {
      SortMembers(counts, rows, s);
      assert rows[s] == s;
      var i :| 0 <= i < n && best[i] == r;
      var j :| 0 <= j < |sorted| && sorted[j] == s;
      assert j >= n;
    }
  }

  /** The state of the replacement: rows from a position on are required ones, those before it are
      still the best ones. */
  ghost predicate Replacing(best: seq<nat>, required: seq<nat>, rows: seq<nat>, replacement: nat) {
    && |rows| == |best| && replacement <= |rows| && Distinct(rows)
    && (forall i | 0 <= i < replacement :: rows[i] == best[i])
    && (forall i | replacement <= i < |rows| :: rows[i] in required && (best[i] in required ==> rows[i] == best[i]))
  }

  /** Puts a required token in the place of the worst row that is not required. */
  method ReplaceOne(best: seq<nat>, required: seq<nat>, token: nat, rows: seq<nat>, replacement: nat)
    returns (rows': seq<nat>, replacement': nat, candidate: nat)
    requires Replacing(best, required, rows, replacement) && token in required && token !in rows && |required| <= |rows|
    ensures Replacing(best, required, rows', replacement') && token in rows'
    ensures candidate !in required && candidate in rows
    ensures forall t :: t in rows' <==> t == token || (t in rows && t != candidate)
  {
    rows', replacement', candidate := rows, replacement, 0;
    while replacement' != 0
      invariant rows' == rows && Replacing(best, required, rows, replacement')
    {
      replacement' := replacement' - 1;
      candidate := rows[replacement'];
      if candidate !in required {
        rows' := rows[replacement' := token];
        assert rows'[replacement'] == token;
        Replaced(rows, replacement', token, rows');
        return;
      }
    }
    RoomLeft(rows, required, token);
    assert false;
  }

  lemma Replaced(rows: seq<nat>, i: nat, token: nat, rows': seq<nat>)
    requires i < |rows| && rows' == rows[i := token] && Distinct(rows) && token !in rows
    ensures Distinct(rows')
    ensures forall t :: t in rows' <==> t == token || (t in rows && t != rows[i])
  {
    forall t
      ensures t in rows' <==> t == token || (t in rows && t != rows[i])
    {
      if t in rows && t != rows[i] {
        var j :| 0 <= j < |rows| && rows[j] == t;
        assert rows'[j] == t;
      }
      if t in rows' && t != token {
        var j :| 0 <= j < |rows| && rows'[j] == t;
        assert rows[j] == t;
      }
      assert rows'[i] == token;
    }
  }

  ghost predicate Marked(selected: seq<bool>, rows: seq<nat>) {
    forall t | 0 <= t < |selected| :: selected[t] <==> t in rows
  }

  method MarkRows(rows: seq<nat>, tokens: nat) returns (selected: seq<bool>)
    requires InRange(rows, tokens)
    ensures |selected| == tokens && Marked(selected, rows)
  {
    selected := seq(tokens, _ => false);
    for i := 0 to |rows|
      invariant |selected| == tokens && Marked(selected, rows[..i])
    {
      selected := selected[rows[i] := true];
      assert rows[..i + 1] == rows[..i] + [rows[i]];
    }
    assert rows[..|rows|] == rows;
  }

  /** Makes room for every required token. */
  method AddRequired(best: seq<nat>, required: seq<nat>, tokens: nat) returns (rows: seq<nat>, replacement: nat)
    requires InRange(best, tokens) && Distinct(best) && InRange(required, tokens) && |required| <= |best|
    ensures Replacing(best, required, rows, replacement) && forall t | t in required :: t in rows
  {
    var selected := MarkRows(best, tokens);
    rows := best;
    replacement := |rows|;
    for k := 0 to |required|
      invariant Replacing(best, required, rows, replacement)
      invariant |selected| == tokens && Marked(selected, rows)
      invariant forall j | 0 <= j < k :: required[j] in rows
    {
      var token := required[k];
      if !selected[token] {
        var candidate;
        RowsInRange(tokens, best, required, rows, replacement);
        rows, replacement, candidate := ReplaceOne(best, required, token, rows, replacement);
        selected := selected[candidate := false][token := true];
      }
    }
  }

  /** The rows that the replacement leaves are the ones to be chosen. */
  lemma ReplacedIsBest(counts: seq<int>, tokens: nat, best: seq<nat>, required: seq<nat>, rows: seq<nat>,
                       replacement: nat, r: nat, s: nat)
    requires Front(counts, tokens, best) && Replacing(best, required, rows, replacement)
    requires r in rows && r !in required && s < tokens && s !in rows
    ensures r < tokens && Better(counts, r, s)
  {
    var i :| 0 <= i < |rows| && rows[i] == r;
    assert best[i] == r && r in best;
    if s in best {
      var j :| 0 <= j < |best| && best[j] == s;
      if j < replacement { Among(rows, j, s); }
    }
  }

  lemma RowsInRange(tokens: nat, best: seq<nat>, required: seq<nat>, rows: seq<nat>, replacement: nat)
    requires Replacing(best, required, rows, replacement) && InRange(best, tokens) && InRange(required, tokens)
    ensures InRange(rows, tokens)
  {
  }

  lemma RankedDistinct(counts: seq<int>, rows: seq<nat>)
    requires Ranked(counts, rows)
    ensures Distinct(rows)
  {
  }

  lemma {:induction false} SortedIsChosen(counts: seq<int>, tokens: nat, best: seq<nat>, required: seq<nat>,
                                          rows: seq<nat>, replacement: nat, sorted: seq<nat>)
    requires Front(counts, tokens, best) && Replacing(best, required, rows, replacement) && InRange(rows, tokens)
    requires (forall t | t in required :: t in rows) && sorted == Sort(counts, rows)
    ensures Chosen(counts, tokens, |best|, required, sorted)
  {
    SortRanked(counts, rows);
    forall x
      ensures x in sorted <==> x in rows
    {
      SortMembers(counts, rows, x);
    }
    forall i | 0 <= i < |sorted|
      ensures sorted[i] < tokens
    {
      assert sorted[i] in rows;
    }
    forall r: nat, s: nat | r in sorted && s < tokens && r !in required && s !in sorted
      ensures Better(counts, r, s)
    {
      ReplacedIsBest(counts, tokens, best, required, rows, replacement, r, s);
    }
  }

  /** Ranks, makes room, and ranks again. */
  method ChooseRows(counts: seq<int>, tokens: nat, headRows: nat, required: seq<nat>) returns (rows: seq<nat>)
    requires 0 < headRows <= tokens <= |counts| && |required| <= headRows && InRange(required, tokens)
    ensures Chosen(counts, tokens, headRows, required, rows)
  {
    var best := BestTokens(counts, tokens, headRows);
    RankedDistinct(counts, best);
    var replaced, replacement := AddRequired(best, required, tokens);
    RowsInRange(tokens, best, required, replaced, replacement);
    rows := Sort(counts, replaced);
    SortedIsChosen(counts, tokens, best, required, replaced, replacement, rows);
  }

  /** The ranking file holds one or more tables of counts, and nothing else. */
  predicate WholeTables(fileBytes: nat, rowBytes: nat)
    requires rowBytes > 0
  {
    fileBytes != 0 && fileBytes % rowBytes == 0
  }

  lemma TableFits(fileBytes: nat, rowBytes: nat)
    requires rowBytes > 0
    ensures WholeTables(fileBytes, rowBytes) <==> fileBytes >= rowBytes && fileBytes % rowBytes == 0
  {
  }

  /** select_draft_head_rows: of a file with whole tables, eight bytes a count, the first is used. */
  method SelectDraftHeadRows(fileBytes: nat, table: seq<int>, vocabulary: nat, tokens: nat, headRows: nat,
                             required: seq<nat>)
    returns (r: Selection)
    requires 0 < headRows <= tokens <= vocabulary && fileBytes / 8 == |table|
    requires |required| <= headRows && InRange(required, tokens)
    ensures r.Selected? <==> WholeTables(fileBytes, 8 * vocabulary)
    ensures r.Selected? ==> vocabulary <= |table| && Chosen(table[..vocabulary], tokens, headRows, required, r.rows)
  {
    var rowBytes := 8 * vocabulary;
    TableFits(fileBytes, rowBytes);
    if fileBytes < rowBytes || fileBytes % rowBytes != 0 { return CorruptArtifact; }
    var rows := ChooseRows(table[..vocabulary], tokens, headRows, required);
    r := Selected(rows);
  }

  const VOCABULARY := 248320
  const TOKENIZER_VOCABULARY := 248077
  const DRAFT_HEAD_ROWS := 98304

  /** The required special tokens. */
  function RequiredSpecialTokens(): seq<nat> {
    [248044, 248045, 248046, 248047, 248048, 248049, 248050, 248051, 248052, 248053, 248054, 248055, 248056, 248057,
     248070, 248071, 248072, 248073, 248074, 248075, 248076]
  }

  /** For the constants of the model the selection is defined, and whatever the counts are it holds
      every special token. */
  method SelectForModel(fileBytes: nat, table: seq<int>) returns (r: Selection)
    requires fileBytes / 8 == |table|
    ensures r.Selected? <==> WholeTables(fileBytes, 8 * VOCABULARY)
    ensures r.Selected? ==> |r.rows| == DRAFT_HEAD_ROWS && forall t | t in RequiredSpecialTokens() :: t in r.rows
  {
    r := SelectDraftHeadRows(fileBytes, table, VOCABULARY, TOKENIZER_VOCABULARY, DRAFT_HEAD_ROWS,
                             RequiredSpecialTokens());
  }
}
