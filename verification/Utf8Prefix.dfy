/** The longest prefix of a text that is made of complete, structurally valid UTF-8 sequences. */
module Utf8Prefix {
  import opened Utf8

  /** The text from one offset to another is made of complete sequences. */
  predicate Runs(text: Text, from: nat, to: nat)
    requires to <= |text|
    decreases |text| - from
  {
    from == to || (from < to && SequenceLength(text, from) != 0 && from + SequenceLength(text, from) <= to
                   && Runs(text, from + SequenceLength(text, from), to))
  }

  predicate WellFormed(text: Text) {
    Runs(text, 0, |text|)
  }

  function PrefixFrom(text: Text, offset: nat): (r: nat)
    requires offset <= |text|
    ensures offset <= r <= |text|
    decreases |text| - offset
  {
    var n := SequenceLength(text, offset);
    if n == 0 then offset else PrefixFrom(text, offset + n)
  }

  /** Sequences do not depend on what follows them. */
  lemma SequenceKept(text: Text, n: nat, offset: nat)
    requires n <= |text|
    ensures SequenceLength(text[..n], offset) != 0 ==> SequenceLength(text, offset) == SequenceLength(text[..n], offset)
    ensures SequenceLength(text, offset) != 0 && offset + SequenceLength(text, offset) <= n ==>
              SequenceLength(text[..n], offset) == SequenceLength(text, offset)
  {
    if offset < n {
      assert text[..n][offset] == text[offset];
      assert forall k | offset < k < n :: text[..n][k] == text[k];
    }
  }

  lemma {:induction false} RunsKept(text: Text, n: nat, from: nat, to: nat)
    requires from <= to <= n <= |text|
    ensures Runs(text[..n], from, to) <==> Runs(text, from, to)
    decreases |text| - from
  {
    if from < to {
      SequenceKept(text, n, from);
      var k := SequenceLength(text, from);
      if k != 0 && from + k <= to {
        RunsKept(text, n, from + k, to);
      }
    }
  }

  /** The scan stops at the end of the longest run. */
  lemma {:induction false} PrefixRuns(text: Text, offset: nat)
    requires offset <= |text|
    ensures Runs(text, offset, PrefixFrom(text, offset))
    ensures forall n | PrefixFrom(text, offset) < n <= |text| :: !Runs(text, offset, n)
    decreases |text| - offset
  {
    var k := SequenceLength(text, offset);
    if k != 0 {
      PrefixRuns(text, offset + k);
    }
  }

  /** The prefix is well formed, and no longer prefix is. */
  lemma {:induction false} PrefixIsLongest(text: Text)
    ensures WellFormed(text[..PrefixFrom(text, 0)])
    ensures forall n | PrefixFrom(text, 0) < n <= |text| :: !WellFormed(text[..n])
  {
    PrefixRuns(text, 0);
    RunsKept(text, PrefixFrom(text, 0), 0, PrefixFrom(text, 0));
    forall n | PrefixFrom(text, 0) < n <= |text|
      ensures !WellFormed(text[..n])
    {
      RunsKept(text, n, 0, n);
    }
  }

  method ValidUtf8Prefix(text: Text) returns (offset: nat)
    ensures offset == PrefixFrom(text, 0)
    ensures offset <= |text| && WellFormed(text[..offset]) && forall n | offset < n <= |text| :: !WellFormed(text[..n])
  {
    PrefixIsLongest(text);
    offset := 0;
    while offset < |text|
      invariant offset <= |text| && PrefixFrom(text, offset) == PrefixFrom(text, 0)
    {
      var first, length := text[offset], 0;
      if first < 0x80 {
        length := 1;
      } else if 0xC0 <= first < 0xE0 {
        length := 2;
      } else if 0xE0 <= first < 0xF0 {
        length := 3;
      } else if 0xF0 <= first < 0xF8 {
        length := 4;
      } else {
        return;
      }
      if offset + length > |text| { return; }
      for index := 1 to length
        invariant forall k | offset < k < offset + index :: Continuation(text[k])
      {
        if !Continuation(text[offset + index]) { return; }
      }
      offset := offset + length;
    }
  }

  // ---- texts that grow

  lemma {:induction false} PrefixGrowsFrom(text: Text, n: nat, offset: nat)
    requires offset <= n <= |text|
    ensures PrefixFrom(text[..n], offset) <= PrefixFrom(text, offset)
    ensures Runs(text, PrefixFrom(text[..n], offset), PrefixFrom(text, offset))
    decreases |text| - offset
  {
    SequenceKept(text, n, offset);
    var k := SequenceLength(text[..n], offset);
    if k != 0 {
      PrefixGrowsFrom(text, n, offset + k);
    } else {
      PrefixRuns(text, offset);
    }
  }

  /** A run, cut out of its text. */
  lemma {:induction false} RunsAlone(text: Text, from: nat, at: nat, to: nat)
    requires from <= at <= to <= |text|
    ensures Runs(text[from..to], at - from, to - from) <==> Runs(text, at, to)
    decreases |text| - at
  {
    if at < to {
      var part := text[from..to];
      assert part[at - from] == text[at] && forall k | at < k < to :: part[k - from] == text[k];
      SequenceShifted(text, part, from, at, to);
      var k := SequenceLength(text, at);
      if k != 0 && at + k <= to {
        RunsAlone(text, from, at + k, to);
      }
    }
  }

  lemma SequenceShifted(text: Text, part: Text, from: nat, at: nat, to: nat)
    requires from <= at < to <= |text| && part == text[from..to]
    ensures SequenceLength(text, at) != 0 && at + SequenceLength(text, at) <= to ==>
              SequenceLength(part, at - from) == SequenceLength(text, at)
    ensures SequenceLength(part, at - from) != 0 ==> SequenceLength(text, at) == SequenceLength(part, at - from)
  {
    assert part[at - from] == text[at];
    forall k | at < k < to
      ensures part[k - from] == text[k]
    {
    }
    if SequenceLength(part, at - from) != 0 {
      var n := SequenceLength(part, at - from);
      forall k | at < k < at + n
        ensures Continuation(text[k])
      {
        assert part[k - from] == text[k];
      }
    }
  }

  /** When a text grows its valid prefix does not shrink, and what it gains starts and ends on
      sequence boundaries. */
  lemma {:induction false} PrefixGrows(text: Text, more: Text)
    ensures PrefixFrom(text, 0) <= PrefixFrom(text + more, 0)
    ensures WellFormed((text + more)[PrefixFrom(text, 0)..PrefixFrom(text + more, 0)])
  {
    var all := text + more;
    assert all[..|text|] == text;
    PrefixGrowsFrom(all, |text|, 0);
    var a, b := PrefixFrom(text, 0), PrefixFrom(all, 0);
    RunsAlone(all, a, a, b);
  }
}
