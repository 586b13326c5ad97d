/** The stream writer: the file is sized and its manifest written before any payload; payloads
    arrive in chunks, in any order of tensors, and are written in place; finalizing writes the
    header and the manifest again, with their checksums. */
module ArtifactStream {
  import opened ArtifactFormat
  import opened ArtifactLayout
  import opened ArtifactWriter
  import opened Options
  import DeviceMemory
  import Seals

  const OFF_MAX: nat := 0x7FFF_FFFF_FFFF_FFFF

  /** Places the tensors as create does, stopping at the first that does not fit. */
  method PlaceChecked(plans: seq<Plan>, dataOffset: nat) returns (r: Option<seq<Span>>)
    ensures r == Places(plans, dataOffset)
  {
    var spans: seq<Span> := [];
    for k := 0 to |plans|
      invariant Places(plans[..k], dataOffset) == Some(spans)
    {
      assert plans[..k + 1][..k] == plans[..k];
      var s := Place(EndOf(spans, dataOffset), plans[k]);
      if s.None? {
        if Places(plans, dataOffset).Some? {
          PlacesPrefix(plans, dataOffset, k + 1);
        }
        return None;
      }
      spans := spans + [s.value];
    }
    assert plans[..|plans|] == plans;
    r := Some(spans);
  }

  // ---- regions being filled

  /** A region whose payloads have been written up to some point, and whose padding is zero.  What
      lies behind that point is not known: a failed write may have left part of a chunk there. */
  ghost predicate Holds(region: Bytes, s: Span, data: Bytes, auxiliary: Bytes) {
    && s.start <= s.dataOffset && |data| <= s.dataBytes && |auxiliary| <= s.auxBytes
    && |region| == s.end - s.start
    && var d := s.dataOffset - s.start;
       && d + s.dataBytes <= |region|
       && region[..d] == Zeros(d) && region[d..d + |data|] == data
       && (s.auxBytes != 0 ==>
             && s.dataOffset + s.dataBytes <= s.auxOffset
             && var a := s.auxOffset - s.start;
                && a + s.auxBytes == |region|
                && region[d + s.dataBytes..a] == Zeros(a - (d + s.dataBytes))
                   && region[a..a + |auxiliary|] == auxiliary)
  }

  /** Writing behind the data keeps it, and if all of it was written, extends it. */
  lemma DataExtends(region: Bytes, s: Span, data: Bytes, auxiliary: Bytes, xs: Bytes)
    requires Holds(region, s, data, auxiliary) && |data| + |xs| <= s.dataBytes
    ensures var r := DeviceMemory.Overwrite(region, s.dataOffset - s.start + |data|, xs);
            Holds(r, s, data, auxiliary) && Holds(r, s, data + xs, auxiliary)
  {
    var d := s.dataOffset - s.start;
    var r := DeviceMemory.Overwrite(region, d + |data|, xs);
    assert r[..d] == region[..d];
    assert r[d..d + |data|] == region[d..d + |data|];
    assert r[d..d + |data| + |xs|] == data + xs;
    if s.auxBytes != 0 {
      var a := s.auxOffset - s.start;
      assert r[d + s.dataBytes..a] == region[d + s.dataBytes..a];
      assert r[a..a + |auxiliary|] == region[a..a + |auxiliary|];
    }
  }

  lemma AuxiliaryExtends(region: Bytes, s: Span, data: Bytes, auxiliary: Bytes, xs: Bytes)
    requires Holds(region, s, data, auxiliary) && |auxiliary| + |xs| <= s.auxBytes && s.auxBytes != 0
    ensures var r := DeviceMemory.Overwrite(region, s.auxOffset - s.start + |auxiliary|, xs);
            Holds(r, s, data, auxiliary) && Holds(r, s, data, auxiliary + xs)
  {
    var d, a := s.dataOffset - s.start, s.auxOffset - s.start;
    var r := DeviceMemory.Overwrite(region, a + |auxiliary|, xs);
    assert r[..d] == region[..d];
    assert r[d..d + |data|] == region[d..d + |data|];
    assert r[d + s.dataBytes..a] == region[d + s.dataBytes..a];
    assert r[a..a + |auxiliary|] == region[a..a + |auxiliary|];
    assert r[a..a + |auxiliary| + |xs|] == auxiliary + xs;
  }

  lemma ZerosWithin(n: nat, from: nat, end: nat)
    requires from <= end <= n
    ensures Zeros(n)[from..end] == Zeros(end - from)
  {
  }

  lemma NothingHeld(s: Span, p: Plan)
    requires SpanFits(s, p)
    ensures Holds(Zeros(s.end - s.start), s, [], [])
  {
    EmptyHolds(s);
  }

  lemma EmptyHolds(s: Span)
    requires s.start <= s.dataOffset && s.dataOffset + s.dataBytes <= s.end
    requires s.auxBytes != 0 ==> s.dataOffset + s.dataBytes <= s.auxOffset && s.end == s.auxOffset + s.auxBytes
    ensures Holds(Zeros(s.end - s.start), s, [], [])
  {
    var size: nat, d: nat := s.end - s.start, s.dataOffset - s.start;
    ZerosWithin(size, 0, d);
    if s.auxBytes != 0 {
      ZerosWithin(size, d + s.dataBytes, s.auxOffset - s.start);
    }
  }

  lemma HoldsParts(region: Bytes, s: Span, data: Bytes, auxiliary: Bytes)
    requires Holds(region, s, data, auxiliary) && |data| == s.dataBytes && |auxiliary| == s.auxBytes
    ensures var d, e := s.dataOffset - s.start, s.dataOffset - s.start + s.dataBytes;
            && region[..d] == Zeros(d) && region[d..e] == data
            && (s.auxBytes != 0 ==>
                  var a := s.auxOffset - s.start;
                  e <= a <= |region| && region[e..a] == Zeros(a - e) && region[a..] == auxiliary)
  {
    if s.auxBytes != 0 {
      var a := s.auxOffset - s.start;
      assert region[a..] == region[a..a + |auxiliary|];
    }
  }

  /** A region whose payloads are complete. */
  lemma HoldsAll(region: Bytes, s: Span, p: Plan, data: Bytes, auxiliary: Bytes)
    requires SpanFits(s, p) && Holds(region, s, data, auxiliary) && |data| == s.dataBytes && |auxiliary| == s.auxBytes
    ensures region == Region(s, data, auxiliary)
  {
    HoldsParts(region, s, data, auxiliary);
    var d, e := s.dataOffset - s.start, s.dataOffset - s.start + s.dataBytes;
    if s.auxBytes == 0 {
      TwoParts(region, d, e, Zeros(d), data);
    } else {
      var a := s.auxOffset - s.start;
      FourParts(region, d, e, a, Zeros(d), data, Zeros(a - e), auxiliary);
    }
  }

  /** A region from its parts. */
  lemma TwoParts(region: Bytes, a: nat, b: nat, w: Bytes, x: Bytes)
    requires a <= b == |region| && region[..a] == w && region[a..b] == x
    ensures region == w + x + []
  {
  }

  lemma FourParts(region: Bytes, a: nat, b: nat, c: nat, w: Bytes, x: Bytes, y: Bytes, z: Bytes)
    requires a <= b <= c <= |region|
    requires region[..a] == w && region[a..b] == x && region[b..c] == y && region[c..] == z
    ensures region == w + x + (y + z)
  {
  }

  // ---- writes into the file

  lemma WriteElsewhere(file: Bytes, at: nat, xs: Bytes, from: nat, to: nat)
    requires at + |xs| <= |file| && from <= to <= |file| && (to <= at || at + |xs| <= from)
    ensures DeviceMemory.Overwrite(file, at, xs)[from..to] == file[from..to]
  {
  }

  lemma WriteInside(file: Bytes, at: nat, xs: Bytes, from: nat, to: nat)
    requires from <= at && at + |xs| <= to <= |file|
    ensures DeviceMemory.Overwrite(file, at, xs)[from..to] == DeviceMemory.Overwrite(file[from..to], at - from, xs)
  {
  }

  /** Every region of the file holds what was appended to its tensor. */
  ghost predicate RegionsHold(file: Bytes, spans: seq<Span>, datas: seq<Bytes>, auxes: seq<Bytes>) {
    && |datas| == |auxes| == |spans|
    && forall i | 0 <= i < |spans| :: RegionHolds(file, spans[i], datas[i], auxes[i])
  }

  ghost predicate RegionHolds(file: Bytes, s: Span, data: Bytes, auxiliary: Bytes) {
    s.start <= s.end <= |file| && Kept(file[s.start..s.end], s, data, auxiliary)
  }

  /** Holds, behind a seal: a proof that needs what it says asserts Seals.Opened(Seals.Region). */
  ghost predicate Kept(region: Bytes, s: Span, data: Bytes, auxiliary: Bytes) {
    forall seal {:trigger Seals.Opened(seal)} | Seals.Opened(seal) && seal == Seals.Region ::
        Holds(region, s, data, auxiliary)
  }

  lemma SpanWithin(plans: seq<Plan>, spans: seq<Span>, cursor: nat, i: nat)
    requires Placed(plans, spans, cursor) && i < |spans|
    ensures cursor <= spans[i].start <= spans[i].dataOffset && SpanFits(spans[i], plans[i])
    ensures spans[i].start <= spans[i].end <= EndOf(spans, cursor)
  {
    SpanAbove(plans, spans, cursor, i);
    var last := |spans| - 1;
    if i < last {
      SpansOrdered(plans, spans, cursor, i, last);
      SpanAbove(plans, spans, cursor, last);
    }
  }

  ghost predicate SameRegion(file: Bytes, r: Bytes, s: Span) {
    s.start <= s.end <= |file| == |r| && r[s.start..s.end] == file[s.start..s.end]
  }

  /** Writing inside region i leaves region j as it was. */
  lemma OtherSame(plans: seq<Plan>, spans: seq<Span>, cursor: nat, file: Bytes, i: nat, at: nat, xs: Bytes, j: nat)
    requires Placed(plans, spans, cursor) && |file| == EndOf(spans, cursor) && i < |spans| && j < |spans| && i != j
    requires spans[i].start <= at && at + |xs| <= spans[i].end
    ensures at + |xs| <= |file| && SameRegion(file, DeviceMemory.Overwrite(file, at, xs), spans[j])
  {
    SpanWithin(plans, spans, cursor, i);
    SpanWithin(plans, spans, cursor, j);
    if i < j {
      SpansOrdered(plans, spans, cursor, i, j);
    } else {
      SpansOrdered(plans, spans, cursor, j, i);
    }
    WriteElsewhere(file, at, xs, spans[j].start, spans[j].end);
  }

  ghost predicate SameBut(a: seq<Bytes>, b: seq<Bytes>, i: nat) {
    |a| == |b| && forall j | 0 <= j < |a| && j != i :: a[j] == b[j]
  }

  /** A write that changes region i only. */
  lemma RegionUpdated(file: Bytes, r: Bytes, spans: seq<Span>, datas: seq<Bytes>, auxes: seq<Bytes>, i: nat,
                      datas2: seq<Bytes>, auxes2: seq<Bytes>)
    requires RegionsHold(file, spans, datas, auxes) && i < |spans| && SameBut(datas, datas2, i)
             && SameBut(auxes, auxes2, i)
    requires RegionHolds(r, spans[i], datas2[i], auxes2[i])
    requires forall j | 0 <= j < |spans| && j != i :: SameRegion(file, r, spans[j])
    ensures RegionsHold(r, spans, datas2, auxes2)
  {
    forall j | 0 <= j < |spans|
      ensures RegionHolds(r, spans[j], datas2[j], auxes2[j])
    {
      if j != i {
        assert RegionHolds(file, spans[j], datas[j], auxes[j]) && SameRegion(file, r, spans[j]);
      }
    }
  }

  /** A write below the payloads leaves all regions as they were. */
  lemma WriteBelow(plans: seq<Plan>, spans: seq<Span>, cursor: nat, file: Bytes, at: nat, xs: Bytes, datas: seq<Bytes>,
                   auxes: seq<Bytes>)
    requires Placed(plans, spans, cursor) && RegionsHold(file, spans, datas, auxes)
    requires at + |xs| <= cursor <= |file|
    ensures RegionsHold(DeviceMemory.Overwrite(file, at, xs), spans, datas, auxes)
  {
    forall i | 0 <= i < |spans|
      ensures RegionHolds(DeviceMemory.Overwrite(file, at, xs), spans[i], datas[i], auxes[i])
    {
      assert RegionHolds(file, spans[i], datas[i], auxes[i]);
      SpanWithin(plans, spans, cursor, i);
      WriteElsewhere(file, at, xs, spans[i].start, spans[i].end);
    }
  }

  /** Region i after a write into its data. */
  lemma DataKept(region: Bytes, s: Span, data: Bytes, auxiliary: Bytes, off: int, xs: Bytes, after: Bytes)
    requires Kept(region, s, data, auxiliary) && |data| + |xs| <= s.dataBytes
    requires off == s.dataOffset - s.start + |data|
    ensures 0 <= off && off + |xs| <= |region| == s.end - s.start
    ensures after == DeviceMemory.Overwrite(region, off, xs) ==>
              Kept(after, s, data, auxiliary) && Kept(after, s, data + xs, auxiliary)
  {
    KeptHolds(region, s, data, auxiliary);
    DataExtends(region, s, data, auxiliary, xs);
    var r := DeviceMemory.Overwrite(region, off, xs);
    KeptHolds(r, s, data, auxiliary);
    KeptHolds(r, s, data + xs, auxiliary);
  }

  lemma KeptHolds(region: Bytes, s: Span, data: Bytes, auxiliary: Bytes)
    ensures Kept(region, s, data, auxiliary) <==> Holds(region, s, data, auxiliary)
  {
    assert Seals.Opened(Seals.Region);
  }

  lemma DataWritten(file: Bytes, s: Span, data: Bytes, auxiliary: Bytes, at: nat, xs: Bytes, after: Bytes)
    requires at == s.dataOffset + |data| && at + |xs| <= |file| && after == DeviceMemory.Overwrite(file, at, xs)
    requires RegionHolds(file, s, data, auxiliary) && |data| + |xs| <= s.dataBytes
    ensures s.start <= at && at + |xs| <= s.end
    ensures RegionHolds(after, s, data, auxiliary) && RegionHolds(after, s, data + xs, auxiliary)
  {
    DataKept(file[s.start..s.end], s, data, auxiliary, at - s.start, xs, after[s.start..s.end]);
    WriteInside(file, at, xs, s.start, s.end);
  }

  lemma AuxiliaryKept(region: Bytes, s: Span, data: Bytes, auxiliary: Bytes, off: int, xs: Bytes, after: Bytes)
    requires Kept(region, s, data, auxiliary) && |auxiliary| + |xs| <= s.auxBytes && s.auxBytes != 0
    requires off == s.auxOffset - s.start + |auxiliary|
    ensures 0 <= off && off + |xs| <= |region| == s.end - s.start
    ensures after == DeviceMemory.Overwrite(region, off, xs) ==>
              Kept(after, s, data, auxiliary) && Kept(after, s, data, auxiliary + xs)
  {
    KeptHolds(region, s, data, auxiliary);
    AuxiliaryExtends(region, s, data, auxiliary, xs);
    var r := DeviceMemory.Overwrite(region, off, xs);
    KeptHolds(r, s, data, auxiliary);
    KeptHolds(r, s, data, auxiliary + xs);
  }

  lemma AuxiliaryWritten(file: Bytes, s: Span, data: Bytes, auxiliary: Bytes, at: nat, xs: Bytes, after: Bytes)
    requires at == s.auxOffset + |auxiliary| && at + |xs| <= |file| && after == DeviceMemory.Overwrite(file, at, xs)
    requires RegionHolds(file, s, data, auxiliary) && |auxiliary| + |xs| <= s.auxBytes && s.auxBytes != 0
    ensures s.start <= at && at + |xs| <= s.end
    ensures RegionHolds(after, s, data, auxiliary) && RegionHolds(after, s, data, auxiliary + xs)
  {
    AuxiliaryKept(file[s.start..s.end], s, data, auxiliary, at - s.start, xs, after[s.start..s.end]);
    WriteInside(file, at, xs, s.start, s.end);
  }

  /** A write inside region i. */
  lemma WriteInRegion(plans: seq<Plan>, spans: seq<Span>, cursor: nat, file: Bytes, datas: seq<Bytes>,
                      auxes: seq<Bytes>, i: nat, at: nat, xs: Bytes, after: Bytes, datas2: seq<Bytes>,
                      auxes2: seq<Bytes>)
    requires Placed(plans, spans, cursor) && |file| == EndOf(spans, cursor) && RegionsHold(file, spans, datas, auxes)
    requires i < |spans| && spans[i].start <= at && at + |xs| <= spans[i].end <= |file|
    requires SameBut(datas, datas2, i) && SameBut(auxes, auxes2, i)
    requires after == DeviceMemory.Overwrite(file, at, xs) && RegionHolds(after, spans[i], datas2[i], auxes2[i])
    ensures RegionsHold(after, spans, datas2, auxes2)
  {
    forall j | 0 <= j < |spans| && j != i
      ensures SameRegion(file, after, spans[j])
    {
      OtherSame(plans, spans, cursor, file, i, at, xs, j);
    }
    RegionUpdated(file, after, spans, datas, auxes, i, datas2, auxes2);
  }

  /** Appending to the data of tensor i.  What is left of a failed append, with nothing counted, does no harm. */
  lemma AppendsData(plans: seq<Plan>, spans: seq<Span>, cursor: nat, file: Bytes, i: nat, at: nat, xs: Bytes,
                    after: Bytes, datas: seq<Bytes>, auxes: seq<Bytes>, datas2: seq<Bytes>)
    requires Placed(plans, spans, cursor) && |file| == EndOf(spans, cursor) && RegionsHold(file, spans, datas, auxes)
    requires i < |spans| && at == spans[i].dataOffset + |datas[i]| && |datas[i]| + |xs| <= spans[i].dataBytes
    requires at + |xs| <= |file| && after == DeviceMemory.Overwrite(file, at, xs)
    requires SameBut(datas, datas2, i) && (datas2[i] == datas[i] + xs || datas2[i] == datas[i])
    ensures RegionsHold(after, spans, datas2, auxes)
  {
    var s := spans[i];
    assert RegionHolds(file, s, datas[i], auxes[i]);
    DataWritten(file, s, datas[i], auxes[i], at, xs, after);
    WriteInRegion(plans, spans, cursor, file, datas, auxes, i, at, xs, after, datas2, auxes);
  }

  /** The same for the auxiliary payload. */
  lemma AppendsAuxiliary(plans: seq<Plan>, spans: seq<Span>, cursor: nat, file: Bytes, i: nat, at: nat, xs: Bytes,
                         after: Bytes, datas: seq<Bytes>, auxes: seq<Bytes>, auxes2: seq<Bytes>)
    requires Placed(plans, spans, cursor) && |file| == EndOf(spans, cursor) && RegionsHold(file, spans, datas, auxes)
    requires i < |spans| && at == spans[i].auxOffset + |auxes[i]| && |auxes[i]| + |xs| <= spans[i].auxBytes
             && spans[i].auxBytes != 0
    requires at + |xs| <= |file| && after == DeviceMemory.Overwrite(file, at, xs)
    requires SameBut(auxes, auxes2, i) && (auxes2[i] == auxes[i] + xs || auxes2[i] == auxes[i])
    ensures RegionsHold(after, spans, datas, auxes2)
  {
    var s := spans[i];
    assert RegionHolds(file, s, datas[i], auxes[i]);
    AuxiliaryWritten(file, s, datas[i], auxes[i], at, xs, after);
    WriteInRegion(plans, spans, cursor, file, datas, auxes, i, at, xs, after, datas, auxes2);
  }

  lemma RegionMade(file: Bytes, s: Span, p: Plan, data: Bytes, auxiliary: Bytes)
    requires RegionHolds(file, s, data, auxiliary) && SpanFits(s, p) && |data| == s.dataBytes
             && |auxiliary| == s.auxBytes
    ensures file[s.start..s.end] == Region(s, data, auxiliary)
  {
    assert Seals.Opened(Seals.Region);
    HoldsAll(file[s.start..s.end], s, p, data, auxiliary);
  }

  lemma SliceJoin(file: Bytes, a: nat, b: nat, c: nat, left: Bytes, right: Bytes)
    requires a <= b <= c <= |file| && file[a..b] == left && file[b..c] == right
    ensures file[a..c] == left + right
  {
  }

  /** Complete regions make up the body. */
  lemma {:induction false} RegionsMakeBody(plans: seq<Plan>, spans: seq<Span>, cursor: nat, file: Bytes,
                                           datas: seq<Bytes>, auxes: seq<Bytes>, n: nat)
    requires Placed(plans, spans, cursor) && |file| == EndOf(spans, cursor) && RegionsHold(file, spans, datas, auxes)
    requires Payloads(plans, datas, auxes) && n <= |plans|
    ensures cursor <= EndOf(spans[..n], cursor) <= |file|
    ensures file[cursor..EndOf(spans[..n], cursor)] == Body(plans, spans, cursor, datas, auxes, n)
    decreases n
  {
    if n == 0 {
      if spans != [] {
        SpanWithin(plans, spans, cursor, 0);
      }
    } else {
      var last := n - 1;
      RegionsMakeBody(plans, spans, cursor, file, datas, auxes, last);
      SpanWithin(plans, spans, cursor, last);
      var s := spans[last];
      SpanAbove(plans, spans, cursor, last);
      assert spans[..n][last] == s;
      assert RegionHolds(file, s, datas[last], auxes[last]);
      RegionMade(file, s, plans[last], datas[last], auxes[last]);
      SliceJoin(file, cursor, s.start, s.end, Body(plans, spans, cursor, datas, auxes, last),
                Region(s, datas[last], auxes[last]));
    }
  }
}
