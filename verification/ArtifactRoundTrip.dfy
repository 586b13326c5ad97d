/** The reader inverts the writers. */
module ArtifactRoundTrip {
  import opened LittleEndian
  import opened ArtifactFormat
  import opened ArtifactLayout
  import opened ArtifactReader
  import opened PayloadRanges
  import opened Options
  import ArtifactStreamWriter
  import ArtifactWriter
  import Crc64
  import Concatenation
  import Seals

  // ---- field widths

  lemma Bounds()
    ensures Bound(2) == 0x1_0000 && Bound(4) == 0x1_0000_0000 && Bound(8) == U64
  {
    assert Bound(1) == 256;
    assert Bound(2) == 256 * Bound(1);
    assert Bound(3) == 256 * Bound(2);
    assert Bound(4) == 256 * Bound(3);
    assert Bound(5) == 256 * Bound(4);
    assert Bound(6) == 256 * Bound(5);
    assert Bound(7) == 256 * Bound(6);
    assert Bound(8) == 256 * Bound(7);
  }

  lemma {:induction false} NumberBound(bits: seq<bool>)
    ensures Number(bits) < Crc64.Power(|bits|)
  {
    if bits != [] {
      NumberBound(bits[..|bits| - 1]);
    }
  }

  lemma PowerEight(k: nat)
    ensures Crc64.Power(k + 8) == 256 * Crc64.Power(k)
  {
    assert Crc64.Power(k + 2) == 4 * Crc64.Power(k);
    assert Crc64.Power(k + 4) == 4 * Crc64.Power(k + 2);
    assert Crc64.Power(k + 6) == 4 * Crc64.Power(k + 4);
    assert Crc64.Power(k + 8) == 4 * Crc64.Power(k + 6);
  }

  lemma {:induction false} PowerBound(n: nat)
    ensures Crc64.Power(8 * n) == Bound(n)
  {
    if n > 0 {
      PowerBound(n - 1);
      PowerEight(8 * (n - 1));
    }
  }

  /** A checksum fits its field. */
  lemma CrcFits(bytes: Bytes)
    ensures Crc(bytes) < U64
  {
    NumberBound(Crc64.Checksum(bytes));
    var n := 8;
    PowerBound(n);
    Bounds();
  }

  // ---- the front

  lemma Parts(a: Bytes, b: Bytes, c: Bytes, d: Bytes)
    ensures var r := a + b + c + d;
            && r[..|a|] == a && r[|a|..|a| + |b|] == b && r[|a| + |b| + |c|..] == d
  {
  }

  lemma {:induction false} FrontParts(id: Identity, plans: seq<Plan>, l: Layout, crcs: seq<nat>, manifest: Bytes,
                                      h: Header)
    requires Accepted(id, plans) && |l.spans| == |plans| == |crcs|
    requires l.stringsOffset == 256 + |plans| * 128
             && l.manifestEnd == l.stringsOffset + |Strings(plans)| <= l.dataOffset <= l.fileBytes
    requires manifest == Manifest(plans, l, crcs) && h == HeaderFor(plans, l, Crc(manifest))
    ensures var front := Front(id, plans, l, crcs);
            front[..256] == HeaderBytes(h, id) && 256 + |manifest| == l.manifestEnd
              && front[256..l.manifestEnd] == manifest
  {
    Parts(HeaderBytes(h, id), manifest, Zeros(l.dataOffset - l.manifestEnd), []);
    assert Front(id, plans, l, crcs) + [] == Front(id, plans, l, crcs);
  }

  lemma FrontSlices(front: Bytes, body: Bytes, file: Bytes, from: nat, to: nat)
    requires file == front + body && from <= to <= |front|
    ensures file[from..to] == front[from..to] && file[|front|..] == body
  {
  }

  /** What a written file holds where. */
  ghost predicate Written(file: Bytes, id: Identity, plans: seq<Plan>, l: Layout, datas: seq<Bytes>, auxes: seq<Bytes>,
                          manifest: Bytes, h: Header)
    requires id.Valid() && Placed(plans, l.spans, l.dataOffset) && Payloads(plans, datas, auxes)
  {
    && |file| == l.fileBytes && 256 + |manifest| == l.manifestEnd <= l.dataOffset <= |file|
    && file[..256] == HeaderBytes(h, id) && file[256..l.manifestEnd] == manifest
    && file[l.dataOffset..] == Body(plans, l.spans, l.dataOffset, datas, auxes, |plans|)
  }

  lemma {:induction false} FileParts(id: Identity, plans: seq<Plan>, datas: seq<Bytes>, auxes: seq<Bytes>, l: Layout,
                                     manifest: Bytes, h: Header)
    requires Accepted(id, plans) && LayoutFor(plans) == Some(l) && Payloads(plans, datas, auxes) && |l.spans| == |plans|
    requires l.stringsOffset == 256 + |plans| * 128
             && l.manifestEnd == l.stringsOffset + |Strings(plans)| <= l.dataOffset <= l.fileBytes
    requires manifest == Manifest(plans, l, Crcs(datas)) && h == HeaderFor(plans, l, Crc(manifest))
             && Placed(plans, l.spans, l.dataOffset)
    ensures Written(FileOf(id, plans, datas, auxes), id, plans, l, datas, auxes, manifest, h)
  {
    FrontParts(id, plans, l, Crcs(datas), manifest, h);
    var front, body := Front(id, plans, l, Crcs(datas)), Body(plans, l.spans, l.dataOffset, datas, auxes, |plans|);
    FrontSlices(front, body, FileOf(id, plans, datas, auxes), 0, 256);
    FrontSlices(front, body, FileOf(id, plans, datas, auxes), 256, l.manifestEnd);
  }

  lemma HeaderFits(plans: seq<Plan>, l: Layout, manifest: Bytes)
    requires |plans| < 0x1_0000_0000 && l.stringsOffset <= l.manifestEnd <= l.dataOffset <= l.fileBytes < U64
    ensures Fits(HeaderWidths(), HeaderFor(plans, l, Crc(manifest)).Record())
  {
    Bounds();
    CrcFits(manifest);
    FitsHeader(HeaderFor(plans, l, Crc(manifest)));
  }

  lemma FitsHeader(h: Header)
    requires h.version < Bound(4) && h.headerBytes < Bound(4) && h.endianTag < Bound(4) && h.flags < Bound(4)
    requires h.directoryOffset < Bound(8) && h.tensorCount < Bound(4) && h.entryBytes < Bound(4)
             && h.stringsOffset < Bound(8)
    requires h.stringsBytes < Bound(8) && h.dataOffset < Bound(8) && h.dataBytes < Bound(8) && h.fileBytes < Bound(8)
             && h.manifestCrc < Bound(8)
    ensures Fits(HeaderWidths(), h.Record())
  {
  }

  /** No identity string starts with a zero byte. */
  predicate StartsVisibly(id: Identity)
    requires id.Valid()
  {
    id.targetArch[0] != 0 && id.modelId[0] != 0 && id.weightsId[0] != 0 && id.recipeId[0] != 0
  }

  lemma FirstByte(value: Bytes, width: nat)
    requires 0 < |value| <= width
    ensures FixedString(Padded(value, width)) != [] <==> value[0] != 0
  {
  }

  lemma CompleteIdentity(id: Identity)
    requires id.Valid()
    ensures IdentityComplete(DecodeIdentity(id.Encoded())) <==> StartsVisibly(id)
  {
    var b := id.Encoded();
    assert b[..16] == Padded(id.targetArch, 16);
    assert b[16..48] == Padded(id.modelId, 32);
    assert b[48..80] == Padded(id.weightsId, 32);
    assert b[80..] == Padded(id.recipeId, 64);
    FirstByte(id.targetArch, 16);
    FirstByte(id.modelId, 32);
    FirstByte(id.weightsId, 32);
    FirstByte(id.recipeId, 64);
  }

  /** The header of a written file reads back. */
  lemma HeaderReads(file: Bytes, id: Identity, h: Header)
    requires |file| >= 256 && id.Valid() && file[..256] == HeaderBytes(h, id) && Fits(HeaderWidths(), h.Record())
    ensures file[..8] == Magic() && HeaderOfFile(file) == h
  {
    HeaderRoundTrip(h, id);
    assert file[..8] == file[..256][..8];
  }

  lemma IdentitySlice(file: Bytes, id: Identity, h: Header)
    requires |file| >= 256 && id.Valid() && file[..256] == HeaderBytes(h, id)
    ensures file[88..232] == id.Encoded()
  {
    HeaderWidth();
    AssembledParts(Encode(HeaderWidths(), h.Record()), id.Encoded());
    assert file[88..232] == file[..256][88..232];
  }

  lemma IdentityReads(file: Bytes, id: Identity)
    requires |file| >= 256 && id.Valid() && file[88..232] == id.Encoded()
    ensures IdentityOfFile(file) == id <==> id.ZeroFree()
    ensures IdentityComplete(IdentityOfFile(file)) <==> StartsVisibly(id)
  {
    IdentityRoundTrip(id);
    CompleteIdentity(id);
  }

  // ---- the directory

  lemma EntryFieldsFit(p: Plan, nameOffset: nat, s: Span, data: Bytes)
    requires p.Typed() && |p.dimensions| <= 4 && SpanFits(s, p) && nameOffset < U64
    ensures EntryFits(EntryFor(p, nameOffset, s, Crc(data)))
  {
    Bounds();
    CrcFits(data);
    FitsEntry(EntryFor(p, nameOffset, s, Crc(data)));
  }

  lemma FitsEntry(e: Entry)
    requires |e.dimensions| == 4 && forall k | 0 <= k < 4 :: e.dimensions[k] < Bound(8)
    requires e.nameOffset < Bound(8) && e.nameBytes < Bound(4) && e.dtype < Bound(2) && e.quantization < Bound(2)
             && e.rank < Bound(2)
    requires e.flags < Bound(2) && e.alignment < Bound(4) && e.dataOffset < Bound(8) && e.dataBytes < Bound(8)
             && e.auxOffset < Bound(8)
    requires e.auxBytes < Bound(8) && e.dataCrc < Bound(8)
    ensures EntryFits(e)
  {
    var r, w := e.Record(), EntryWidths();
    assert r[..7] == [e.nameOffset, e.nameBytes, e.dtype, e.quantization, e.rank, e.flags, e.alignment];
    assert r[7..11] == e.dimensions;
    assert r[11..] == [e.dataOffset, e.dataBytes, e.auxOffset, e.auxBytes, e.dataCrc];
    assert w[7] == w[8] == w[9] == w[10] == 8;
    forall i | 0 <= i < 16
      ensures r[i] < Bound(w[i])
    {
      if i < 7 {
        assert r[i] == r[..7][i];
      } else if i < 11 {
        assert r[i] == r[7..11][i - 7];
      } else {
        assert r[i] == r[11..][i - 11];
      }
    }
  }

  lemma SliceOfFile(file: Bytes, part: Bytes, at: nat, from: nat, to: nat)
    requires at + |part| <= |file| && file[at..at + |part|] == part && from <= to <= |part|
    ensures file[at + from..at + to] == part[from..to]
  {
    Concatenation.SliceOfSlice(file, at, |part|, from, to - from);
  }

  lemma {:induction false} PieceInFile(file: Bytes, pieces: nat -> Bytes, n: nat, i: nat)
    requires Concatenation.Uniform(pieces, n, 128) && i < n && 256 + n * 128 <= |file|
    requires file[256..256 + n * 128] == Concatenation.Flat(pieces, n)
    ensures file[256 + i * 128..256 + i * 128 + 128] == pieces(i)
  {
    Concatenation.PieceOfFlat(pieces, n, 128, i);
    SliceOfFile(file, Concatenation.Flat(pieces, n), 256, i * 128, i * 128 + 128);
  }

  lemma EntrySlice(file: Bytes, entries: seq<Entry>, i: nat)
    requires FourDimensions(entries) && 256 + |entries| * 128 <= |file|
             && file[256..256 + |entries| * 128] == Directory(entries) && i < |entries|
    ensures file[256 + i * 128..256 + i * 128 + 128] == EntryBytes(entries[i])
  {
    EntryPiecesUniform(entries);
    PieceInFile(file, EntryPieces(entries), |entries|, i);
  }

  /** Entry i of a directory at 256 reads back. */
  lemma EntryReads(file: Bytes, h: Header, entries: seq<Entry>, i: nat)
    requires SectionsValid(h) && h.fileBytes == |file| && h.directoryOffset == 256 && h.tensorCount == |entries|
             && i < |entries|
    requires FourDimensions(entries) && EntryFits(entries[i]) && file[256..256 + |entries| * 128] == Directory(entries)
    ensures EntryAt(file, h, i) == entries[i]
  {
    EntrySlice(file, entries, i);
    EntryRoundTrip(entries[i]);
  }

  ghost predicate AllEntriesFit(entries: seq<Entry>) {
    FourDimensions(entries) && forall i | 0 <= i < |entries| :: EntryFits(entries[i])
  }

  lemma DirectoryReads(file: Bytes, h: Header, entries: seq<Entry>)
    requires SectionsValid(h) && h.fileBytes == |file| && h.directoryOffset == 256 && h.tensorCount == |entries|
    requires AllEntriesFit(entries) && file[256..256 + |entries| * 128] == Directory(entries)
    ensures EntriesOf(file, h) == entries
  {
    forall i | 0 <= i < |entries|
      ensures EntryAt(file, h, i) == entries[i]
    {
      EntryReads(file, h, entries, i);
    }
  }

  // ---- the payloads

  /** A region lies at the end of a body that ends with it, and what lay in the body stays there. */
  lemma BodyGrows(front: Bytes, region: Bytes, cursor: nat, from: nat, to: nat, part: Bytes)
    requires cursor <= from <= to <= cursor + |front| && front[from - cursor..to - cursor] == part
    ensures (front + region)[from - cursor..to - cursor] == part
  {
    Joined(front, region, from - cursor, to - cursor);
  }

  lemma BodyEnds(front: Bytes, region: Bytes, cursor: nat, from: nat, to: nat)
    requires from == cursor + |front| && to == from + |region|
    ensures (front + region)[from - cursor..to - cursor] == region
  {
    Joined(front, region, 0, 0);
  }

  /** Region i lies in the body where it was placed. */
  lemma {:induction false} BodyAt(plans: seq<Plan>, spans: seq<Span>, cursor: nat, datas: seq<Bytes>, auxes: seq<Bytes>,
                                  n: nat, i: nat)
    requires Placed(plans, spans, cursor) && Payloads(plans, datas, auxes) && i < n <= |plans|
    ensures SpanFits(spans[i], plans[i])
    ensures cursor <= spans[i].start <= spans[i].end <= cursor + |Body(plans, spans, cursor, datas, auxes, n)|
    ensures Body(plans, spans, cursor, datas, auxes, n)[spans[i].start - cursor..spans[i].end - cursor]
            == Region(spans[i], datas[i], auxes[i])
    decreases n
  {
    var last := n - 1;
    SpanAbove(plans, spans, cursor, last);
    assert spans[..n][last] == spans[last];
    var front, region := Body(plans, spans, cursor, datas, auxes, last), Region(spans[last], datas[last], auxes[last]);
    if i < last {
      BodyAt(plans, spans, cursor, datas, auxes, last, i);
      BodyGrows(front, region, cursor, spans[i].start, spans[i].end, Region(spans[i], datas[i], auxes[i]));
    } else {
      BodyEnds(front, region, cursor, spans[i].start, spans[i].end);
    }
  }

  /** Where a region holds its payloads. */
  ghost predicate RegionHolds(s: Span, data: Bytes, auxiliary: Bytes, region: Bytes) {
    && s.start <= s.dataOffset <= s.dataOffset + |data| <= s.start + |region|
    && region[s.dataOffset - s.start..s.dataOffset - s.start + |data|] == data
    && (auxiliary != [] ==>
          && s.dataOffset <= s.auxOffset && s.auxOffset + |auxiliary| == s.start + |region|
          && region[s.auxOffset - s.start..|region|] == auxiliary)
  }

  lemma RegionParts(s: Span, data: Bytes, auxiliary: Bytes, region: Bytes)
    requires s.start <= s.dataOffset && |data| == s.dataBytes && |auxiliary| == s.auxBytes
    requires s.auxBytes != 0 ==> s.dataOffset + s.dataBytes <= s.auxOffset
    requires region == Region(s, data, auxiliary)
    ensures RegionHolds(s, data, auxiliary, region)
    ensures s.start + |region| == if s.auxBytes == 0 then s.dataOffset + s.dataBytes else s.auxOffset + s.auxBytes
  {
    var padded := Zeros(s.dataOffset - s.start);
    if s.auxBytes == 0 {
      Parts(padded, data, [], []);
      assert padded + data + [] + [] == region;
    } else {
      var gap := Zeros(s.auxOffset - (s.dataOffset + s.dataBytes));
      Parts(padded, data, gap, auxiliary);
      assert padded + data + gap + auxiliary == region;
      assert region[s.auxOffset - s.start..|region|] == region[s.auxOffset - s.start..];
    }
  }

  lemma PartOfRegion(file: Bytes, at: nat, region: Bytes, from: nat, to: nat, part: Bytes)
    requires at + |region| <= |file| && file[at..at + |region|] == region && at <= from <= to <= at + |region|
    requires region[from - at..to - at] == part
    ensures file[from..to] == part
  {
    SliceOfFile(file, region, at, from - at, to - at);
  }

  lemma PayloadsInFile(file: Bytes, s: Span, data: Bytes, auxiliary: Bytes, region: Bytes)
    requires RegionHolds(s, data, auxiliary, region) && |data| == s.dataBytes && |auxiliary| == s.auxBytes
    requires s.start + |region| <= |file| && file[s.start..s.start + |region|] == region
    ensures PayloadsAt(file, s, data, auxiliary)
  {
    PartOfRegion(file, s.start, region, s.dataOffset, s.dataOffset + s.dataBytes, data);
    if s.auxBytes != 0 {
      PartOfRegion(file, s.start, region, s.auxOffset, s.auxOffset + s.auxBytes, auxiliary);
    }
  }

  /** The payloads of a region that lies in a file read back. */
  lemma PayloadsOfRegion(file: Bytes, s: Span, p: Plan, data: Bytes, auxiliary: Bytes, region: Bytes)
    requires SpanFits(s, p) && |data| == s.dataBytes && |auxiliary| == s.auxBytes
             && region == Region(s, data, auxiliary)
    requires s.start <= s.end <= |file| && file[s.start..s.end] == region
    ensures PayloadsAt(file, s, data, auxiliary)
  {
    RegionParts(s, data, auxiliary, region);
    PayloadsInFile(file, s, data, auxiliary, region);
  }

  ghost predicate PayloadsAt(file: Bytes, s: Span, data: Bytes, auxiliary: Bytes) {
    && s.dataOffset + s.dataBytes <= |file| && file[s.dataOffset..s.dataOffset + s.dataBytes] == data
    && (s.auxBytes != 0 ==> s.dataOffset <= s.auxOffset && s.auxOffset + s.auxBytes <= |file|
                            && file[s.auxOffset..s.auxOffset + s.auxBytes] == auxiliary)
  }

  lemma SuffixSlice(file: Bytes, at: nat, from: nat, to: nat, body: Bytes)
    requires at <= from <= to <= |file| && body == file[at..]
    ensures file[from..to] == body[from - at..to - at]
  {
  }

  /** The region of tensor i lies in the file where it was placed. */
  lemma {:induction false} RegionInFile(plans: seq<Plan>, spans: seq<Span>, at: nat, datas: seq<Bytes>,
                                        auxes: seq<Bytes>, file: Bytes, body: Bytes, i: nat)
    requires Placed(plans, spans, at) && Payloads(plans, datas, auxes) && i < |plans|
    requires at <= |file| && file[at..] == body && body == Body(plans, spans, at, datas, auxes, |plans|)
    ensures SpanFits(spans[i], plans[i]) && at <= spans[i].start <= spans[i].end <= |file|
    ensures file[spans[i].start..spans[i].end] == Region(spans[i], datas[i], auxes[i])
  {
    BodyAt(plans, spans, at, datas, auxes, |plans|, i);
    SuffixSlice(file, at, spans[i].start, spans[i].end, body);
  }

  /** The payloads of tensor i read back. */
  lemma {:induction false} PayloadReads(plans: seq<Plan>, l: Layout, datas: seq<Bytes>, auxes: seq<Bytes>, file: Bytes,
                                        i: nat)
    requires Placed(plans, l.spans, l.dataOffset) && Payloads(plans, datas, auxes) && i < |plans|
    requires l.dataOffset <= |file| && file[l.dataOffset..] == Body(plans, l.spans, l.dataOffset, datas, auxes, |plans|)
    ensures l.dataOffset <= l.spans[i].dataOffset && PayloadsAt(file, l.spans[i], datas[i], auxes[i])
  {
    RegionInFile(plans, l.spans, l.dataOffset, datas, auxes, file, file[l.dataOffset..], i);
    PayloadsOfRegion(file, l.spans[i], plans[i], datas[i], auxes[i], Region(l.spans[i], datas[i], auxes[i]));
  }

  // ---- acceptance

  lemma {:induction false} NameReads(plans: seq<Plan>, file: Bytes, h: Header, i: nat, e: Entry)
    requires SectionsValid(h) && h.fileBytes == |file| && i < |plans| && e.nameOffset == NameOffset(plans, i)
             && e.nameBytes == |plans[i].name|
    requires h.stringsBytes == |Strings(plans)|
             && file[h.stringsOffset..h.stringsOffset + h.stringsBytes] == Strings(plans) && plans[i].name != []
    ensures Named(h, e) && NameOf(file, h, e) == plans[i].name
  {
    ArtifactLayout.NameAt(plans, i);
    SliceOfFile(file, Strings(plans), h.stringsOffset, e.nameOffset, e.nameOffset + e.nameBytes);
  }

  lemma PayloadPasses(file: Bytes, h: Header, p: Plan, nameOffset: nat, s: Span, data: Bytes, auxiliary: Bytes,
                      verify: bool)
    requires p.Valid() && SpanFits(s, p) && PayloadsAt(file, s, data, auxiliary) && h.dataOffset <= s.dataOffset
             && h.fileBytes == |file|
    ensures PayloadAccepted(file, h, EntryFor(p, nameOffset, s, Crc(data)), verify)
  {
  }

  /** Entry i of a written file passes exactly when its type codes are ones the reader knows. */
  lemma {:induction false} EntryPasses(plans: seq<Plan>, l: Layout, datas: seq<Bytes>, auxes: seq<Bytes>, file: Bytes,
                                       h: Header, i: nat, verify: bool, e: Entry)
    requires Placed(plans, l.spans, l.dataOffset) && Payloads(plans, datas, auxes) && i < |plans| && plans[i].Valid()
    requires SectionsValid(h) && h.fileBytes == |file| && l.dataOffset == h.dataOffset <= |file|
    requires file[l.dataOffset..] == Body(plans, l.spans, l.dataOffset, datas, auxes, |plans|)
    requires h.stringsBytes == |Strings(plans)|
             && file[h.stringsOffset..h.stringsOffset + h.stringsBytes] == Strings(plans)
    requires e == EntryFor(plans[i], NameOffset(plans, i), l.spans[i], Crc(datas[i]))
    ensures NameOf(file, h, e) == plans[i].name && PayloadsAt(file, l.spans[i], datas[i], auxes[i])
    ensures Passes(file, h, e, verify) <==> ValidDType(plans[i].dtype) && ValidQuantization(plans[i].quantization)
  {
    NameReads(plans, file, h, i, e);
    PayloadReads(plans, l, datas, auxes, file, i);
    SpanAbove(plans, l.spans, l.dataOffset, i);
    PayloadPasses(file, h, plans[i], NameOffset(plans, i), l.spans[i], datas[i], auxes[i], verify);
    assert Seals.Opened(Seals.Entry);
  }

  /** The descriptor the reader gives for a planned tensor. */
  function Planned(p: Plan, s: Span, data: Bytes): Tensor
    requires |p.dimensions| <= 4
  {
    Tensor(p.name, p.dtype, p.quantization, |p.dimensions|, 0, p.alignment, FourOf(p.dimensions),
           s.dataOffset, s.dataBytes, s.auxOffset, s.auxBytes, Crc(data))
  }

  function PlannedTensors(plans: seq<Plan>, spans: seq<Span>, datas: seq<Bytes>): (r: seq<Tensor>)
    requires |spans| == |plans| == |datas| && forall i | 0 <= i < |plans| :: |plans[i].dimensions| <= 4
    ensures |r| == |plans|
  {
    seq(|plans|, i requires 0 <= i < |plans| => Planned(plans[i], spans[i], datas[i]))
  }

  ghost predicate Below(s: seq<Range>, bound: nat) {
    forall y | y in s :: y.first <= y.second <= bound
  }

  lemma {:induction false} BelowAppend(a: seq<Range>, b: seq<Range>, bound: nat, next: nat)
    requires Below(a, bound) && Below(b, next) && bound <= next && AllApart(a) && AllApart(b)
             && forall y | y in b :: bound <= y.first
    ensures Below(a + b, next) && AllApart(a + b)
  {
    ApartAppend(a, b);
  }

  lemma OwnRanges(t: Tensor, s: Span, p: Plan)
    requires SpanFits(s, p) && t.dataOffset == s.dataOffset && t.dataBytes == s.dataBytes && t.auxOffset == s.auxOffset
             && t.auxBytes == s.auxBytes
    ensures Below(RangesAt(t), s.end) && AllApart(RangesAt(t)) && forall y | y in RangesAt(t) :: s.start <= y.first
  {
    if t.auxBytes != 0 {
      var r := RangesAt(t);
      assert r[1..] == [Range(t.auxOffset, t.auxOffset + t.auxBytes)];
      assert r[1..][1..] == [];
    } else {
      assert RangesAt(t)[1..] == [];
    }
  }

  /** One more region behind those that are apart. */
  lemma {:induction false} OneMoreApart(ranges: seq<Range>, t: Tensor, s: Span, p: Plan, cursor: nat)
    requires AllApart(ranges) && Below(ranges, cursor) && cursor <= s.start <= s.end && SpanFits(s, p) && Matches(t, s)
    ensures AllApart(ranges + RangesAt(t)) && Below(ranges + RangesAt(t), s.end)
  {
    OwnRanges(t, s, p);
    BelowAppend(ranges, RangesAt(t), cursor, s.end);
  }

  lemma {:induction false} RegionAdded(plans: seq<Plan>, spans: seq<Span>, cursor: nat, tensors: seq<Tensor>, i: nat,
                                       ranges: seq<Range>)
    requires Placed(plans, spans, cursor) && |tensors| == |plans| && i < |plans| && Matches(tensors[i], spans[i])
    requires AllApart(ranges) && Below(ranges, EndOf(spans[..i], cursor))
    ensures AllApart(ranges + RangesAt(tensors[i])) && Below(ranges + RangesAt(tensors[i]), spans[i].end)
  {
    SpanAbove(plans, spans, cursor, i);
    OneMoreApart(ranges, tensors[i], spans[i], plans[i], EndOf(spans[..i], cursor));
  }

  lemma RangesNext(tensors: seq<Tensor>, i: nat)
    requires i < |tensors|
    ensures RangesOf(tensors[..i + 1]) == RangesOf(tensors[..i]) + RangesAt(tensors[i])
  {
    assert tensors[..i + 1][..i] == tensors[..i];
  }

  /** Placed payloads do not overlap. */
  lemma {:induction false} PlacedApart(plans: seq<Plan>, spans: seq<Span>, cursor: nat, tensors: seq<Tensor>, n: nat)
    requires Placed(plans, spans, cursor) && |tensors| == |plans| && n <= |plans|
    requires forall i | 0 <= i < |plans| :: Matches(tensors[i], spans[i])
    ensures AllApart(RangesOf(tensors[..n])) && Below(RangesOf(tensors[..n]), EndOf(spans[..n], cursor))
  {
    if n > 0 {
      var last := n - 1;
      PlacedApart(plans, spans, cursor, tensors, last);
      assert Matches(tensors[last], spans[last]);
      RegionAdded(plans, spans, cursor, tensors, last, RangesOf(tensors[..last]));
      RangesNext(tensors, last);
      assert spans[..n][last] == spans[last];
    }
  }

  ghost predicate Matches(t: Tensor, s: Span) {
    t.dataOffset == s.dataOffset && t.dataBytes == s.dataBytes && t.auxOffset == s.auxOffset && t.auxBytes == s.auxBytes
  }

  // ---- the theorem

  ghost predicate Known(plans: seq<Plan>) {
    forall i | 0 <= i < |plans| :: ValidDType(plans[i].dtype) && ValidQuantization(plans[i].quantization)
  }

  /** A layout as the writers make it. */
  ghost predicate Regular(plans: seq<Plan>, l: Layout) {
    && Placed(plans, l.spans, l.dataOffset) && l.fileBytes == EndOf(l.spans, l.dataOffset) < U64
    && l.stringsOffset == 256 + |plans| * 128
       && l.manifestEnd == l.stringsOffset + |Strings(plans)| <= l.dataOffset <= l.fileBytes
    && |plans| < 0x1_0000_0000
    && forall i | 0 <= i < |plans| :: plans[i].Valid() && plans[i].Typed()
  }

  lemma RegularLayout(id: Identity, plans: seq<Plan>)
    requires Accepted(id, plans) && LayoutFor(plans).Some? && forall i | 0 <= i < |plans| :: plans[i].Typed()
    ensures Regular(plans, LayoutFor(plans).value)
  {
    LayoutFits(plans);
    ArtifactWriter.EndsBelow(plans);
  }

  lemma {:induction false} SectionsWritten(plans: seq<Plan>, l: Layout, crc: nat, h: Header)
    requires l.stringsOffset == 256 + |plans| * 128
             && l.manifestEnd == l.stringsOffset + |Strings(plans)| <= l.dataOffset <= l.fileBytes
    requires h == HeaderFor(plans, l, crc)
    ensures Supported(h) && SectionsValid(h) && h.entryBytes == 128 && h.fileBytes == l.fileBytes
            && h.manifestCrc == crc
    ensures h.directoryOffset == 256 && h.tensorCount == |plans| && h.stringsOffset == l.stringsOffset
            && h.dataOffset == l.dataOffset
    ensures h.stringsBytes == |Strings(plans)| && h.stringsOffset + h.stringsBytes == l.manifestEnd
  {
  }

  lemma HeaderDecides(file: Bytes, h: Header, id: Identity, manifest: Bytes, verify: bool)
    requires h.entryBytes == 128 && h.fileBytes == |file| && SectionsValid(h)
    requires file[h.directoryOffset..h.stringsOffset + h.stringsBytes] == manifest && h.manifestCrc == Crc(manifest)
    ensures HeaderAccepted(file, h, id, verify) <==> IdentityComplete(id)
  {
  }

  /** What the reader finds in a written file before it looks at the directory. */
  ghost predicate HeaderFound(file: Bytes, id: Identity, h: Header, verify: bool)
    requires id.Valid()
  {
    && |file| >= 256 && file[..8] == Magic() && HeaderOfFile(file) == h && Supported(h) && SectionsValid(h)
       && h.fileBytes == |file|
    && (HeaderAccepted(file, h, IdentityOfFile(file), verify) <==> StartsVisibly(id))
    && (IdentityOfFile(file) == id <==> id.ZeroFree())
  }

  lemma FoundFrom(file: Bytes, id: Identity, h: Header, manifest: Bytes, verify: bool)
    requires |file| >= 256 && id.Valid() && file[..8] == Magic() && HeaderOfFile(file) == h
             && file[88..232] == id.Encoded()
    requires Supported(h) && SectionsValid(h) && h.entryBytes == 128 && h.fileBytes == |file|
             && h.manifestCrc == Crc(manifest)
    requires file[h.directoryOffset..h.stringsOffset + h.stringsBytes] == manifest
    ensures HeaderFound(file, id, h, verify)
  {
    IdentityReads(file, id);
    HeaderDecides(file, h, IdentityOfFile(file), manifest, verify);
  }

  lemma {:induction false} HeaderPasses(file: Bytes, id: Identity, plans: seq<Plan>, l: Layout, manifest: Bytes,
                                        h: Header, verify: bool)
    requires id.Valid() && |plans| < 0x1_0000_0000
    requires l.stringsOffset == 256 + |plans| * 128
    requires l.manifestEnd == l.stringsOffset + |Strings(plans)| <= l.dataOffset <= l.fileBytes < U64
    requires h == HeaderFor(plans, l, Crc(manifest)) && |file| == l.fileBytes && file[..256] == HeaderBytes(h, id)
    requires file[256..l.manifestEnd] == manifest
    ensures HeaderFound(file, id, h, verify)
  {
    HeaderFits(plans, l, manifest);
    SectionsWritten(plans, l, Crc(manifest), h);
    HeaderReads(file, id, h);
    IdentitySlice(file, id, h);
    FoundFrom(file, id, h, manifest, verify);
  }

  lemma EntriesFit(plans: seq<Plan>, l: Layout, datas: seq<Bytes>, entries: seq<Entry>)
    requires Regular(plans, l) && |datas| == |plans| && entries == Entries(plans, l.spans, Crcs(datas))
    ensures AllEntriesFit(entries)
  {
    forall i | 0 <= i < |plans|
      ensures EntryFits(entries[i])
    {
      SpanAbove(plans, l.spans, l.dataOffset, i);
      ArtifactLayout.NameAt(plans, i);
      EntryFieldsFit(plans[i], NameOffset(plans, i), l.spans[i], datas[i]);
    }
  }

  /** What the reader finds at entry i. */
  ghost predicate ReadsAt(file: Bytes, p: Plan, s: Span, data: Bytes, auxiliary: Bytes, h: Header, entries: seq<Entry>,
                          verify: bool, i: nat)
    requires SectionsValid(h) && h.fileBytes == |file| && i < |entries| && |p.dimensions| <= 4
  {
    && TensorAt(file, h, entries, i) == Planned(p, s, data) && PayloadsAt(file, s, data, auxiliary)
    && (AcceptedAt(file, h, entries, i, verify) <==> ValidDType(p.dtype) && ValidQuantization(p.quantization))
  }

  lemma {:induction false} TensorReads(file: Bytes, plans: seq<Plan>, l: Layout, datas: seq<Bytes>, auxes: seq<Bytes>,
                                       h: Header, entries: seq<Entry>, verify: bool, i: nat)
    requires Regular(plans, l) && Payloads(plans, datas, auxes) && i < |plans| && SectionsValid(h)
             && h.fileBytes == |file| && l.dataOffset == h.dataOffset <= |file|
    requires file[l.dataOffset..] == Body(plans, l.spans, l.dataOffset, datas, auxes, |plans|)
    requires h.stringsBytes == |Strings(plans)|
             && file[h.stringsOffset..h.stringsOffset + h.stringsBytes] == Strings(plans)
    requires entries == Entries(plans, l.spans, Crcs(datas))
    ensures ReadsAt(file, plans[i], l.spans[i], datas[i], auxes[i], h, entries, verify, i)
  {
    EntryPasses(plans, l, datas, auxes, file, h, i, verify, entries[i]);
  }

  ghost predicate AtMostFour(plans: seq<Plan>) {
    forall i | 0 <= i < |plans| :: |plans[i].dimensions| <= 4
  }

  /** The directory of a written file passes exactly when the reader knows its type codes. */
  lemma DirectoryPasses(file: Bytes, plans: seq<Plan>, spans: seq<Span>, datas: seq<Bytes>, auxes: seq<Bytes>,
                        h: Header, entries: seq<Entry>, verify: bool)
    requires AtMostFour(plans) && Distinct(plans) && |entries| == |datas| == |auxes| == |spans| == |plans|
    requires SectionsValid(h) && h.fileBytes == |file|
    requires forall i | 0 <= i < |plans| :: ReadsAt(file, plans[i], spans[i], datas[i], auxes[i], h, entries, verify, i)
    ensures TensorsOf(file, h, entries, |entries|) == PlannedTensors(plans, spans, datas)
    ensures EntriesAccepted(file, h, entries, |entries|, verify) <==> Known(plans)
    ensures forall i | 0 <= i < |plans| :: PayloadsAt(file, spans[i], datas[i], auxes[i])
  {
    var tensors := TensorsOf(file, h, entries, |entries|);
    forall i | 0 <= i < |plans|
      ensures tensors[i] == Planned(plans[i], spans[i], datas[i]) && PayloadsAt(file, spans[i], datas[i], auxes[i])
      ensures AcceptedAt(file, h, entries, i, verify)
              <==> ValidDType(plans[i].dtype) && ValidQuantization(plans[i].quantization)
    {
      assert ReadsAt(file, plans[i], spans[i], datas[i], auxes[i], h, entries, verify, i);
    }
    forall i, j | 0 <= i < j < |tensors|
      ensures tensors[i].name != tensors[j].name
    {
      assert plans[j].name != plans[i].name;
    }
  }

  lemma TensorsApart(plans: seq<Plan>, l: Layout, datas: seq<Bytes>)
    requires Regular(plans, l) && |datas| == |plans|
    ensures AllApart(RangesOf(PlannedTensors(plans, l.spans, datas)))
  {
    var tensors := PlannedTensors(plans, l.spans, datas);
    PlacedApart(plans, l.spans, l.dataOffset, tensors, |plans|);
    assert tensors[..|plans|] == tensors;
  }

  /** A written file opens exactly when no identity string starts with a zero byte and every type
      code is one the reader knows; then the view has the planned descriptors, and the planned
      identity exactly when that contains no zero byte.  The payloads are where the descriptors say. */
  lemma ReaderInvertsWriter(id: Identity, plans: seq<Plan>, datas: seq<Bytes>, auxes: seq<Bytes>, verify: bool)
    requires Accepted(id, plans) && LayoutFor(plans).Some? && Payloads(plans, datas, auxes)
             && forall i | 0 <= i < |plans| :: plans[i].Typed()
    ensures |LayoutFor(plans).value.spans| == |plans|
    ensures var file, spans := FileOf(id, plans, datas, auxes), LayoutFor(plans).value.spans;
            && (Acceptable(file, verify) <==> StartsVisibly(id) && Known(plans))
            && (Acceptable(file, verify) ==>
                  && ViewOf(file).tensors == PlannedTensors(plans, spans, datas)
                  && (ViewOf(file).identity == id <==> id.ZeroFree()))
            && forall i | 0 <= i < |plans| :: PayloadsAt(file, spans[i], datas[i], auxes[i])
  {
    RegularLayout(id, plans);
    var l := LayoutFor(plans).value;
    var manifest := Manifest(plans, l, Crcs(datas));
    var h := HeaderFor(plans, l, Crc(manifest));
    FileParts(id, plans, datas, auxes, l, manifest, h);
    WrittenOpens(FileOf(id, plans, datas, auxes), id, plans, l, datas, auxes, manifest, h, verify);
  }

  lemma WrittenOpens(file: Bytes, id: Identity, plans: seq<Plan>, l: Layout, datas: seq<Bytes>, auxes: seq<Bytes>,
                     manifest: Bytes, h: Header, verify: bool)
    requires id.Valid() && Regular(plans, l) && Payloads(plans, datas, auxes) && Distinct(plans)
    requires manifest == Manifest(plans, l, Crcs(datas)) && h == HeaderFor(plans, l, Crc(manifest))
    requires Written(file, id, plans, l, datas, auxes, manifest, h)
    ensures Acceptable(file, verify) <==> StartsVisibly(id) && Known(plans)
    ensures Acceptable(file, verify) ==>
              && ViewOf(file).tensors == PlannedTensors(plans, l.spans, datas)
              && (ViewOf(file).identity == id <==> id.ZeroFree())
    ensures forall i | 0 <= i < |plans| :: PayloadsAt(file, l.spans[i], datas[i], auxes[i])
  {
    HeaderPasses(file, id, plans, l, manifest, h, verify);
    HeaderPasses(file, id, plans, l, manifest, h, false);
    var entries := Entries(plans, l.spans, Crcs(datas));
    DirectoryFound(file, plans, l, datas, auxes, manifest, h, entries, verify);
    TensorsApart(plans, l, datas);
    OpensFrom(file, id, h, entries, PlannedTensors(plans, l.spans, datas), verify, StartsVisibly(id), Known(plans));
  }

  /** What the reader finds in the directory of a written file. */
  lemma {:induction false} DirectoryFound(file: Bytes, plans: seq<Plan>, l: Layout, datas: seq<Bytes>,
                                          auxes: seq<Bytes>, manifest: Bytes, h: Header, entries: seq<Entry>,
                                          verify: bool)
    requires Regular(plans, l) && Payloads(plans, datas, auxes) && Distinct(plans)
    requires manifest == Manifest(plans, l, Crcs(datas)) && entries == Entries(plans, l.spans, Crcs(datas))
             && h == HeaderFor(plans, l, Crc(manifest))
    requires |file| == l.fileBytes && 256 + |manifest| == l.manifestEnd && file[256..l.manifestEnd] == manifest
             && h.fileBytes == |file|
    requires file[l.dataOffset..] == Body(plans, l.spans, l.dataOffset, datas, auxes, |plans|) && SectionsValid(h)
    ensures EntriesOf(file, h) == entries
            && TensorsOf(file, h, entries, |entries|) == PlannedTensors(plans, l.spans, datas)
    ensures EntriesAccepted(file, h, entries, |entries|, verify) <==> Known(plans)
    ensures forall i | 0 <= i < |plans| :: PayloadsAt(file, l.spans[i], datas[i], auxes[i])
  {
    SectionsWritten(plans, l, Crc(manifest), h);
    EntriesFit(plans, l, datas, entries);
    EntriesFound(file, plans, l, h, entries, manifest);
    TensorsFound(file, plans, l, datas, auxes, h, entries, verify);
  }

  lemma {:induction false} EntriesFound(file: Bytes, plans: seq<Plan>, l: Layout, h: Header, entries: seq<Entry>,
                                        manifest: Bytes)
    requires AllEntriesFit(entries) && |entries| == |plans| == h.tensorCount
             && manifest == Directory(entries) + Strings(plans)
    requires h.directoryOffset == 256 && h.stringsOffset == l.stringsOffset == 256 + |plans| * 128
             && h.stringsBytes == |Strings(plans)|
    requires 256 + |manifest| <= |file| && file[256..256 + |manifest|] == manifest && SectionsValid(h)
             && h.fileBytes == |file|
    ensures EntriesOf(file, h) == entries && file[h.stringsOffset..h.stringsOffset + h.stringsBytes] == Strings(plans)
  {
    ManifestParts(file, plans, l, entries, manifest);
    DirectoryReads(file, h, entries);
  }

  lemma {:induction false} TensorsFound(file: Bytes, plans: seq<Plan>, l: Layout, datas: seq<Bytes>, auxes: seq<Bytes>,
                                        h: Header, entries: seq<Entry>, verify: bool)
    requires Regular(plans, l) && Payloads(plans, datas, auxes) && Distinct(plans)
    requires SectionsValid(h) && h.fileBytes == |file| && l.dataOffset == h.dataOffset <= |file|
    requires file[l.dataOffset..] == Body(plans, l.spans, l.dataOffset, datas, auxes, |plans|)
    requires h.stringsBytes == |Strings(plans)|
             && file[h.stringsOffset..h.stringsOffset + h.stringsBytes] == Strings(plans)
    requires entries == Entries(plans, l.spans, Crcs(datas))
    ensures TensorsOf(file, h, entries, |entries|) == PlannedTensors(plans, l.spans, datas)
    ensures EntriesAccepted(file, h, entries, |entries|, verify) <==> Known(plans)
    ensures forall i | 0 <= i < |plans| :: PayloadsAt(file, l.spans[i], datas[i], auxes[i])
  {
    forall i | 0 <= i < |plans|
      ensures ReadsAt(file, plans[i], l.spans[i], datas[i], auxes[i], h, entries, verify, i)
    {
      TensorReads(file, plans, l, datas, auxes, h, entries, verify, i);
    }
    DirectoryPasses(file, plans, l.spans, datas, auxes, h, entries, verify);
  }

  /** Acceptance from its parts. */
  lemma {:induction false} OpensFrom(file: Bytes, id: Identity, h: Header, entries: seq<Entry>, tensors: seq<Tensor>,
                                     verify: bool, visible: bool, known: bool)
    requires id.Valid() && visible == StartsVisibly(id) && HeaderFound(file, id, h, verify)
             && HeaderFound(file, id, h, false)
    requires EntriesOf(file, h) == entries && tensors == TensorsOf(file, h, entries, |entries|)
    requires (EntriesAccepted(file, h, entries, |entries|, verify) <==> known) && AllApart(RangesOf(tensors))
    ensures Acceptable(file, verify) <==> visible && known
    ensures Acceptable(file, verify) ==>
              ViewOf(file).tensors == tensors && (ViewOf(file).identity == id <==> id.ZeroFree())
  {
  }

  lemma {:induction false} ManifestParts(file: Bytes, plans: seq<Plan>, l: Layout, entries: seq<Entry>, manifest: Bytes)
    requires FourDimensions(entries) && |entries| == |plans| && manifest == Directory(entries) + Strings(plans)
    requires 256 + |manifest| <= |file| && file[256..256 + |manifest|] == manifest
             && l.stringsOffset == 256 + |plans| * 128
    ensures file[256..256 + |entries| * 128] == Directory(entries)
    ensures file[l.stringsOffset..l.stringsOffset + |Strings(plans)|] == Strings(plans)
  {
    PartsOfFile(file, 256, Directory(entries), Strings(plans), manifest, |entries| * 128, l.stringsOffset);
  }

  lemma PartsOfFile(file: Bytes, at: nat, a: Bytes, b: Bytes, both: Bytes, size: nat, behind: nat)
    requires both == a + b && at + |both| <= |file| && file[at..at + |both|] == both
    requires |a| == size && behind == at + size
    ensures file[at..at + size] == a && file[behind..behind + |b|] == b
  {
    SliceOfFile(file, both, at, 0, |a|);
    SliceOfFile(file, both, at, |a|, |both|);
  }

  /** The file opens under that condition, and the view then has these descriptors. */
  ghost predicate OpensAs(file: Bytes, id: Identity, tensors: seq<Tensor>, condition: bool, verify: bool) {
    && (Acceptable(file, verify) <==> condition)
    && (Acceptable(file, verify) ==>
          ViewOf(file).tensors == tensors && (ViewOf(file).identity == id <==> id.ZeroFree()))
  }

  /** What the reader makes of a file with these payloads. */
  ghost predicate ReadsBack(file: Bytes, id: Identity, plans: seq<Plan>, datas: seq<Bytes>, auxes: seq<Bytes>,
                            verify: bool) {
    && id.Valid() && LayoutFor(plans).Some? && (forall i | 0 <= i < |plans| :: |plans[i].dimensions| <= 4)
    && var spans := LayoutFor(plans).value.spans;
       && |spans| == |plans| == |datas| == |auxes|
       && OpensAs(file, id, PlannedTensors(plans, spans, datas), StartsVisibly(id) && Known(plans), verify)
       && forall i | 0 <= i < |plans| :: PayloadsAt(file, spans[i], datas[i], auxes[i])
  }

  lemma FinishedReadsBack(id: Identity, plans: seq<Plan>, datas: seq<Bytes>, auxes: seq<Bytes>, file: Bytes,
                          verify: bool)
    requires ArtifactStreamWriter.Finished(id, plans, datas, auxes, file)
             && forall i | 0 <= i < |plans| :: plans[i].Typed()
    ensures ReadsBack(file, id, plans, datas, auxes, verify)
  {
    assert Seals.Opened(Seals.File);
    ReaderInvertsWriter(id, plans, datas, auxes, verify);
  }

  /** The stream writer and the reader together: whatever the order and the chunks in which the
      payloads came, the file that finalizing leaves opens exactly when no identity string starts with
      a zero byte and every type code is known, and the view is the planned one. */
  lemma ReaderInvertsStream(w: ArtifactStreamWriter.StreamWriter, verify: bool)
    requires w.Valid() && w.finalized && forall i | 0 <= i < |w.plans| :: w.plans[i].Typed()
    ensures ReadsBack(w.file, w.id, w.plans, w.datas, w.auxes, verify)
  {
    FinishedReadsBack(w.id, w.plans, w.datas, w.auxes, w.file, verify);
  }
}
