/** ArtifactView: what opening a file checks, and what an opened file guarantees. */
module ArtifactReader {
  import opened ArtifactFormat
  import opened ArtifactLayout
  import opened PayloadRanges
  import opened Alignment
  import ArtifactStreamWriter
  import Seals

  datatype Tensor = Tensor(
    name: Bytes, dtype: nat, quantization: nat, rank: nat, flags: nat, alignment: nat, dimensions: seq<nat>,
    dataOffset: nat, dataBytes: nat, auxOffset: nat, auxBytes: nat, dataCrc: nat)

  datatype View = View(identity: Identity, tensors: seq<Tensor>)

  datatype Opening = Opened(view: View) | Corrupt | Unsupported

  predicate RangeValid(offset: nat, bytes: nat, fileBytes: nat) {
    offset <= fileBytes && bytes <= fileBytes - offset
  }

  predicate ValidDType(dtype: nat) {
    1 <= dtype <= 5
  }

  predicate ValidQuantization(quantization: nat) {
    quantization <= 5
  }

  // ---- what is checked

  function HeaderOfFile(file: Bytes): Header
    requires |file| >= 256
  {
    ReadHeader(file[..256])
  }

  predicate Supported(h: Header) {
    h.version == VERSION && h.headerBytes == 256 && h.endianTag == ENDIAN_TAG
  }

  /** Directory, names and payloads lie inside the file, in this order, the first two adjacent. */
  predicate SectionsValid(h: Header) {
    && RangeValid(h.directoryOffset, h.tensorCount * 128, h.fileBytes)
    && RangeValid(h.stringsOffset, h.stringsBytes, h.fileBytes)
    && RangeValid(h.dataOffset, h.dataBytes, h.fileBytes)
    && h.stringsOffset == h.directoryOffset + h.tensorCount * 128
    && h.stringsOffset + h.stringsBytes <= h.dataOffset
  }

  function IdentityOfFile(file: Bytes): Identity
    requires |file| >= 256
  {
    DecodeIdentity(file[88..232])
  }

  predicate IdentityComplete(id: Identity) {
    id.targetArch != [] && id.modelId != [] && id.weightsId != [] && id.recipeId != []
  }

  predicate HeaderAccepted(file: Bytes, h: Header, id: Identity, verify: bool) {
    && h.entryBytes == 128 && h.fileBytes == |file| && SectionsValid(h)
    && (verify ==> Crc(file[h.directoryOffset..h.stringsOffset + h.stringsBytes]) == h.manifestCrc)
    && IdentityComplete(id)
  }

  lemma EntryInside(h: Header, i: nat)
    requires SectionsValid(h) && i < h.tensorCount
    ensures h.directoryOffset + i * 128 + 128 <= h.stringsOffset
  {
  }

  function EntryAt(file: Bytes, h: Header, i: nat): (e: Entry)
    requires SectionsValid(h) && h.fileBytes == |file| && i < h.tensorCount
    ensures |e.dimensions| == 4
  {
    EntryInside(h, i);
    ReadEntry(file[h.directoryOffset + i * 128..h.directoryOffset + i * 128 + 128])
  }

  /** The directory. */
  function EntriesOf(file: Bytes, h: Header): (r: seq<Entry>)
    requires SectionsValid(h) && h.fileBytes == |file|
    ensures |r| == h.tensorCount && FourDimensions(r)
  {
    seq(h.tensorCount, i requires 0 <= i < h.tensorCount => EntryAt(file, h, i))
  }

  predicate Named(h: Header, e: Entry) {
    e.nameBytes != 0 && RangeValid(e.nameOffset, e.nameBytes, h.stringsBytes)
  }

  /** The name an entry points to, if it lies inside the names. */
  function NameOf(file: Bytes, h: Header, e: Entry): Bytes
    requires SectionsValid(h) && h.fileBytes == |file|
  {
    if Named(h, e) then file[h.stringsOffset + e.nameOffset..h.stringsOffset + e.nameOffset + e.nameBytes] else []
  }

  predicate EntryAccepted(file: Bytes, h: Header, e: Entry, verify: bool)
    requires SectionsValid(h) && h.fileBytes == |file|
  {
    && e.rank <= 4 && ValidDType(e.dtype) && ValidQuantization(e.quantization)
    && Named(h, e) && ValidName(NameOf(file, h, e))
    && PayloadAccepted(file, h, e, verify)
  }

  /** EntryAccepted, behind a seal. */
  ghost predicate Passes(file: Bytes, h: Header, e: Entry, verify: bool)
    requires SectionsValid(h) && h.fileBytes == |file|
  {
    forall seal {:trigger Seals.Opened(seal)} | Seals.Opened(seal) && seal == Seals.Entry ::
        EntryAccepted(file, h, e, verify)
  }

  predicate PayloadAccepted(file: Bytes, h: Header, e: Entry, verify: bool)
    requires h.fileBytes == |file|
  {
    && FILE_ALIGNMENT <= e.alignment && PowerOfTwo(e.alignment)
    && Multiple(e.dataOffset, e.alignment) && RangeValid(e.dataOffset, e.dataBytes, h.fileBytes)
       && h.dataOffset <= e.dataOffset
    && (e.auxBytes != 0 ==>
          Multiple(e.auxOffset, e.alignment) && RangeValid(e.auxOffset, e.auxBytes, h.fileBytes)
          && h.dataOffset <= e.auxOffset)
    && (verify ==> Crc(file[e.dataOffset..e.dataOffset + e.dataBytes]) == e.dataCrc)
  }

  function Describe(e: Entry, name: Bytes): Tensor {
    Tensor(name, e.dtype, e.quantization, e.rank, e.flags, e.alignment, e.dimensions,
           e.dataOffset, e.dataBytes, e.auxOffset, e.auxBytes, e.dataCrc)
  }

  function RangesAt(t: Tensor): seq<Range> {
    [Range(t.dataOffset, t.dataOffset + t.dataBytes)]
    + if t.auxBytes != 0 then [Range(t.auxOffset, t.auxOffset + t.auxBytes)] else []
  }

  function RangesOf(tensors: seq<Tensor>): seq<Range> {
    if tensors == [] then [] else RangesOf(tensors[..|tensors| - 1]) + RangesAt(tensors[|tensors| - 1])
  }

  ghost predicate AcceptedAt(file: Bytes, h: Header, entries: seq<Entry>, i: nat, verify: bool)
    requires SectionsValid(h) && h.fileBytes == |file| && i < |entries|
  {
    Passes(file, h, entries[i], verify)
  }

  function TensorAt(file: Bytes, h: Header, entries: seq<Entry>, i: nat): Tensor
    requires SectionsValid(h) && h.fileBytes == |file| && i < |entries|
  {
    Describe(entries[i], NameOf(file, h, entries[i]))
  }

  function TensorsOf(file: Bytes, h: Header, entries: seq<Entry>, n: nat): (r: seq<Tensor>)
    requires SectionsValid(h) && h.fileBytes == |file| && n <= |entries|
    ensures |r| == n
  {
    seq(n, i requires 0 <= i < n => TensorAt(file, h, entries, i))
  }

  predicate DistinctNames(tensors: seq<Tensor>) {
    forall i, j | 0 <= i < j < |tensors| :: tensors[i].name != tensors[j].name
  }

  function Names(tensors: seq<Tensor>): set<Bytes> {
    set t | t in tensors :: t.name
  }

  /** The first n entries pass, and no two of their names are equal. */
  ghost predicate EntriesAccepted(file: Bytes, h: Header, entries: seq<Entry>, n: nat, verify: bool)
    requires SectionsValid(h) && h.fileBytes == |file| && n <= |entries|
  {
    AllAccepted(file, h, entries, n, verify) && DistinctNames(TensorsOf(file, h, entries, n))
  }

  ghost predicate AllAccepted(file: Bytes, h: Header, entries: seq<Entry>, n: nat, verify: bool)
    requires SectionsValid(h) && h.fileBytes == |file| && n <= |entries|
  {
    forall i | 0 <= i < n :: AcceptedAt(file, h, entries, i, verify)
  }

  ghost predicate Acceptable(file: Bytes, verify: bool) {
    && |file| >= 256 && file[..8] == Magic() && Supported(HeaderOfFile(file))
    && HeaderAccepted(file, HeaderOfFile(file), IdentityOfFile(file), verify)
    && var h := HeaderOfFile(file);
       var entries := EntriesOf(file, h);
       EntriesAccepted(file, h, entries, |entries|, verify)
         && AllApart(RangesOf(TensorsOf(file, h, entries, |entries|)))
  }

  function ViewOf(file: Bytes): View
    requires |file| >= 256 && HeaderAccepted(file, HeaderOfFile(file), IdentityOfFile(file), false)
  {
    var h := HeaderOfFile(file);
    View(IdentityOfFile(file), TensorsOf(file, h, EntriesOf(file, h), h.tensorCount))
  }

  // ---- the directory loop

  lemma TensorsNext(file: Bytes, h: Header, entries: seq<Entry>, n: nat)
    requires SectionsValid(h) && h.fileBytes == |file| && n < |entries|
    ensures TensorsOf(file, h, entries, n + 1) == TensorsOf(file, h, entries, n) + [TensorAt(file, h, entries, n)]
  {
  }

  lemma DistinctNext(tensors: seq<Tensor>, t: Tensor)
    ensures DistinctNames(tensors + [t]) <==> DistinctNames(tensors) && t.name !in Names(tensors)
    ensures Names(tensors + [t]) == Names(tensors) + {t.name}
  {
    var longer := tensors + [t];
    forall i | 0 <= i < |tensors|
      ensures longer[i] == tensors[i] && tensors[i] in longer && tensors[i].name in Names(tensors)
    {
    }
    assert longer[|tensors|] == t && t in longer;
    assert forall x | x in longer :: x in tensors || x == t;
    if DistinctNames(longer) {
      forall i | 0 <= i < |tensors|
        ensures tensors[i].name != t.name
      {
        assert longer[i].name != longer[|tensors|].name;
      }
      forall i, j | 0 <= i < j < |tensors|
        ensures tensors[i].name != tensors[j].name
      {
        assert longer[i].name != longer[j].name;
      }
    }
  }

  /** One more entry. */
  lemma AcceptedNext(file: Bytes, h: Header, entries: seq<Entry>, n: nat, verify: bool)
    requires SectionsValid(h) && h.fileBytes == |file| && n < |entries|
    ensures EntriesAccepted(file, h, entries, n + 1, verify) <==>
              && EntriesAccepted(file, h, entries, n, verify) && AcceptedAt(file, h, entries, n, verify)
              && TensorAt(file, h, entries, n).name !in Names(TensorsOf(file, h, entries, n))
  {
    TensorsNext(file, h, entries, n);
    DistinctNext(TensorsOf(file, h, entries, n), TensorAt(file, h, entries, n));
    AllAcceptedNext(file, h, entries, n, verify);
  }

  lemma AllAcceptedNext(file: Bytes, h: Header, entries: seq<Entry>, n: nat, verify: bool)
    requires SectionsValid(h) && h.fileBytes == |file| && n < |entries|
    ensures AllAccepted(file, h, entries, n + 1, verify)
            <==> AllAccepted(file, h, entries, n, verify) && AcceptedAt(file, h, entries, n, verify)
  {
    if AllAccepted(file, h, entries, n + 1, verify) {
      assert AcceptedAt(file, h, entries, n, verify);
    }
  }

  lemma AcceptedPrefix(file: Bytes, h: Header, entries: seq<Entry>, n: nat, m: nat, verify: bool)
    requires SectionsValid(h) && h.fileBytes == |file| && n <= m <= |entries|
             && EntriesAccepted(file, h, entries, m, verify)
    ensures EntriesAccepted(file, h, entries, n, verify)
  {
    var few, all := TensorsOf(file, h, entries, n), TensorsOf(file, h, entries, m);
    forall i, j | 0 <= i < j < n
      ensures few[i].name != few[j].name
    {
      assert all[i].name != all[j].name;
    }
  }

  lemma {:induction false} RangesNext(tensors: seq<Tensor>, t: Tensor)
    ensures RangesOf(tensors + [t]) == RangesOf(tensors) + RangesAt(t)
  {
    assert (tensors + [t])[..|tensors|] == tensors;
  }

  // ---- opening

  /** The checks of an entry's payloads. */
  method CheckPayload(file: Bytes, h: Header, e: Entry, verify: bool) returns (ok: bool)
    requires h.fileBytes == |file|
    ensures ok <==> PayloadAccepted(file, h, e, verify)
  {
    ok := false;
    if e.alignment < FILE_ALIGNMENT || !PowerOfTwo(e.alignment) || !Multiple(e.dataOffset, e.alignment)
       || !RangeValid(e.dataOffset, e.dataBytes, h.fileBytes) || e.dataOffset < h.dataOffset {
      return;
    }
    if e.auxBytes != 0 {
      if !Multiple(e.auxOffset, e.alignment) || !RangeValid(e.auxOffset, e.auxBytes, h.fileBytes)
         || e.auxOffset < h.dataOffset {
        return;
      }
    }
    if verify {
      var crc := ArtifactStreamWriter.ChecksumOf(file[e.dataOffset..e.dataOffset + e.dataBytes]);
      if crc != e.dataCrc { return; }
    }
    ok := true;
  }

  /** The checks of one entry. */
  method CheckEntry(file: Bytes, h: Header, e: Entry, verify: bool, names: set<Bytes>) returns (ok: bool, name: Bytes)
    requires SectionsValid(h) && h.fileBytes == |file|
    ensures ok <==> Passes(file, h, e, verify) && NameOf(file, h, e) !in names
    ensures ok ==> name == NameOf(file, h, e)
  {
    assert Seals.Opened(Seals.Entry);
    ok, name := false, [];
    if e.rank > 4 || !ValidDType(e.dtype) || !ValidQuantization(e.quantization) || !Named(h, e) { return; }
    name := NameOf(file, h, e);
    if !ValidName(name) || name in names { return; }
    ok := CheckPayload(file, h, e, verify);
  }

  /** The state of the directory loop. */
  ghost predicate Checked(file: Bytes, h: Header, entries: seq<Entry>, n: nat, verify: bool, names: set<Bytes>,
                          tensors: seq<Tensor>, ranges: seq<Range>)
    requires SectionsValid(h) && h.fileBytes == |file| && n <= |entries|
  {
    && EntriesAccepted(file, h, entries, n, verify) && names == Names(tensors)
    && tensors == TensorsOf(file, h, entries, n) && ranges == RangesOf(tensors)
  }

  lemma CheckedNext(file: Bytes, h: Header, entries: seq<Entry>, n: nat, verify: bool, names: set<Bytes>,
                    tensors: seq<Tensor>, ranges: seq<Range>, t: Tensor)
    requires SectionsValid(h) && h.fileBytes == |file| && n < |entries|
             && Checked(file, h, entries, n, verify, names, tensors, ranges)
    requires Passes(file, h, entries[n], verify) && t == TensorAt(file, h, entries, n) && t.name !in names
    ensures Checked(file, h, entries, n + 1, verify, names + {t.name}, tensors + [t], ranges + RangesAt(t))
  {
    TensorsNext(file, h, entries, n);
    AcceptedNext(file, h, entries, n, verify);
    DistinctNext(tensors, t);
    RangesNext(tensors, t);
  }

  lemma CheckFailed(file: Bytes, h: Header, entries: seq<Entry>, n: nat, verify: bool, names: set<Bytes>,
                    tensors: seq<Tensor>, ranges: seq<Range>)
    requires SectionsValid(h) && h.fileBytes == |file| && n < |entries|
             && Checked(file, h, entries, n, verify, names, tensors, ranges)
    requires !Passes(file, h, entries[n], verify) || NameOf(file, h, entries[n]) in names
    ensures !EntriesAccepted(file, h, entries, |entries|, verify)
  {
    AcceptedNext(file, h, entries, n, verify);
    if EntriesAccepted(file, h, entries, |entries|, verify) {
      AcceptedPrefix(file, h, entries, n + 1, |entries|, verify);
    }
  }

  /** Collects the payload ranges of one tensor. */
  method PushRanges(ranges: seq<Range>, e: Entry, name: Bytes) returns (r: seq<Range>)
    ensures r == ranges + RangesAt(Describe(e, name))
  {
    r := ranges + [Range(e.dataOffset, e.dataOffset + e.dataBytes)];
    if e.auxBytes != 0 {
      r := r + [Range(e.auxOffset, e.auxOffset + e.auxBytes)];
    }
  }

  /** The directory: every entry is checked, and its payload ranges are collected. */
  method CheckDirectory(file: Bytes, h: Header, entries: seq<Entry>, verify: bool)
    returns (ok: bool, tensors: seq<Tensor>, ranges: seq<Range>)
    requires SectionsValid(h) && h.fileBytes == |file|
    ensures ok <==> EntriesAccepted(file, h, entries, |entries|, verify)
    ensures ok ==> tensors == TensorsOf(file, h, entries, |entries|) && ranges == RangesOf(tensors)
  {
    ok, tensors, ranges := false, [], [];
    var names: set<Bytes> := {};
    for index := 0 to |entries|
      invariant Checked(file, h, entries, index, verify, names, tensors, ranges)
    {
      var e := entries[index];
      var accepted, name := CheckEntry(file, h, e, verify, names);
      if !accepted {
        CheckFailed(file, h, entries, index, verify, names, tensors, ranges);
        return;
      }
      var t := Describe(e, name);
      CheckedNext(file, h, entries, index, verify, names, tensors, ranges, t);
      names := names + {name};
      tensors := tensors + [t];
      ranges := PushRanges(ranges, e, name);
    }
    ok := true;
  }

  lemma {:induction false} RangesForward(tensors: seq<Tensor>)
    ensures Forward(RangesOf(tensors))
  {
    if tensors != [] {
      RangesForward(tensors[..|tensors| - 1]);
    }
  }

  /** The tensors of a directory whose entries pass and whose payload ranges are apart. */
  method ReadTensors(file: Bytes, h: Header, entries: seq<Entry>, verify: bool) returns (ok: bool, tensors: seq<Tensor>)
    requires SectionsValid(h) && h.fileBytes == |file|
    ensures ok <==>
              EntriesAccepted(file, h, entries, |entries|, verify)
              && AllApart(RangesOf(TensorsOf(file, h, entries, |entries|)))
    ensures ok ==> tensors == TensorsOf(file, h, entries, |entries|)
  {
    var ranges;
    ok, tensors, ranges := CheckDirectory(file, h, entries, verify);
    if !ok { return; }
    RangesForward(tensors);
    var overlap := Overlap(ranges);
    ok := !overlap;
  }

  /** The checks of a header of a known version. */
  method CheckHeader(file: Bytes, h: Header, id: Identity, verify: bool) returns (ok: bool)
    ensures ok <==> HeaderAccepted(file, h, id, verify)
  {
    if h.entryBytes != 128 || h.fileBytes != |file| || !SectionsValid(h) { return false; }
    if verify {
      var crc := ArtifactStreamWriter.ChecksumOf(file[h.directoryOffset..h.stringsOffset + h.stringsBytes]);
      if crc != h.manifestCrc { return false; }
    }
    ok := IdentityComplete(id);
  }

  /** Opens a file: it is refused unless all checks pass. */
  method Open(file: Bytes, verify: bool) returns (r: Opening)
    ensures r.Opened? <==> Acceptable(file, verify)
    ensures r.Opened? ==>
              && |file| >= 256 && HeaderAccepted(file, HeaderOfFile(file), IdentityOfFile(file), false)
              && r.view == ViewOf(file)
    ensures r.Unsupported? <==> |file| >= 256 && file[..8] == Magic() && !Supported(HeaderOfFile(file))
  {
    if |file| < 256 { return Corrupt; }
    var h := HeaderOfFile(file);
    if file[..8] != Magic() { return Corrupt; }
    if h.version != VERSION || h.headerBytes != 256 { return Unsupported; }
    if h.endianTag != ENDIAN_TAG { return Unsupported; }
    var id := IdentityOfFile(file);
    var ok := CheckHeader(file, h, id, verify);
    if !ok { return Corrupt; }
    var tensors;
    ok, tensors := ReadTensors(file, h, EntriesOf(file, h), verify);
    if !ok { return Corrupt; }
    r := Opened(View(id, tensors));
  }

  // ---- what an opened file guarantees

  lemma {:induction false} RangesApart(tensors: seq<Tensor>, i: nat, j: nat, x: Range, y: Range)
    requires AllApart(RangesOf(tensors)) && i < j < |tensors| && x in RangesAt(tensors[i]) && y in RangesAt(tensors[j])
    ensures Apart(x, y)
    decreases |tensors|
  {
    var n := |tensors| - 1;
    var front := tensors[..n];
    ApartAppend(RangesOf(front), RangesAt(tensors[n]));
    if j < n {
      RangesApart(front, i, j, x, y);
    } else {
      RangesHold(front, i, x);
      assert ApartFrom(x, RangesAt(tensors[n]));
    }
  }

  lemma {:induction false} RangesHold(tensors: seq<Tensor>, i: nat, x: Range)
    requires i < |tensors| && x in RangesAt(tensors[i])
    ensures x in RangesOf(tensors)
    decreases |tensors|
  {
    var n := |tensors| - 1;
    if i < n {
      RangesHold(tensors[..n], i, x);
    }
  }

  lemma {:induction false} OwnRangesApart(tensors: seq<Tensor>, i: nat)
    requires AllApart(RangesOf(tensors)) && i < |tensors|
    ensures AllApart(RangesAt(tensors[i]))
    decreases |tensors|
  {
    var n := |tensors| - 1;
    ApartAppend(RangesOf(tensors[..n]), RangesAt(tensors[n]));
    if i < n {
      OwnRangesApart(tensors[..n], i);
    }
  }

  ghost predicate InsideFile(start: nat, fileBytes: nat, t: Tensor) {
    && start <= t.dataOffset && (t.auxBytes != 0 ==> start <= t.auxOffset)
    && t.dataOffset + t.dataBytes <= fileBytes && (t.auxBytes != 0 ==> t.auxOffset + t.auxBytes <= fileBytes)
    && t.alignment > 0 && Multiple(t.dataOffset, t.alignment)
       && (t.auxBytes != 0 ==> Multiple(t.auxOffset, t.alignment))
    && ValidDType(t.dtype) && ValidQuantization(t.quantization) && t.rank <= 4
  }

  /** The two payloads of one tensor, and those of different tensors, never share a byte. */
  ghost predicate PayloadsApart(tensors: seq<Tensor>) {
    && (forall i | 0 <= i < |tensors| :: AllApart(RangesAt(tensors[i])))
    && forall i, j | 0 <= i < j < |tensors| :: EachApart(RangesAt(tensors[i]), RangesAt(tensors[j]))
  }

  /** An opened file: every tensor is well named, typed and aligned, its payloads lie inside the file
      behind the directory and the names, and no two payloads overlap.  The reader does not ask that
      the directory lie behind the header. */
  lemma OpenedIsSound(file: Bytes, verify: bool)
    requires Acceptable(file, verify)
    ensures var tensors := ViewOf(file).tensors;
            && DistinctNames(tensors) && PayloadsApart(tensors)
            && HeaderOfFile(file).stringsOffset + HeaderOfFile(file).stringsBytes <= HeaderOfFile(file).dataOffset
            && forall i | 0 <= i < |tensors| ::
                 InsideFile(HeaderOfFile(file).dataOffset, |file|, tensors[i]) && ValidName(tensors[i].name)
  {
    var h := HeaderOfFile(file);
    var entries := EntriesOf(file, h);
    var tensors := ViewOf(file).tensors;
    forall i | 0 <= i < |tensors|
      ensures InsideFile(h.dataOffset, |file|, tensors[i]) && ValidName(tensors[i].name)
    {
      TensorSound(file, h, entries, i, verify);
    }
    ApartSound(tensors);
  }

  lemma TensorSound(file: Bytes, h: Header, entries: seq<Entry>, i: nat, verify: bool)
    requires SectionsValid(h) && h.fileBytes == |file| && i < |entries|
             && EntriesAccepted(file, h, entries, |entries|, verify)
    requires h.directoryOffset + |entries| * 128 <= h.dataOffset
    ensures InsideFile(h.dataOffset, |file|, TensorAt(file, h, entries, i))
            && ValidName(TensorAt(file, h, entries, i).name)
  {
    assert AcceptedAt(file, h, entries, i, verify);
    assert Seals.Opened(Seals.Entry);
  }

  lemma {:induction false} ApartSound(tensors: seq<Tensor>)
    requires AllApart(RangesOf(tensors))
    ensures PayloadsApart(tensors)
  {
    forall i | 0 <= i < |tensors|
      ensures AllApart(RangesAt(tensors[i]))
    {
      OwnRangesApart(tensors, i);
    }
    forall i, j | 0 <= i < j < |tensors|
      ensures EachApart(RangesAt(tensors[i]), RangesAt(tensors[j]))
    {
      forall x, y | x in RangesAt(tensors[i]) && y in RangesAt(tensors[j])
        ensures Apart(x, y)
      {
        RangesApart(tensors, i, j, x, y);
      }
    }
  }
}
