/** The records of an artifact file: a 256-byte header, a directory of 128-byte tensor entries, and
    the names behind it. */
module ArtifactFormat {
  import opened LittleEndian
  import opened Concatenation
  import Seals

  type Bytes = seq<bv8>

  function Zeros(n: nat): (r: Bytes)
    ensures |r| == n && forall i | 0 <= i < n :: r[i] == 0
  {
    seq(n, _ => 0)
  }

  // ---- fixed strings

  /** A string padded with zeros. */
  function Padded(value: Bytes, width: nat): (r: Bytes)
    requires |value| <= width
    ensures |r| == width
  {
    value + Zeros(width - |value|)
  }

  /** A string up to its first zero, if any. */
  function FixedString(bytes: Bytes): (r: Bytes)
    ensures |r| <= |bytes|
  {
    if bytes == [] || bytes[0] == 0 then [] else [bytes[0]] + FixedString(bytes[1..])
  }

  /** A padded string reads back exactly when it contains no zero. */
  lemma {:induction false} FixedStringRoundTrip(value: Bytes, width: nat)
    requires |value| <= width
    ensures FixedString(Padded(value, width)) == value <==> 0 !in value
  {
    var bytes := Padded(value, width);
    if value == [] {
      assert bytes == [] || bytes[0] == 0;
    } else if value[0] == 0 {
      assert FixedString(bytes) == [];
    } else {
      assert bytes[1..] == Padded(value[1..], width - 1);
      FixedStringRoundTrip(value[1..], width - 1);
      assert value == [value[0]] + value[1..];
      assert FixedString(bytes) == [value[0]] + FixedString(bytes[1..]);
      assert 0 in value <==> 0 in value[1..];
      if FixedString(bytes) == value {
        assert FixedString(bytes)[1..] == value[1..];
      }
    }
  }

  // ---- the header

  datatype Identity = Identity(targetArch: Bytes, modelId: Bytes, weightsId: Bytes, recipeId: Bytes) {
    /** What set_fixed accepts. */
    predicate Valid() {
      && 0 < |targetArch| < 16 && 0 < |modelId| < 32 && 0 < |weightsId| < 32 && 0 < |recipeId| < 64
    }

    predicate ZeroFree() {
      0 !in targetArch && 0 !in modelId && 0 !in weightsId && 0 !in recipeId
    }

    function Encoded(): (r: Bytes)
      requires Valid()
      ensures |r| == 144
    {
      Padded(targetArch, 16) + Padded(modelId, 32) + Padded(weightsId, 32) + Padded(recipeId, 64)
    }
  }

  function DecodeIdentity(bytes: Bytes): Identity
    requires |bytes| == 144
  {
    Identity(FixedString(bytes[..16]), FixedString(bytes[16..48]), FixedString(bytes[48..80]), FixedString(bytes[80..]))
  }

  lemma IdentityRoundTrip(id: Identity)
    requires id.Valid()
    ensures DecodeIdentity(id.Encoded()) == id <==> id.ZeroFree()
  {
    var b := id.Encoded();
    assert b[..16] == Padded(id.targetArch, 16);
    assert b[16..48] == Padded(id.modelId, 32);
    assert b[48..80] == Padded(id.weightsId, 32);
    assert b[80..] == Padded(id.recipeId, 64);
    FixedStringRoundTrip(id.targetArch, 16);
    FixedStringRoundTrip(id.modelId, 32);
    FixedStringRoundTrip(id.weightsId, 32);
    FixedStringRoundTrip(id.recipeId, 64);
  }

  datatype Header = Header(
    version: nat, headerBytes: nat, endianTag: nat, flags: nat, directoryOffset: nat, tensorCount: nat, entryBytes: nat,
    stringsOffset: nat, stringsBytes: nat, dataOffset: nat, dataBytes: nat, fileBytes: nat, manifestCrc: nat) {
    function Record(): (r: seq<nat>)
      ensures |r| == 13
    {
      [version, headerBytes, endianTag, flags, directoryOffset, tensorCount, entryBytes,
       stringsOffset, stringsBytes, dataOffset, dataBytes, fileBytes, manifestCrc]
    }
  }

  function HeaderWidths(): (r: seq<nat>)
    ensures |r| == 13
  {
    [4, 4, 4, 4, 8, 4, 4, 8, 8, 8, 8, 8, 8]
  }

  function HeaderOf(r: seq<nat>): Header
    requires |r| == 13
  {
    Header(r[0], r[1], r[2], r[3], r[4], r[5], r[6], r[7], r[8], r[9], r[10], r[11], r[12])
  }

  lemma HeaderWidth()
    ensures Width(HeaderWidths(), 13) == 80
  {
    var w := HeaderWidths();
    assert Width(w, 2) == 8;
    assert Width(w, 4) == 16;
    assert Width(w, 6) == 28;
    assert Width(w, 8) == 40;
    assert Width(w, 10) == 56;
    assert Width(w, 12) == 72;
    assert Width(w, 13) == 80;
  }

  /** G F X I, carriage return, line feed, end of file, line feed. */
  function Magic(): (r: Bytes)
    ensures |r| == 8
  {
    [71, 70, 88, 73, 13, 10, 26, 10]
  }

  function HeaderBytes(h: Header, id: Identity): (r: Bytes)
    requires id.Valid()
    ensures |r| == 256
  {
    HeaderWidth();
    Assembled(Encode(HeaderWidths(), h.Record()), id.Encoded())
  }

  function Assembled(record: Bytes, identity: Bytes): (r: Bytes)
    requires |record| == 80 && |identity| == 144
    ensures |r| == 256
  {
    Magic() + record + identity + Zeros(24)
  }

  lemma AssembledParts(record: Bytes, identity: Bytes)
    requires |record| == 80 && |identity| == 144
    ensures var b := Assembled(record, identity);
            b[..8] == Magic() && b[8..88] == record && b[88..232] == identity
  {
  }

  /** A little-endian number stands at an offset; behind a seal. */
  ghost predicate NumberAt(bytes: Bytes, at: nat, width: nat, n: nat) {
    forall seal {:trigger Seals.Opened(seal)} | Seals.Opened(seal) && seal == Seals.Field ::
      at + width <= |bytes| && bytes[at..at + width] == Le(n, width)
  }

  lemma {:induction false} NumberStands(widths: seq<nat>, values: seq<nat>, i: nat, at: nat, width: nat)
    requires i < |values| <= |widths| && at == Width(widths, i) && width == widths[i]
    ensures NumberAt(Encode(widths, values), at, width, values[i])
  {
    FieldStands(widths, values, i, at, width);
  }

  lemma NumberBehind(record: Bytes, before: Bytes, after: Bytes, at: nat, width: nat, n: nat)
    requires NumberAt(record, at, width, n)
    ensures NumberAt(before + record + after, |before| + at, width, n)
  {
    assert Seals.Opened(Seals.Field);
    var all := before + record + after;
    assert all[|before|..|before| + |record|] == record;
    assert all[|before| + at..|before| + at + width] == record[at..at + width];
  }

  lemma {:induction false} HeaderField(h: Header, id: Identity, i: nat, at: nat, width: nat)
    requires id.Valid() && i < 13 && at == Width(HeaderWidths(), i) && width == HeaderWidths()[i]
    ensures NumberAt(HeaderBytes(h, id), 8 + at, width, h.Record()[i])
  {
    HeaderWidth();
    var record := Encode(HeaderWidths(), h.Record());
    NumberStands(HeaderWidths(), h.Record(), i, at, width);
    NumberBehind(record, Magic(), id.Encoded() + Zeros(24), at, width, h.Record()[i]);
    assert Magic() + record + (id.Encoded() + Zeros(24)) == Assembled(record, id.Encoded());
  }

  function HeaderOffsets(): (r: seq<nat>)
    ensures |r| == 13
  {
    [8, 12, 16, 20, 24, 32, 36, 40, 48, 56, 64, 72, 80]
  }

  lemma {:induction false} OffsetsAreWidths(i: nat)
    requires i < 13
    ensures HeaderOffsets()[i] == 8 + Width(HeaderWidths(), i)
  {
    var w := HeaderWidths();
    if i > 0 {
      OffsetsAreWidths(i - 1);
      assert Width(w, i) == Width(w, i - 1) + w[i - 1];
    }
  }

  /** The numbers of a header at their offsets. */
  ghost predicate HasHeader(b: Bytes, h: Header) {
    && NumberAt(b, 8, 4, h.version) && NumberAt(b, 12, 4, h.headerBytes) && NumberAt(b, 16, 4, h.endianTag)
    && NumberAt(b, 20, 4, h.flags) && NumberAt(b, 24, 8, h.directoryOffset) && NumberAt(b, 32, 4, h.tensorCount)
    && NumberAt(b, 36, 4, h.entryBytes) && NumberAt(b, 40, 8, h.stringsOffset) && NumberAt(b, 48, 8, h.stringsBytes)
    && NumberAt(b, 56, 8, h.dataOffset) && NumberAt(b, 64, 8, h.dataBytes) && NumberAt(b, 72, 8, h.fileBytes)
    && NumberAt(b, 80, 8, h.manifestCrc)
  }

  lemma FieldsAreHeader(b: Bytes, h: Header)
    requires forall i | 0 <= i < 13 :: NumberAt(b, HeaderOffsets()[i], HeaderWidths()[i], h.Record()[i])
    ensures HasHeader(b, h)
  {
    var at, w, r := HeaderOffsets(), HeaderWidths(), h.Record();
    assert NumberAt(b, at[0], w[0], r[0]) && NumberAt(b, at[1], w[1], r[1]) && NumberAt(b, at[2], w[2], r[2]);
    assert NumberAt(b, at[3], w[3], r[3]) && NumberAt(b, at[4], w[4], r[4]) && NumberAt(b, at[5], w[5], r[5]);
    assert NumberAt(b, at[6], w[6], r[6]) && NumberAt(b, at[7], w[7], r[7]) && NumberAt(b, at[8], w[8], r[8]);
    assert NumberAt(b, at[9], w[9], r[9]) && NumberAt(b, at[10], w[10], r[10]) && NumberAt(b, at[11], w[11], r[11]);
    assert NumberAt(b, at[12], w[12], r[12]);
  }

  lemma IdentityStands(record: Bytes, id: Identity)
    requires id.Valid() && |record| == 80
    ensures var b := Assembled(record, id.Encoded());
            && b[..8] == Magic() && b[88..104] == Padded(id.targetArch, 16) && b[104..136] == Padded(id.modelId, 32)
            && b[136..168] == Padded(id.weightsId, 32) && b[168..232] == Padded(id.recipeId, 64)
            && b[232..] == Zeros(24)
  {
  }

  /** The header, byte by byte. */
  lemma HeaderLayout(h: Header, id: Identity, b: Bytes)
    requires id.Valid() && b == HeaderBytes(h, id)
    ensures HasHeader(b, h)
    ensures && b[..8] == Magic() && b[88..104] == Padded(id.targetArch, 16) && b[104..136] == Padded(id.modelId, 32)
            && b[136..168] == Padded(id.weightsId, 32) && b[168..232] == Padded(id.recipeId, 64)
            && b[232..] == Zeros(24)
  {
    forall i | 0 <= i < 13
      ensures NumberAt(b, HeaderOffsets()[i], HeaderWidths()[i], h.Record()[i])
    {
      OffsetsAreWidths(i);
      HeaderField(h, id, i, Width(HeaderWidths(), i), HeaderWidths()[i]);
    }
    FieldsAreHeader(b, h);
    HeaderWidth();
    IdentityStands(Encode(HeaderWidths(), h.Record()), id);
  }

  function ReadHeader(bytes: Bytes): Header
    requires |bytes| == 256
  {
    HeaderWidth();
    HeaderOf(LittleEndian.Record(HeaderWidths(), bytes[8..88]))
  }

  lemma HeaderRoundTrip(h: Header, id: Identity)
    requires id.Valid() && Fits(HeaderWidths(), h.Record())
    ensures var b := HeaderBytes(h, id);
            && b[..8] == Magic() && ReadHeader(b) == h
            && (DecodeIdentity(b[88..232]) == id <==> id.ZeroFree())
  {
    HeaderWidth();
    AssembledParts(Encode(HeaderWidths(), h.Record()), id.Encoded());
    RecordRoundTrip(HeaderWidths(), h.Record());
    assert HeaderOf(h.Record()) == h;
    IdentityRoundTrip(id);
  }

  // ---- directory entries

  datatype Entry = Entry(
    nameOffset: nat, nameBytes: nat, dtype: nat, quantization: nat, rank: nat, flags: nat, alignment: nat,
    dimensions: seq<nat>, dataOffset: nat, dataBytes: nat, auxOffset: nat, auxBytes: nat, dataCrc: nat) {
    function Record(): (r: seq<nat>)
      requires |dimensions| == 4
      ensures |r| == 16
    {
      [nameOffset, nameBytes, dtype, quantization, rank, flags, alignment]
      + dimensions + [dataOffset, dataBytes, auxOffset, auxBytes, dataCrc]
    }
  }

  function EntryWidths(): (r: seq<nat>)
    ensures |r| == 16
  {
    [8, 4, 2, 2, 2, 2, 4, 8, 8, 8, 8, 8, 8, 8, 8, 8]
  }

  lemma EntryWidth()
    ensures Width(EntryWidths(), 16) == 96
  {
    var w := EntryWidths();
    assert Width(w, 2) == 12;
    assert Width(w, 4) == 16;
    assert Width(w, 6) == 20;
    assert Width(w, 8) == 32;
    assert Width(w, 10) == 48;
    assert Width(w, 12) == 64;
    assert Width(w, 14) == 80;
    assert Width(w, 16) == 96;
  }

  function EntryOf(r: seq<nat>): (e: Entry)
    requires |r| == 16
    ensures |e.dimensions| == 4
  {
    Entry(r[0], r[1], r[2], r[3], r[4], r[5], r[6], r[7..11], r[11], r[12], r[13], r[14], r[15])
  }

  function EntryBytes(e: Entry): (r: Bytes)
    requires |e.dimensions| == 4
    ensures |r| == 128
  {
    EntryWidth();
    Encode(EntryWidths(), e.Record()) + Zeros(32)
  }

  function ReadEntry(bytes: Bytes): (e: Entry)
    requires |bytes| == 128
    ensures |e.dimensions| == 4
  {
    EntryWidth();
    EntryOf(LittleEndian.Record(EntryWidths(), bytes[..96]))
  }

  ghost predicate EntryFits(e: Entry) {
    |e.dimensions| == 4 && Fits(EntryWidths(), e.Record())
  }

  lemma RecordRead(e: Entry)
    requires |e.dimensions| == 4
    ensures EntryOf(e.Record()) == e
  {
    var r := e.Record();
    assert r[..7] == [e.nameOffset, e.nameBytes, e.dtype, e.quantization, e.rank, e.flags, e.alignment];
    assert r[0] == r[..7][0] && r[1] == r[..7][1] && r[2] == r[..7][2] && r[3] == r[..7][3] && r[4] == r[..7][4];
    assert r[5] == r[..7][5] && r[6] == r[..7][6];
    assert r[7..11] == e.dimensions;
    assert r[11..] == [e.dataOffset, e.dataBytes, e.auxOffset, e.auxBytes, e.dataCrc];
    assert r[11] == r[11..][0] && r[12] == r[11..][1] && r[13] == r[11..][2] && r[14] == r[11..][3]
           && r[15] == r[11..][4];
  }

  lemma EntryRoundTrip(e: Entry)
    requires EntryFits(e)
    ensures ReadEntry(EntryBytes(e)) == e
  {
    EntryWidth();
    assert EntryBytes(e)[..96] == Encode(EntryWidths(), e.Record());
    RecordRoundTrip(EntryWidths(), e.Record());
    RecordRead(e);
  }

  function EntryOffsets(): (r: seq<nat>)
    ensures |r| == 16
  {
    [0, 8, 12, 14, 16, 18, 20, 24, 32, 40, 48, 56, 64, 72, 80, 88]
  }

  lemma {:induction false} EntryOffsetsAreWidths(i: nat)
    requires i < 16
    ensures EntryOffsets()[i] == Width(EntryWidths(), i)
  {
    var w := EntryWidths();
    if i > 0 {
      EntryOffsetsAreWidths(i - 1);
      assert Width(w, i) == Width(w, i - 1) + w[i - 1];
    }
  }

  /** The numbers of an entry at their offsets. */
  ghost predicate HasEntry(b: Bytes, e: Entry)
    requires |e.dimensions| == 4
  {
    && NumberAt(b, 0, 8, e.nameOffset) && NumberAt(b, 8, 4, e.nameBytes) && NumberAt(b, 12, 2, e.dtype)
    && NumberAt(b, 14, 2, e.quantization) && NumberAt(b, 16, 2, e.rank) && NumberAt(b, 18, 2, e.flags)
    && NumberAt(b, 20, 4, e.alignment) && NumberAt(b, 24, 8, e.dimensions[0]) && NumberAt(b, 32, 8, e.dimensions[1])
    && NumberAt(b, 40, 8, e.dimensions[2]) && NumberAt(b, 48, 8, e.dimensions[3]) && NumberAt(b, 56, 8, e.dataOffset)
    && NumberAt(b, 64, 8, e.dataBytes) && NumberAt(b, 72, 8, e.auxOffset) && NumberAt(b, 80, 8, e.auxBytes)
    && NumberAt(b, 88, 8, e.dataCrc)
  }

  lemma FieldsAreEntry(b: Bytes, e: Entry)
    requires |e.dimensions| == 4
    requires forall i | 0 <= i < 16 :: NumberAt(b, EntryOffsets()[i], EntryWidths()[i], e.Record()[i])
    ensures HasEntry(b, e)
  {
    var at, w, r := EntryOffsets(), EntryWidths(), e.Record();
    assert NumberAt(b, at[0], w[0], r[0]) && NumberAt(b, at[1], w[1], r[1]) && NumberAt(b, at[2], w[2], r[2]);
    assert NumberAt(b, at[3], w[3], r[3]) && NumberAt(b, at[4], w[4], r[4]) && NumberAt(b, at[5], w[5], r[5]);
    assert NumberAt(b, at[6], w[6], r[6]) && NumberAt(b, at[7], w[7], r[7]) && NumberAt(b, at[8], w[8], r[8]);
    assert NumberAt(b, at[9], w[9], r[9]) && NumberAt(b, at[10], w[10], r[10]) && NumberAt(b, at[11], w[11], r[11]);
    assert NumberAt(b, at[12], w[12], r[12]) && NumberAt(b, at[13], w[13], r[13]);
    assert NumberAt(b, at[14], w[14], r[14]) && NumberAt(b, at[15], w[15], r[15]);
  }

  /** A directory entry, byte by byte. */
  lemma EntryLayout(e: Entry, b: Bytes)
    requires |e.dimensions| == 4 && b == EntryBytes(e)
    ensures HasEntry(b, e) && b[96..] == Zeros(32)
  {
    EntryWidth();
    var record := Encode(EntryWidths(), e.Record());
    forall i | 0 <= i < 16
      ensures NumberAt(b, EntryOffsets()[i], EntryWidths()[i], e.Record()[i])
    {
      EntryOffsetsAreWidths(i);
      NumberStands(EntryWidths(), e.Record(), i, EntryOffsets()[i], EntryWidths()[i]);
      NumberBehind(record, [], Zeros(32), EntryOffsets()[i], EntryWidths()[i], e.Record()[i]);
      assert [] + record + Zeros(32) == b;
    }
    FieldsAreEntry(b, e);
  }

  predicate FourDimensions(entries: seq<Entry>) {
    forall i | 0 <= i < |entries| :: |entries[i].dimensions| == 4
  }

  function EntryPieces(entries: seq<Entry>): nat -> Bytes
    requires FourDimensions(entries)
  {
    (i: nat) => if i < |entries| then EntryBytes(entries[i]) else []
  }

  lemma EntryPiecesUniform(entries: seq<Entry>)
    requires FourDimensions(entries)
    ensures Uniform(EntryPieces(entries), |entries|, 128)
  {
  }

  /** The entries, one after the other. */
  function Directory(entries: seq<Entry>): (r: Bytes)
    requires FourDimensions(entries)
    ensures |r| == |entries| * 128
  {
    EntryPiecesUniform(entries);
    FlatLength(EntryPieces(entries), |entries|, 128);
    Flat(EntryPieces(entries), |entries|)
  }

  lemma Joined<T>(a: seq<T>, b: seq<T>, i: nat, j: nat)
    requires i <= j <= |a|
    ensures (a + b)[i..j] == a[i..j] && (a + b)[|a|..|a| + |b|] == b
  {
  }
}
