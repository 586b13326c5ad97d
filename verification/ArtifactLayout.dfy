/** Where the parts of an artifact go, the file they make, and the one-shot writer. */
module ArtifactLayout {
  import opened ArtifactFormat
  import Crc64
  import opened Alignment
  import opened Options

  const U64: nat := 0x1_0000_0000_0000_0000
  const FILE_ALIGNMENT: nat := 256

  /** InvalidArgument is a refused request, IoError a system call that failed. */
  datatype FileOutcome<+T> = Ok(value: T) | InvalidArgument | IoError

  /** A tensor to be written: what its directory entry says, and the sizes of its payloads. */
  datatype Plan = Plan(name: Bytes, dtype: nat, quantization: nat, dimensions: seq<nat>,
                       dataBytes: nat, auxBytes: nat, alignment: nat) {
    /** The widths of the fields that hold these values. */
    ghost predicate Typed() {
      && dtype < 0x1_0000 && quantization < 0x1_0000 && alignment < 0x1_0000_0000 && |name| < 0x1_0000_0000
      && dataBytes < U64 && auxBytes < U64 && forall i | 0 <= i < |dimensions| :: dimensions[i] < U64
    }

    predicate Valid() {
      && ValidName(name) && |dimensions| <= 4 && dataBytes != 0 && FILE_ALIGNMENT <= alignment && PowerOfTwo(alignment)
    }
  }

  predicate PowerOfTwo(n: nat) {
    n == 1 || (n > 1 && n % 2 == 0 && PowerOfTwo(n / 2))
  }

  predicate NameByte(c: bv8) {
    97 <= c <= 122 || 65 <= c <= 90 || 48 <= c <= 57 || c == 95 || c == 45 || c == 46 || c == 47
  }

  /** Two dots in a row. */
  predicate HasDots(name: Bytes) {
    |name| >= 2 && ((name[0] == 46 && name[1] == 46) || HasDots(name[1..]))
  }

  predicate ValidName(name: Bytes) {
    && name != [] && name[0] != 47
    && (forall i | 0 <= i < |name| :: NameByte(name[i]))
    && !HasDots(name)
  }

  predicate Distinct(plans: seq<Plan>) {
    forall i | 0 <= i < |plans| :: forall j | 0 <= j < i :: plans[i].name != plans[j].name
  }

  predicate Accepted(id: Identity, plans: seq<Plan>) {
    && |plans| < 0x1_0000_0000 && id.Valid() && Distinct(plans) && forall i | 0 <= i < |plans| :: plans[i].Valid()
  }

  // ---- offsets

  /** The next multiple of a power of two, or 0 when it does not fit. */
  function AlignUp(value: nat, alignment: nat): (r: nat)
    ensures r != 0 ==> value <= r < value + alignment && Multiple(r, alignment) && r < U64
    ensures r == 0 && value > 0 && PowerOfTwo(alignment) ==> value + alignment > U64
  {
    if !PowerOfTwo(alignment) || value > U64 - 1 - (alignment - 1) then 0 else RoundUp(value, alignment)
  }

  /** The region of one tensor: its payload, its auxiliary payload if any, and what precedes each. */
  datatype Span = Span(start: nat, dataOffset: nat, dataBytes: nat, auxOffset: nat, auxBytes: nat, end: nat)

  /** Places one tensor behind the cursor. */
  function Place(cursor: nat, p: Plan): Option<Span> {
    var d := AlignUp(cursor, p.alignment);
    if d == 0 || p.dataBytes > U64 - 1 - d then None
    else
      var c := d + p.dataBytes;
      if p.auxBytes == 0 then Some(Span(cursor, d, p.dataBytes, 0, 0, c))
      else
        var a := AlignUp(c, p.alignment);
        if a == 0 || p.auxBytes > U64 - 1 - a then None
        else Some(Span(cursor, d, p.dataBytes, a, p.auxBytes, a + p.auxBytes))
  }

  /** Places the tensors one after the other; the last cursor is the end of the file. */
  function Places(plans: seq<Plan>, cursor: nat): Option<seq<Span>> {
    if plans == [] then Some([])
    else
      match Places(plans[..|plans| - 1], cursor)
      case None => None
      case Some(front) =>
        match Place(EndOf(front, cursor), plans[|plans| - 1])
        case None => None
        case Some(s) => Some(front + [s])
  }

  function EndOf(spans: seq<Span>, cursor: nat): nat {
    if spans == [] then cursor else spans[|spans| - 1].end
  }

  /** Regions follow each other without overlap, and payloads start at the first multiple of their
      alignment that is free. */
  ghost predicate SpanFits(s: Span, p: Plan) {
    && s.start <= s.dataOffset < s.start + p.alignment && Multiple(s.dataOffset, p.alignment)
       && s.dataBytes == p.dataBytes && s.auxBytes == p.auxBytes
    && s.end < U64
    && if p.auxBytes == 0 then s.auxOffset == 0 && s.end == s.dataOffset + s.dataBytes
       else
         && s.dataOffset + s.dataBytes <= s.auxOffset < s.dataOffset + s.dataBytes + p.alignment
         && Multiple(s.auxOffset, p.alignment) && s.end == s.auxOffset + s.auxBytes
  }

  ghost predicate Placed(plans: seq<Plan>, spans: seq<Span>, cursor: nat) {
    && |spans| == |plans|
    && forall i | 0 <= i < |spans| :: PlacedAt(plans, spans, cursor, i)
  }

  ghost predicate PlacedAt(plans: seq<Plan>, spans: seq<Span>, cursor: nat, i: nat)
    requires i < |spans| == |plans|
  {
    spans[i].start == EndOf(spans[..i], cursor) && SpanFits(spans[i], plans[i])
  }

  lemma {:induction false} PlacesFit(plans: seq<Plan>, cursor: nat)
    requires Places(plans, cursor).Some?
    ensures Placed(plans, Places(plans, cursor).value, cursor)
  {
    var spans := Places(plans, cursor).value;
    if plans != [] {
      var n := |plans| - 1;
      PlacesFit(plans[..n], cursor);
      var front := Places(plans[..n], cursor).value;
      assert spans[..n] == front;
      forall i | 0 <= i < |spans|
        ensures PlacedAt(plans, spans, cursor, i)
      {
        if i < n {
          assert PlacedAt(plans[..n], front, cursor, i);
          assert spans[..i] == front[..i];
        }
      }
    }
  }

  /** A region ends before every later one starts, and none starts before the cursor. */
  lemma {:induction false} SpansOrdered(plans: seq<Plan>, spans: seq<Span>, cursor: nat, i: nat, j: nat)
    requires Placed(plans, spans, cursor) && i < j < |spans|
    ensures cursor <= spans[i].start <= spans[i].dataOffset && spans[i].end <= spans[j].start
    decreases j
  {
    var before := j - 1;
    assert PlacedAt(plans, spans, cursor, j) && PlacedAt(plans, spans, cursor, before);
    assert spans[..j][before] == spans[before];
    if i < before {
      SpansOrdered(plans, spans, cursor, i, before);
    } else {
      SpanAbove(plans, spans, cursor, i);
    }
  }

  lemma {:induction false} SpanAbove(plans: seq<Plan>, spans: seq<Span>, cursor: nat, i: nat)
    requires Placed(plans, spans, cursor) && i < |spans|
    ensures cursor <= spans[i].start <= spans[i].dataOffset && spans[i].dataOffset + spans[i].dataBytes <= spans[i].end
    ensures spans[i].start == EndOf(spans[..i], cursor) && SpanFits(spans[i], plans[i])
    decreases i
  {
    assert PlacedAt(plans, spans, cursor, i);
    if i > 0 {
      var before := i - 1;
      assert spans[..i][before] == spans[before];
      SpanAbove(plans, spans, cursor, before);
    }
  }

  // ---- the directory and the names

  function Strings(plans: seq<Plan>): Bytes {
    if plans == [] then [] else Strings(plans[..|plans| - 1]) + plans[|plans| - 1].name
  }

  /** Where a tensor's name starts. */
  function NameOffset(plans: seq<Plan>, i: nat): nat
    requires i <= |plans|
  {
    |Strings(plans[..i])|
  }

  lemma {:induction false} NameAt(plans: seq<Plan>, i: nat)
    requires i < |plans|
    ensures NameOffset(plans, i) + |plans[i].name| <= |Strings(plans)|
    ensures Strings(plans)[NameOffset(plans, i)..NameOffset(plans, i) + |plans[i].name|] == plans[i].name
  {
    var n := |plans| - 1;
    var front, last := Strings(plans[..n]), plans[n].name;
    if i < n {
      NameAt(plans[..n], i);
      assert plans[..n][..i] == plans[..i];
      Joined(front, last, NameOffset(plans, i), NameOffset(plans, i) + |plans[i].name|);
    } else {
      Joined(front, last, 0, 0);
    }
  }

  /** Dimensions beyond the rank are zero. */
  function FourOf(dimensions: seq<nat>): (r: seq<nat>)
    requires |dimensions| <= 4
    ensures |r| == 4
  {
    seq(4, i requires 0 <= i < 4 => if i < |dimensions| then dimensions[i] else 0)
  }

  function EntryFor(p: Plan, nameOffset: nat, s: Span, crc: nat): (e: Entry)
    requires |p.dimensions| <= 4
    ensures |e.dimensions| == 4
  {
    Entry(nameOffset, |p.name|, p.dtype, p.quantization, |p.dimensions|, 0, p.alignment, FourOf(p.dimensions),
          s.dataOffset, s.dataBytes, s.auxOffset, s.auxBytes, crc)
  }

  function Entries(plans: seq<Plan>, spans: seq<Span>, crcs: seq<nat>): (r: seq<Entry>)
    requires |spans| == |plans| == |crcs| && forall i | 0 <= i < |plans| :: |plans[i].dimensions| <= 4
    ensures |r| == |plans| && FourDimensions(r)
  {
    seq(|plans|, i requires 0 <= i < |plans| => EntryFor(plans[i], NameOffset(plans, i), spans[i], crcs[i]))
  }

  /** A checksum as the number its field holds. */
  function Number(bits: seq<bool>): nat {
    if bits == [] then 0 else 2 * Number(bits[..|bits| - 1]) + if bits[|bits| - 1] then 1 else 0
  }

  function Crc(bytes: Bytes): nat {
    Number(Crc64.Checksum(bytes))
  }

  // ---- the file

  const VERSION: nat := 1
  const ENDIAN_TAG: nat := 0x0102_0304

  datatype Layout = Layout(stringsOffset: nat, manifestEnd: nat, dataOffset: nat, spans: seq<Span>, fileBytes: nat)

  /** The layout of a file, or None if an offset does not fit 64 bits. */
  function LayoutFor(plans: seq<Plan>): Option<Layout> {
    var stringsOffset := 256 + |plans| * 128;
    var manifestEnd := stringsOffset + |Strings(plans)|;
    var dataOffset := AlignUp(manifestEnd, FILE_ALIGNMENT);
    if dataOffset == 0 then None
    else
      match Places(plans, dataOffset)
      case None => None
      case Some(spans) => Some(Layout(stringsOffset, manifestEnd, dataOffset, spans, EndOf(spans, dataOffset)))
  }

  function HeaderFor(plans: seq<Plan>, l: Layout, crc: nat): Header
    requires l.manifestEnd >= l.stringsOffset && l.fileBytes >= l.dataOffset
  {
    Header(VERSION, 256, ENDIAN_TAG, 0, 256, |plans|, 128, l.stringsOffset, l.manifestEnd - l.stringsOffset,
           l.dataOffset, l.fileBytes - l.dataOffset, l.fileBytes, crc)
  }

  /** What a file holds from the end of one tensor's region to the end of the next. */
  function Region(s: Span, data: Bytes, auxiliary: Bytes): Bytes
    requires s.start <= s.dataOffset && (s.auxBytes != 0 ==> s.dataOffset + s.dataBytes <= s.auxOffset)
  {
    Zeros(s.dataOffset - s.start) + data
    + if s.auxBytes == 0 then [] else Zeros(s.auxOffset - (s.dataOffset + s.dataBytes)) + auxiliary
  }

  /** The payloads of a write, of the planned sizes. */
  ghost predicate Payloads(plans: seq<Plan>, datas: seq<Bytes>, auxes: seq<Bytes>) {
    && |datas| == |auxes| == |plans|
    && forall i | 0 <= i < |plans| :: |datas[i]| == plans[i].dataBytes && |auxes[i]| == plans[i].auxBytes
  }

  /** The first n regions. */
  function Body(plans: seq<Plan>, spans: seq<Span>, cursor: nat, datas: seq<Bytes>, auxes: seq<Bytes>,
                n: nat): (r: Bytes)
    requires Placed(plans, spans, cursor) && Payloads(plans, datas, auxes) && n <= |plans|
    ensures |r| == EndOf(spans[..n], cursor) - cursor
  {
    if n == 0 then []
    else
      assert PlacedAt(plans, spans, cursor, n - 1) && spans[..n][n - 1] == spans[n - 1];
      Body(plans, spans, cursor, datas, auxes, n - 1) + Region(spans[n - 1], datas[n - 1], auxes[n - 1])
  }

  function Crcs(datas: seq<Bytes>): (r: seq<nat>)
    ensures |r| == |datas|
  {
    seq(|datas|, i requires 0 <= i < |datas| => Crc(datas[i]))
  }

  lemma LayoutFits(plans: seq<Plan>)
    requires LayoutFor(plans).Some?
    ensures var l := LayoutFor(plans).value;
            && Placed(plans, l.spans, l.dataOffset) && l.stringsOffset <= l.manifestEnd <= l.dataOffset <= l.fileBytes
            && l.fileBytes == EndOf(l.spans, l.dataOffset)
  {
    var l := LayoutFor(plans).value;
    PlacesFit(plans, l.dataOffset);
    if plans != [] {
      SpanAbove(plans, l.spans, l.dataOffset, |plans| - 1);
    }
  }

  function Manifest(plans: seq<Plan>, l: Layout, crcs: seq<nat>): (r: Bytes)
    requires |l.spans| == |plans| == |crcs| && forall i | 0 <= i < |plans| :: |plans[i].dimensions| <= 4
    ensures |r| == |plans| * 128 + |Strings(plans)|
  {
    Directory(Entries(plans, l.spans, crcs)) + Strings(plans)
  }

  /** What precedes the payloads. */
  function Front(id: Identity, plans: seq<Plan>, l: Layout, crcs: seq<nat>): (r: Bytes)
    requires Accepted(id, plans) && |l.spans| == |plans| == |crcs|
    requires l.stringsOffset == 256 + |plans| * 128
             && l.manifestEnd == l.stringsOffset + |Strings(plans)| <= l.dataOffset <= l.fileBytes
    ensures |r| == l.dataOffset
  {
    var manifest := Manifest(plans, l, crcs);
    HeaderBytes(HeaderFor(plans, l, Crc(manifest)), id) + manifest + Zeros(l.dataOffset - l.manifestEnd)
  }

  /** The whole file. */
  function FileOf(id: Identity, plans: seq<Plan>, datas: seq<Bytes>, auxes: seq<Bytes>): (r: Bytes)
    requires Accepted(id, plans) && LayoutFor(plans).Some? && Payloads(plans, datas, auxes)
    ensures |r| == LayoutFor(plans).value.fileBytes
  {
    LayoutFits(plans);
    var l := LayoutFor(plans).value;
    assert l.spans[..|plans|] == l.spans;
    Front(id, plans, l, Crcs(datas)) + Body(plans, l.spans, l.dataOffset, datas, auxes, |plans|)
  }

  // ---- when the offsets fit

  /** What the tensors can take up at most, padding included. */
  function Room(plans: seq<Plan>): nat {
    if plans == [] then 0
    else
      var p := plans[|plans| - 1];
      Room(plans[..|plans| - 1]) + p.dataBytes + p.auxBytes + 2 * p.alignment
  }

  /** Everything fits 64 bits with room to spare. */
  predicate HasRoom(plans: seq<Plan>) {
    512 + |plans| * 128 + |Strings(plans)| + Room(plans) < U64
  }

  lemma PlacedWithRoom(cursor: nat, p: Plan)
    requires 0 < cursor && p.alignment > 0 && PowerOfTwo(p.alignment)
    requires cursor + p.dataBytes + p.auxBytes + 2 * p.alignment < U64
    ensures Place(cursor, p).Some?
    ensures cursor <= Place(cursor, p).value.end <= cursor + p.dataBytes + p.auxBytes + 2 * p.alignment
  {
  }

  lemma {:induction false} PlacesWithRoom(plans: seq<Plan>, cursor: nat)
    requires 0 < cursor && cursor + Room(plans) < U64
    requires forall i | 0 <= i < |plans| :: plans[i].alignment > 0 && PowerOfTwo(plans[i].alignment)
    ensures Places(plans, cursor).Some?
    ensures cursor <= EndOf(Places(plans, cursor).value, cursor) <= cursor + Room(plans)
  {
    if plans != [] {
      var n := |plans| - 1;
      PlacesWithRoom(plans[..n], cursor);
      PlacedWithRoom(EndOf(Places(plans[..n], cursor).value, cursor), plans[n]);
    }
  }

  /** A request whose payloads, with two alignments each, and names leave room in 64 bits has a
      layout. */
  lemma EnoughRoom(id: Identity, plans: seq<Plan>)
    requires Accepted(id, plans) && HasRoom(plans)
    ensures LayoutFor(plans).Some?
  {
    var end := 256 + |plans| * 128 + |Strings(plans)|;
    PlacesWithRoom(plans, AlignUp(end, FILE_ALIGNMENT));
  }
}
