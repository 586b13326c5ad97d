/** The one-shot writer: offsets are computed in 64-bit arithmetic, then header, manifest, padding
    and payloads are written one after the other. */
module ArtifactWriter {
  import opened ArtifactFormat
  import opened ArtifactLayout
  import opened Options

  lemma {:induction false} PlacesPrefix(plans: seq<Plan>, cursor: nat, k: nat)
    requires Places(plans, cursor).Some? && k <= |plans|
    ensures Places(plans[..k], cursor).Some? && k <= |Places(plans, cursor).value|
    ensures Places(plans[..k], cursor).value == Places(plans, cursor).value[..k]
  {
    PlacesFit(plans, cursor);
    var spans := Places(plans, cursor).value;
    if k == |plans| {
      assert plans[..k] == plans && spans[..k] == spans;
    } else {
      var n := |plans| - 1;
      PlacesPrefix(plans[..n], cursor, k);
      assert plans[..n][..k] == plans[..k] && spans[..n] == Places(plans[..n], cursor).value;
      assert spans[..n][..k] == spans[..k];
    }
  }

  /** Tensor k is placed behind the tensors before it. */
  lemma {:induction false} PlacedNext(plans: seq<Plan>, cursor: nat, k: nat)
    requires Places(plans, cursor).Some? && k < |plans|
    ensures k < |Places(plans, cursor).value|
    ensures var spans := Places(plans, cursor).value;
            Place(EndOf(spans[..k], cursor), plans[k]) == Some(spans[k])
  {
    PlacesPrefix(plans, cursor, k);
    PlacesPrefix(plans, cursor, k + 1);
    assert plans[..k + 1][..k] == plans[..k];
    var spans := Places(plans, cursor).value;
    assert spans[..k + 1][k] == spans[k] && spans[..k + 1][..k] == spans[..k];
  }

  /** Addition in 64 bits. */
  function Add64(a: nat, b: nat): (r: nat)
    ensures a + b < U64 ==> r == a + b
  {
    (a + b) % U64
  }

  /** Places one tensor as the writer does: the cursor may wrap. */
  method PlaceTensor(cursor: nat, p: Plan) returns (ok: bool, s: Span)
    ensures var checked := Place(cursor, p);
            checked.Some? ==> ok && s == checked.value
  {
    s := Span(cursor, 0, p.dataBytes, 0, p.auxBytes, 0);
    var at := AlignUp(cursor, p.alignment);
    if at == 0 { return false, s; }
    var end := Add64(at, p.dataBytes);
    s := Span(cursor, at, p.dataBytes, 0, p.auxBytes, end);
    if p.auxBytes != 0 {
      var auxAt := AlignUp(end, p.alignment);
      if auxAt == 0 { return false, s; }
      s := Span(cursor, at, p.dataBytes, auxAt, p.auxBytes, Add64(auxAt, p.auxBytes));
    }
    ok := true;
  }

  method PlaceTensors(plans: seq<Plan>, dataOffset: nat) returns (ok: bool, spans: seq<Span>)
    ensures Places(plans, dataOffset).Some? ==> ok && spans == Places(plans, dataOffset).value
    ensures |spans| <= |plans| && (ok ==> |spans| == |plans|)
  {
    spans := [];
    for k := 0 to |plans|
      invariant |spans| == k
      invariant Places(plans, dataOffset).Some? ==>
                  k <= |Places(plans, dataOffset).value| && spans == Places(plans, dataOffset).value[..k]
    {
      if Places(plans, dataOffset).Some? {
        PlacedNext(plans, dataOffset, k);
      }
      var s;
      ok, s := PlaceTensor(EndOf(spans, dataOffset), plans[k]);
      if !ok { return; }
      spans := spans + [s];
    }
    ok := true;
    if Places(plans, dataOffset).Some? {
      PlacesFit(plans, dataOffset);
    }
  }

  /** Padding up to an offset, in 64-bit arithmetic. */
  function Padding(from: nat, to: nat): (r: Bytes)
    ensures from <= to < U64 ==> r == Zeros(to - from)
  {
    Zeros((to - from) % U64)
  }

  ghost predicate Regular(cursor: nat, s: Span, data: Bytes) {
    && s.start == cursor <= s.dataOffset < U64 && |data| == s.dataBytes && s.auxOffset < U64
    && (s.auxBytes != 0 ==> s.dataOffset + s.dataBytes <= s.auxOffset)
  }

  /** Appends one tensor behind what is written. */
  method AppendTensor(file: Bytes, cursor: nat, s: Span, data: Bytes, auxiliary: Bytes) returns (r: Bytes)
    ensures Regular(cursor, s, data) ==> r == file + Region(s, data, auxiliary)
  {
    r := file + Padding(cursor, s.dataOffset) + data;
    if s.auxBytes != 0 {
      r := r + Padding(Add64(s.dataOffset, s.dataBytes), s.auxOffset) + auxiliary;
    }
  }

  method AppendTensors(plans: seq<Plan>, spans: seq<Span>, dataOffset: nat, datas: seq<Bytes>, auxes: seq<Bytes>,
                       file: Bytes)
    returns (r: Bytes)
    requires |spans| == |plans| && Payloads(plans, datas, auxes)
    ensures Placed(plans, spans, dataOffset) ==> r == file + Body(plans, spans, dataOffset, datas, auxes, |plans|)
  {
    r := file;
    for k := 0 to |plans|
      invariant Placed(plans, spans, dataOffset) ==> r == file + Body(plans, spans, dataOffset, datas, auxes, k)
    {
      if Placed(plans, spans, dataOffset) {
        SpanAbove(plans, spans, dataOffset, k);
      }
      r := AppendTensor(r, EndOf(spans[..k], dataOffset), spans[k], datas[k], auxes[k]);
    }
  }

  /** The layout, computed as the writer does. */
  method ComputeLayout(plans: seq<Plan>) returns (ok: bool, l: Layout)
    ensures LayoutFor(plans).Some? ==> ok && LayoutFor(plans) == Some(l)
    ensures ok ==> |l.spans| == |plans|
  {
    var stringsOffset, strings := 256 + |plans| * 128, Strings(plans);
    var manifestEnd := stringsOffset + |strings|;
    var dataOffset := AlignUp(manifestEnd, FILE_ALIGNMENT);
    l := Layout(stringsOffset, manifestEnd, dataOffset, [], dataOffset);
    if dataOffset == 0 { return false, l; }
    var spans;
    ok, spans := PlaceTensors(plans, dataOffset);
    l := Layout(stringsOffset, manifestEnd, dataOffset, spans, EndOf(spans, dataOffset));
  }

  /** Writes an artifact.  A write whose identity, names, dimensions, sizes or alignments are not
      accepted is refused; one whose offsets fit 64 bits is otherwise the file of its layout. */
  method Write(id: Identity, plans: seq<Plan>, datas: seq<Bytes>, auxes: seq<Bytes>) returns (r: FileOutcome<Bytes>)
    requires Payloads(plans, datas, auxes)
    ensures !Accepted(id, plans) ==> r.InvalidArgument?
    ensures Accepted(id, plans) && LayoutFor(plans).Some? ==>
              !r.InvalidArgument? && (r.Ok? ==> r.value == FileOf(id, plans, datas, auxes))
    ensures HasRoom(plans) ==> (r.InvalidArgument? <==> !Accepted(id, plans))
  {
    if !Accepted(id, plans) { return InvalidArgument; }
    if HasRoom(plans) {
      EnoughRoom(id, plans);
    }
    var placed, l := ComputeLayout(plans);
    if !placed { return InvalidArgument; }
    var written: bool := *;
    if !written { return IoError; }
    var file := WriteFile(id, plans, l, datas, auxes);
    r := Ok(file);
  }

  /** The file of a computed layout. */
  method WriteFile(id: Identity, plans: seq<Plan>, l: Layout, datas: seq<Bytes>, auxes: seq<Bytes>)
    returns (file: Bytes)
    requires Accepted(id, plans) && Payloads(plans, datas, auxes) && |l.spans| == |plans|
    ensures LayoutFor(plans) == Some(l) ==> file == FileOf(id, plans, datas, auxes)
  {
    if LayoutFor(plans) == Some(l) {
      LayoutFits(plans);
      EndsBelow(plans);
    }
    file := WriteFront(id, plans, l, Crcs(datas));
    file := AppendTensors(plans, l.spans, l.dataOffset, datas, auxes, file);
  }

  method WriteFront(id: Identity, plans: seq<Plan>, l: Layout, crcs: seq<nat>) returns (file: Bytes)
    requires Accepted(id, plans) && |l.spans| == |plans| == |crcs|
    ensures (&& l.stringsOffset == 256 + |plans| * 128 && l.manifestEnd == l.stringsOffset + |Strings(plans)|
             && l.manifestEnd <= l.dataOffset <= l.fileBytes < U64)
            ==> file == Front(id, plans, l, crcs)
  {
    var manifest := Manifest(plans, l, crcs);
    var header := WriteHeader(plans, l, Crc(manifest));
    file := HeaderBytes(header, id) + manifest + Padding(l.manifestEnd, l.dataOffset);
  }

  method WriteHeader(plans: seq<Plan>, l: Layout, crc: nat) returns (h: Header)
    ensures l.stringsOffset <= l.manifestEnd <= l.dataOffset <= l.fileBytes < U64
            && l.manifestEnd == l.stringsOffset + |Strings(plans)|
            ==> h == HeaderFor(plans, l, crc)
  {
    h := Header(VERSION, 256, ENDIAN_TAG, 0, 256, |plans|, 128, l.stringsOffset, |Strings(plans)|, l.dataOffset,
                Sub64(l.fileBytes, l.dataOffset), l.fileBytes, crc);
  }

  function Sub64(a: nat, b: nat): (r: nat)
    ensures b <= a < U64 ==> r == a - b
  {
    (a - b) % U64
  }

  lemma EndsBelow(plans: seq<Plan>)
    requires LayoutFor(plans).Some?
    ensures LayoutFor(plans).value.fileBytes < U64
  {
    var l := LayoutFor(plans).value;
    PlacesFit(plans, l.dataOffset);
    if plans != [] {
      assert PlacedAt(plans, l.spans, l.dataOffset, |plans| - 1);
    }
  }
}
