/** ArtifactStreamWriter: whatever the order of the tensors and however their payloads are cut into
    chunks, the finalized file is the one the one-shot writer makes of the same payloads. */
module ArtifactStreamWriter {
  import opened ArtifactFormat
  import opened ArtifactLayout
  import opened ArtifactStream
  import opened Options
  import DeviceMemory
  import Crc64
  import Seals

  datatype TensorState = TensorState(dataWritten: nat, auxWritten: nat, crc: Crc64.Register)

  /** What create accepts. */
  ghost predicate Creatable(id: Identity, plans: seq<Plan>) {
    Accepted(id, plans) && LayoutFor(plans).Some? && LayoutFor(plans).value.fileBytes <= OFF_MAX
  }

  // ---- the state

  /** The register holds the checksum of the data, behind a seal. */
  ghost predicate IsCrc(crc: Crc64.Register, data: Bytes) {
    forall seal {:trigger Seals.Opened(seal)} | Seals.Opened(seal) && seal == Seals.Checksum ::
        crc == Crc64.Checksum(data)
  }

  ghost predicate CountedAt(p: Plan, state: TensorState, data: Bytes, auxiliary: Bytes) {
    && state.dataWritten == |data| && state.auxWritten == |auxiliary| && IsCrc(state.crc, data)
    && |data| <= p.dataBytes && |auxiliary| <= p.auxBytes
  }

  ghost predicate Counted(plans: seq<Plan>, states: seq<TensorState>, datas: seq<Bytes>, auxes: seq<Bytes>) {
    && |states| == |datas| == |auxes| == |plans|
    && forall i | 0 <= i < |plans| :: CountedAt(plans[i], states[i], datas[i], auxes[i])
  }

  ghost predicate DescribedAt(plans: seq<Plan>, spans: seq<Span>, i: nat, e: Entry)
    requires i < |plans| == |spans|
  {
    |plans[i].dimensions| <= 4 && e == EntryFor(plans[i], NameOffset(plans, i), spans[i], e.dataCrc)
  }

  ghost predicate Described(plans: seq<Plan>, spans: seq<Span>, entries: seq<Entry>) {
    && |entries| == |spans| == |plans|
    && forall i | 0 <= i < |plans| :: DescribedAt(plans, spans, i, entries[i])
  }

  /** Everything behind the manifest: padding is zero and the regions hold what was appended. */
  ghost predicate Filled(l: Layout, file: Bytes, datas: seq<Bytes>, auxes: seq<Bytes>) {
    && |file| == l.fileBytes && l.manifestEnd <= l.dataOffset <= l.fileBytes
    && file[l.manifestEnd..l.dataOffset] == Zeros(l.dataOffset - l.manifestEnd)
    && RegionsHold(file, l.spans, datas, auxes)
  }

  /** What the regions need of a layout. */
  ghost predicate Laid(plans: seq<Plan>, l: Layout) {
    && Placed(plans, l.spans, l.dataOffset) && l.fileBytes == EndOf(l.spans, l.dataOffset)
    && l.manifestEnd <= l.dataOffset <= l.fileBytes
  }

  /** A write into the header or the manifest. */
  lemma FrontWritten(plans: seq<Plan>, l: Layout, file: Bytes, datas: seq<Bytes>, auxes: seq<Bytes>, at: nat, xs: Bytes)
    requires Laid(plans, l) && Filled(l, file, datas, auxes) && at + |xs| <= l.manifestEnd
    ensures Filled(l, DeviceMemory.Overwrite(file, at, xs), datas, auxes)
  {
    WriteBelow(plans, l.spans, l.dataOffset, file, at, xs, datas, auxes);
    WriteElsewhere(file, at, xs, l.manifestEnd, l.dataOffset);
  }

  /** A chunk appended to the data of tensor i: all of it was written and counts, or it does not count. */
  lemma DataAppended(plans: seq<Plan>, l: Layout, file: Bytes, datas: seq<Bytes>, auxes: seq<Bytes>, i: nat, at: nat,
                     xs: Bytes, after: Bytes, datas2: seq<Bytes>)
    requires Laid(plans, l) && Filled(l, file, datas, auxes) && i < |l.spans|
             && |datas[i]| + |xs| <= l.spans[i].dataBytes
    requires at == l.spans[i].dataOffset + |datas[i]| && at + |xs| <= |file|
             && after == DeviceMemory.Overwrite(file, at, xs)
    requires SameBut(datas, datas2, i) && (datas2[i] == datas[i] + xs || datas2[i] == datas[i])
    ensures Filled(l, after, datas2, auxes)
  {
    AppendsData(plans, l.spans, l.dataOffset, file, i, at, xs, after, datas, auxes, datas2);
    DataAbove(plans, l.spans, l.dataOffset, i);
    FilledAfter(l, file, datas, auxes, at, xs, after, datas2, auxes);
  }

  /** A write behind the padding leaves the padding as it was. */
  lemma FilledAfter(l: Layout, file: Bytes, datas: seq<Bytes>, auxes: seq<Bytes>, at: nat, xs: Bytes, after: Bytes,
                    datas2: seq<Bytes>, auxes2: seq<Bytes>)
    requires Filled(l, file, datas, auxes) && l.dataOffset <= at && at + |xs| <= |file|
    requires after == DeviceMemory.Overwrite(file, at, xs) && RegionsHold(after, l.spans, datas2, auxes2)
    ensures Filled(l, after, datas2, auxes2)
  {
    WriteElsewhere(file, at, xs, l.manifestEnd, l.dataOffset);
  }

  lemma DataAbove(plans: seq<Plan>, spans: seq<Span>, cursor: nat, i: nat)
    requires Placed(plans, spans, cursor) && i < |spans|
    ensures cursor <= spans[i].dataOffset
  {
    SpanAbove(plans, spans, cursor, i);
  }

  lemma AuxiliaryAbove(plans: seq<Plan>, spans: seq<Span>, cursor: nat, i: nat)
    requires Placed(plans, spans, cursor) && i < |spans|
    ensures spans[i].auxBytes != 0 ==> cursor <= spans[i].auxOffset
  {
    SpanAbove(plans, spans, cursor, i);
  }

  lemma AuxiliaryAppended(plans: seq<Plan>, l: Layout, file: Bytes, datas: seq<Bytes>, auxes: seq<Bytes>, i: nat,
                          at: nat, xs: Bytes, after: Bytes, auxes2: seq<Bytes>)
    requires Laid(plans, l) && Filled(l, file, datas, auxes) && i < |l.spans|
             && |auxes[i]| + |xs| <= l.spans[i].auxBytes
    requires at == l.spans[i].auxOffset + |auxes[i]| && at + |xs| <= |file|
             && after == DeviceMemory.Overwrite(file, at, xs)
    requires SameBut(auxes, auxes2, i) && (auxes2[i] == auxes[i] + xs || auxes2[i] == auxes[i])
    ensures Filled(l, after, datas, auxes2)
  {
    if l.spans[i].auxBytes == 0 {
      NothingWritten(l, file, datas, auxes, at, xs);
      assert auxes2 == auxes;
    } else {
      AppendsAuxiliary(plans, l.spans, l.dataOffset, file, i, at, xs, after, datas, auxes, auxes2);
      AuxiliaryAbove(plans, l.spans, l.dataOffset, i);
      FilledAfter(l, file, datas, auxes, at, xs, after, datas, auxes2);
    }
  }

  lemma NothingWritten(l: Layout, file: Bytes, datas: seq<Bytes>, auxes: seq<Bytes>, at: nat, xs: Bytes)
    requires Filled(l, file, datas, auxes) && xs == [] && at <= |file|
    ensures Filled(l, DeviceMemory.Overwrite(file, at, xs), datas, auxes)
  {
    assert DeviceMemory.Overwrite(file, at, xs) == file;
  }

  /** A complete stream behind a front is the whole file. */
  lemma FileCompleted(id: Identity, plans: seq<Plan>, l: Layout, file: Bytes, datas: seq<Bytes>, auxes: seq<Bytes>,
                      front: Bytes)
    requires Accepted(id, plans) && LayoutFor(plans) == Some(l) && Payloads(plans, datas, auxes)
    requires IsFront(id, plans, l, datas, front)
    requires Laid(plans, l) && Filled(l, file, datas, auxes) && file[..l.dataOffset] == front
    ensures Finished(id, plans, datas, auxes, file)
  {
    BodyCompleted(plans, l, file, datas, auxes);
    SliceJoin(file, 0, l.dataOffset, |file|, front, Body(plans, l.spans, l.dataOffset, datas, auxes, |plans|));
  }

  ghost predicate IsFront(id: Identity, plans: seq<Plan>, l: Layout, datas: seq<Bytes>, front: Bytes)
    requires Accepted(id, plans)
  {
    && |l.spans| == |plans| == |datas|
    && l.stringsOffset == 256 + |plans| * 128
       && l.manifestEnd == l.stringsOffset + |Strings(plans)| <= l.dataOffset <= l.fileBytes
    && front == Front(id, plans, l, Crcs(datas))
  }

  lemma {:induction false} BodyCompleted(plans: seq<Plan>, l: Layout, file: Bytes, datas: seq<Bytes>, auxes: seq<Bytes>)
    requires Laid(plans, l) && Filled(l, file, datas, auxes) && Payloads(plans, datas, auxes)
    ensures file[l.dataOffset..|file|] == Body(plans, l.spans, l.dataOffset, datas, auxes, |plans|)
  {
    RegionsMakeBody(plans, l.spans, l.dataOffset, file, datas, auxes, |plans|);
    assert l.spans[..|plans|] == l.spans;
  }

  /** The invariant on the file and the counters. */
  ghost predicate Consistent(plans: seq<Plan>, l: Layout, file: Bytes, entries: seq<Entry>, states: seq<TensorState>,
                             datas: seq<Bytes>, auxes: seq<Bytes>) {
    && |entries| == |states| == |datas| == |auxes| == |plans|
    && Laid(plans, l) && Described(plans, l.spans, entries) && Counted(plans, states, datas, auxes)
       && Filled(l, file, datas, auxes)
  }

  /** The same, behind a seal. */
  ghost predicate Sound(plans: seq<Plan>, l: Layout, file: Bytes, entries: seq<Entry>, states: seq<TensorState>,
                        datas: seq<Bytes>, auxes: seq<Bytes>) {
    && |entries| == |states| == |datas| == |auxes| == |plans|
    && forall seal {:trigger Seals.Opened(seal)} | Seals.Opened(seal) && seal == Seals.Stream ::
         Consistent(plans, l, file, entries, states, datas, auxes)
  }

  lemma Unsealed(plans: seq<Plan>, l: Layout, file: Bytes, entries: seq<Entry>, states: seq<TensorState>,
                 datas: seq<Bytes>, auxes: seq<Bytes>)
    requires Sound(plans, l, file, entries, states, datas, auxes)
    ensures Consistent(plans, l, file, entries, states, datas, auxes)
  {
    assert Seals.Opened(Seals.Stream);
  }

  /** What the counters of tensor i say, and where its payloads end. */
  lemma ConsistentAt(plans: seq<Plan>, l: Layout, file: Bytes, entries: seq<Entry>, states: seq<TensorState>,
                     datas: seq<Bytes>, auxes: seq<Bytes>, i: nat)
    requires Consistent(plans, l, file, entries, states, datas, auxes) && i < |plans|
    ensures CountedAt(plans[i], states[i], datas[i], auxes[i])
    ensures |l.spans| == |plans| && plans[i].dataBytes == entries[i].dataBytes == l.spans[i].dataBytes
            && plans[i].auxBytes == entries[i].auxBytes == l.spans[i].auxBytes
    ensures entries[i].dataOffset == l.spans[i].dataOffset && entries[i].auxOffset == l.spans[i].auxOffset
    ensures entries[i].dataOffset + plans[i].dataBytes <= |file| && entries[i].auxOffset + plans[i].auxBytes <= |file|
  {
    assert CountedAt(plans[i], states[i], datas[i], auxes[i]) && DescribedAt(plans, l.spans, i, entries[i]);
    SpanWithin(plans, l.spans, l.dataOffset, i);
  }

  lemma SoundAt(plans: seq<Plan>, l: Layout, file: Bytes, entries: seq<Entry>, states: seq<TensorState>,
                datas: seq<Bytes>, auxes: seq<Bytes>, i: nat)
    requires Sound(plans, l, file, entries, states, datas, auxes) && i < |plans|
    ensures states[i].dataWritten == |datas[i]| && states[i].auxWritten == |auxes[i]| && IsCrc(states[i].crc, datas[i])
    ensures |datas[i]| <= plans[i].dataBytes == entries[i].dataBytes
            && |auxes[i]| <= plans[i].auxBytes == entries[i].auxBytes
    ensures entries[i].dataOffset + plans[i].dataBytes <= |file| && entries[i].auxOffset + plans[i].auxBytes <= |file|
  {
    Unsealed(plans, l, file, entries, states, datas, auxes);
    ConsistentAt(plans, l, file, entries, states, datas, auxes, i);
  }

  /** A chunk written behind the data of tensor i, wholly or in part, but not counted. */
  lemma DataLeft(plans: seq<Plan>, l: Layout, file: Bytes, entries: seq<Entry>, states: seq<TensorState>,
                 datas: seq<Bytes>, auxes: seq<Bytes>, i: nat, at: nat, xs: Bytes, after: Bytes)
    requires Sound(plans, l, file, entries, states, datas, auxes) && i < |plans|
             && |datas[i]| + |xs| <= plans[i].dataBytes
    requires at == entries[i].dataOffset + |datas[i]| && at + |xs| <= |file|
             && after == DeviceMemory.Overwrite(file, at, xs)
    ensures Sound(plans, l, after, entries, states, datas, auxes)
  {
    Unsealed(plans, l, file, entries, states, datas, auxes);
    ConsistentAt(plans, l, file, entries, states, datas, auxes, i);
    DataAppended(plans, l, file, datas, auxes, i, at, xs, after, datas);
  }

  /** A chunk written behind the auxiliary payload of tensor i, wholly or in part, but not counted. */
  lemma AuxiliaryLeft(plans: seq<Plan>, l: Layout, file: Bytes, entries: seq<Entry>, states: seq<TensorState>,
                      datas: seq<Bytes>, auxes: seq<Bytes>, i: nat, at: nat, xs: Bytes, after: Bytes)
    requires Sound(plans, l, file, entries, states, datas, auxes) && i < |plans|
             && |auxes[i]| + |xs| <= plans[i].auxBytes
    requires at == entries[i].auxOffset + |auxes[i]| && at + |xs| <= |file|
             && after == DeviceMemory.Overwrite(file, at, xs)
    ensures Sound(plans, l, after, entries, states, datas, auxes)
  {
    Unsealed(plans, l, file, entries, states, datas, auxes);
    ConsistentAt(plans, l, file, entries, states, datas, auxes, i);
    AuxiliaryAppended(plans, l, file, datas, auxes, i, at, xs, after, auxes);
  }

  lemma DataCounted(plans: seq<Plan>, l: Layout, file: Bytes, entries: seq<Entry>, states: seq<TensorState>,
                    datas: seq<Bytes>, auxes: seq<Bytes>, i: nat, at: nat, xs: Bytes, after: Bytes, crc: Crc64.Register,
                    states2: seq<TensorState>, datas2: seq<Bytes>)
    requires Sound(plans, l, file, entries, states, datas, auxes) && i < |plans|
             && |datas[i]| + |xs| <= plans[i].dataBytes
    requires at == entries[i].dataOffset + |datas[i]| && at + |xs| <= |file|
             && after == DeviceMemory.Overwrite(file, at, xs)
    requires IsCrc(crc, datas[i] + xs)
    requires states2 == states[i := TensorState(|datas[i]| + |xs|, |auxes[i]|, crc)]
             && datas2 == datas[i := datas[i] + xs]
    ensures Sound(plans, l, after, entries, states2, datas2, auxes)
  {
    Unsealed(plans, l, file, entries, states, datas, auxes);
    ConsistentAt(plans, l, file, entries, states, datas, auxes, i);
    DataAppended(plans, l, file, datas, auxes, i, at, xs, after, datas2);
    CountedUpdate(plans, states, datas, auxes, i, states2, datas2, auxes);
  }

  lemma AuxiliaryCounted(plans: seq<Plan>, l: Layout, file: Bytes, entries: seq<Entry>, states: seq<TensorState>,
                         datas: seq<Bytes>, auxes: seq<Bytes>, i: nat, at: nat, xs: Bytes, after: Bytes,
                         states2: seq<TensorState>, auxes2: seq<Bytes>)
    requires Sound(plans, l, file, entries, states, datas, auxes) && i < |plans|
             && |auxes[i]| + |xs| <= plans[i].auxBytes
    requires at == entries[i].auxOffset + |auxes[i]| && at + |xs| <= |file|
             && after == DeviceMemory.Overwrite(file, at, xs)
    requires states2 == states[i := states[i].(auxWritten := |auxes[i]| + |xs|)] && auxes2 == auxes[i := auxes[i] + xs]
    ensures Sound(plans, l, after, entries, states2, datas, auxes2)
  {
    Unsealed(plans, l, file, entries, states, datas, auxes);
    ConsistentAt(plans, l, file, entries, states, datas, auxes, i);
    AuxiliaryAppended(plans, l, file, datas, auxes, i, at, xs, after, auxes2);
    CountedUpdate(plans, states, datas, auxes, i, states2, datas, auxes2);
  }

  /** A write into the header or the manifest. */
  lemma FrontLeft(plans: seq<Plan>, l: Layout, file: Bytes, entries: seq<Entry>, states: seq<TensorState>,
                  datas: seq<Bytes>, auxes: seq<Bytes>, at: nat, xs: Bytes, after: Bytes)
    requires Sound(plans, l, file, entries, states, datas, auxes) && at + |xs| <= l.manifestEnd
    requires at + |xs| <= |file| && after == DeviceMemory.Overwrite(file, at, xs)
    ensures Sound(plans, l, after, entries, states, datas, auxes)
  {
    Unsealed(plans, l, file, entries, states, datas, auxes);
    FrontWritten(plans, l, file, datas, auxes, at, xs);
  }

  /** Recording a checksum in an entry. */
  lemma CrcRecorded(plans: seq<Plan>, l: Layout, file: Bytes, entries: seq<Entry>, states: seq<TensorState>,
                    datas: seq<Bytes>, auxes: seq<Bytes>, i: nat, crc: nat, entries2: seq<Entry>)
    requires Sound(plans, l, file, entries, states, datas, auxes) && i < |plans|
             && entries2 == entries[i := entries[i].(dataCrc := crc)]
    ensures Sound(plans, l, file, entries2, states, datas, auxes)
  {
    Unsealed(plans, l, file, entries, states, datas, auxes);
    forall j | 0 <= j < |plans|
      ensures DescribedAt(plans, l.spans, j, entries2[j])
    {
      assert DescribedAt(plans, l.spans, j, entries[j]);
    }
  }

  /** The counters tell a complete stream. */
  ghost predicate CompleteAt(p: Plan, data: Bytes, auxiliary: Bytes) {
    |data| == p.dataBytes && |auxiliary| == p.auxBytes
  }

  /** With every checksum recorded, the entries are those of the file. */
  lemma EntriesFinal(plans: seq<Plan>, l: Layout, file: Bytes, entries: seq<Entry>, states: seq<TensorState>,
                     datas: seq<Bytes>, auxes: seq<Bytes>)
    requires Sound(plans, l, file, entries, states, datas, auxes) && Recorded(plans, entries, datas, auxes, |plans|)
    ensures |l.spans| == |plans| && forall i | 0 <= i < |plans| :: |plans[i].dimensions| <= 4
    ensures entries == Entries(plans, l.spans, Crcs(datas)) && Payloads(plans, datas, auxes)
  {
    Unsealed(plans, l, file, entries, states, datas, auxes);
    forall i | 0 <= i < |plans|
      ensures |plans[i].dimensions| <= 4
              && entries[i] == EntryFor(plans[i], NameOffset(plans, i), l.spans[i], Crc(datas[i]))
      ensures |datas[i]| == plans[i].dataBytes && |auxes[i]| == plans[i].auxBytes
    {
      assert DescribedAt(plans, l.spans, i, entries[i]) && RecordedAt(plans[i], entries[i], datas[i], auxes[i]);
    }
  }

  ghost predicate RecordedAt(p: Plan, e: Entry, data: Bytes, auxiliary: Bytes) {
    CompleteAt(p, data, auxiliary) && e.dataCrc == Crc(data)
  }

  /** The first n tensors are complete and their checksums recorded. */
  ghost predicate Recorded(plans: seq<Plan>, entries: seq<Entry>, datas: seq<Bytes>, auxes: seq<Bytes>, n: nat) {
    && |entries| == |datas| == |auxes| == |plans| && n <= |plans|
    && forall i | 0 <= i < n :: RecordedAt(plans[i], entries[i], datas[i], auxes[i])
  }

  lemma RecordedNext(plans: seq<Plan>, entries: seq<Entry>, datas: seq<Bytes>, auxes: seq<Bytes>, n: nat,
                     entries2: seq<Entry>, crc: nat)
    requires Recorded(plans, entries, datas, auxes, n) && n < |plans| && CompleteAt(plans[n], datas[n], auxes[n])
             && crc == Crc(datas[n])
    requires entries2 == entries[n := entries[n].(dataCrc := crc)]
    ensures Recorded(plans, entries2, datas, auxes, n + 1)
  {
    forall i | 0 <= i < n + 1
      ensures RecordedAt(plans[i], entries2[i], datas[i], auxes[i])
    {
      if i < n {
        assert RecordedAt(plans[i], entries[i], datas[i], auxes[i]);
      }
    }
  }

  lemma Incomplete(plans: seq<Plan>, datas: seq<Bytes>, auxes: seq<Bytes>, i: nat)
    requires Payloads(plans, datas, auxes) && i < |plans|
    ensures CompleteAt(plans[i], datas[i], auxes[i])
  {
  }

  /** Header and manifest written over a file whose padding is zero. */
  lemma FrontMade(file: Bytes, header: Bytes, manifest: Bytes, dataOffset: nat, first: Bytes, after: Bytes)
    requires |header| == 256 && 256 + |manifest| <= dataOffset <= |file|
    requires file[256 + |manifest|..dataOffset] == Zeros(dataOffset - (256 + |manifest|))
    requires first == DeviceMemory.Overwrite(file, 0, header) && after == DeviceMemory.Overwrite(first, 256, manifest)
    ensures after[..dataOffset] == header + manifest + Zeros(dataOffset - (256 + |manifest|))
  {
    var m := 256 + |manifest|;
    assert after[..m] == header + manifest;
    assert after[m..dataOffset] == first[m..dataOffset] == file[m..dataOffset];
    assert after[..dataOffset] == after[..m] + after[m..dataOffset];
  }

  /** Header and manifest of a complete stream make the front of its file. */
  lemma {:induction false} FrontOfStream(id: Identity, plans: seq<Plan>, l: Layout, entries: seq<Entry>,
                                         datas: seq<Bytes>, header: Bytes, manifest: Bytes)
    requires Accepted(id, plans) && |l.spans| == |plans| == |datas| && FourDimensions(entries)
    requires entries == Entries(plans, l.spans, Crcs(datas)) && manifest == Directory(entries) + Strings(plans)
    requires l.stringsOffset == 256 + |plans| * 128
             && 256 + |manifest| == l.manifestEnd == l.stringsOffset + |Strings(plans)|
    requires l.manifestEnd <= l.dataOffset <= l.fileBytes
             && header == HeaderBytes(HeaderFor(plans, l, Crc(manifest)), id)
    ensures IsFront(id, plans, l, datas, header + manifest + Zeros(l.dataOffset - l.manifestEnd))
  {
  }

  lemma FrontInPlace(plans: seq<Plan>, l: Layout, file: Bytes, entries: seq<Entry>, states: seq<TensorState>,
                     datas: seq<Bytes>, auxes: seq<Bytes>, header: Bytes, manifest: Bytes, first: Bytes, after: Bytes)
    requires Sound(plans, l, file, entries, states, datas, auxes) && |header| == 256
             && 256 + |manifest| == l.manifestEnd <= |file|
    requires first == DeviceMemory.Overwrite(file, 0, header) && after == DeviceMemory.Overwrite(first, 256, manifest)
    ensures l.manifestEnd <= l.dataOffset <= |after|
    ensures after[..l.dataOffset] == header + manifest + Zeros(l.dataOffset - l.manifestEnd)
  {
    Unsealed(plans, l, file, entries, states, datas, auxes);
    FrontMade(file, header, manifest, l.dataOffset, first, after);
  }

  /** The file after header and manifest were written over a complete stream. */
  lemma {:induction false} StreamFinished(id: Identity, plans: seq<Plan>, l: Layout, file: Bytes, entries: seq<Entry>,
                                          states: seq<TensorState>, datas: seq<Bytes>, auxes: seq<Bytes>, header: Bytes,
                                          manifest: Bytes)
    requires Planned(id, plans, l) && Sound(plans, l, file, entries, states, datas, auxes)
             && Recorded(plans, entries, datas, auxes, |plans|)
    requires id.Valid() && FourDimensions(entries) && l.stringsOffset == 256 + |plans| * 128
    requires l.manifestEnd == l.stringsOffset + |Strings(plans)| <= l.dataOffset <= l.fileBytes == |file|
    requires manifest == Directory(entries) + Strings(plans)
    requires header == HeaderBytes(HeaderFor(plans, l, Crc(manifest)), id)
    requires file[..l.dataOffset] == header + manifest + Zeros(l.dataOffset - l.manifestEnd)
    ensures Finished(id, plans, datas, auxes, file)
  {
    EntriesFinal(plans, l, file, entries, states, datas, auxes);
    Unsealed(plans, l, file, entries, states, datas, auxes);
    FinishedBy(id, plans, l, file, entries, datas, auxes, header, manifest);
  }

  /** The header and the manifest of a plan and its completed entries; behind a seal. */
  ghost predicate FrontOf(id: Identity, plans: seq<Plan>, l: Layout, entries: seq<Entry>, header: Bytes,
                          manifest: Bytes)
    requires id.Valid() && FourDimensions(entries) && l.stringsOffset <= l.manifestEnd && l.dataOffset <= l.fileBytes
  {
    forall seal {:trigger Seals.Opened(seal)} | Seals.Opened(seal) && seal == Seals.File ::
      && manifest == Directory(entries) + Strings(plans)
      && header == HeaderBytes(HeaderFor(plans, l, Crc(manifest)), id)
  }

  lemma {:induction false} StreamInstalled(id: Identity, plans: seq<Plan>, l: Layout, file: Bytes, entries: seq<Entry>,
                                           states: seq<TensorState>, datas: seq<Bytes>, auxes: seq<Bytes>,
                                           header: Bytes, manifest: Bytes, first: Bytes, after: Bytes)
    requires Planned(id, plans, l) && Sound(plans, l, file, entries, states, datas, auxes)
    requires Sound(plans, l, after, entries, states, datas, auxes) && Recorded(plans, entries, datas, auxes, |plans|)
    requires id.Valid() && FourDimensions(entries) && l.stringsOffset == 256 + |plans| * 128
    requires l.manifestEnd == l.stringsOffset + |Strings(plans)| <= l.dataOffset <= l.fileBytes == |file|
    requires FrontOf(id, plans, l, entries, header, manifest) && |header| == 256 && 256 + |manifest| <= |file|
    requires first == DeviceMemory.Overwrite(file, 0, header) && after == DeviceMemory.Overwrite(first, 256, manifest)
    ensures Finished(id, plans, datas, auxes, after)
  {
    assert Seals.Opened(Seals.File);
    FrontInPlace(plans, l, file, entries, states, datas, auxes, header, manifest, first, after);
    StreamFinished(id, plans, l, after, entries, states, datas, auxes, header, manifest);
  }

  lemma {:induction false} FinishedBy(id: Identity, plans: seq<Plan>, l: Layout, file: Bytes, entries: seq<Entry>,
                                      datas: seq<Bytes>, auxes: seq<Bytes>, header: Bytes, manifest: Bytes)
    requires Planned(id, plans, l) && Laid(plans, l) && Filled(l, file, datas, auxes) && Payloads(plans, datas, auxes)
    requires |l.spans| == |plans| && (forall i | 0 <= i < |plans| :: |plans[i].dimensions| <= 4)
    requires id.Valid() && FourDimensions(entries) && entries == Entries(plans, l.spans, Crcs(datas))
    requires l.stringsOffset == 256 + |plans| * 128 && l.manifestEnd == l.stringsOffset + |Strings(plans)|
    requires manifest == Directory(entries) + Strings(plans)
             && header == HeaderBytes(HeaderFor(plans, l, Crc(manifest)), id)
    requires file[..l.dataOffset] == header + manifest + Zeros(l.dataOffset - l.manifestEnd)
    ensures Finished(id, plans, datas, auxes, file)
  {
    assert Seals.Opened(Seals.Plan);
    FrontOfStream(id, plans, l, entries, datas, header, manifest);
    FileCompleted(id, plans, l, file, datas, auxes, header + manifest + Zeros(l.dataOffset - l.manifestEnd));
  }

  lemma CountedUpdate(plans: seq<Plan>, states: seq<TensorState>, datas: seq<Bytes>, auxes: seq<Bytes>, i: nat,
                      states2: seq<TensorState>, datas2: seq<Bytes>, auxes2: seq<Bytes>)
    requires Counted(plans, states, datas, auxes) && i < |plans| && |states2| == |states| && SameBut(datas, datas2, i)
             && SameBut(auxes, auxes2, i)
    requires CountedAt(plans[i], states2[i], datas2[i], auxes2[i])
    requires forall j | 0 <= j < |plans| && j != i :: states2[j] == states[j]
    ensures Counted(plans, states2, datas2, auxes2)
  {
    forall j | 0 <= j < |plans|
      ensures CountedAt(plans[j], states2[j], datas2[j], auxes2[j])
    {
      if j != i {
        assert CountedAt(plans[j], states[j], datas[j], auxes[j]);
      }
    }
  }

  ghost predicate Planned(id: Identity, plans: seq<Plan>, l: Layout) {
    forall seal {:trigger Seals.Opened(seal)} | Seals.Opened(seal) && seal == Seals.Plan ::
        Creatable(id, plans) && LayoutFor(plans) == Some(l)
  }

  /** The file is the one the one-shot writer makes of the payloads. */
  ghost predicate Finished(id: Identity, plans: seq<Plan>, datas: seq<Bytes>, auxes: seq<Bytes>, file: Bytes) {
    forall seal {:trigger Seals.Opened(seal)} | Seals.Opened(seal) && seal == Seals.File ::
      && Accepted(id, plans) && LayoutFor(plans).Some? && Payloads(plans, datas, auxes)
      && file == FileOf(id, plans, datas, auxes)
  }

  class StreamWriter {
    const id: Identity
    const plans: seq<Plan>
    const l: Layout
    var file: Bytes
    var entries: seq<Entry>
    var states: seq<TensorState>
    var finalized: bool
    /** What has been appended to each tensor. */
    ghost var datas: seq<Bytes>
    ghost var auxes: seq<Bytes>

    ghost predicate Valid()
      reads this
    {
      && Planned(id, plans, l)
      && Sound(plans, l, file, entries, states, datas, auxes)
      && (finalized ==> Finished(id, plans, datas, auxes, file))
    }

    /** Writes a block in pieces; a failure may leave the first pieces written. */
    method PwriteAll(source: Bytes, offset: nat) returns (ok: bool, written: nat)
      requires offset + |source| <= |file|
      modifies this`file
      ensures written <= |source| && (ok ==> written == |source|)
      ensures file == DeviceMemory.Overwrite(old(file), offset, source[..written])
    {
      written := 0;
      while written < |source|
        invariant written <= |source|
        invariant file == DeviceMemory.Overwrite(old(file), offset, source[..written])
      {
        var n: nat := *;
        if !(1 <= n <= |source| - written) { return false, written; }
        file := DeviceMemory.Overwrite(file, offset + written, source[written..written + n]);
        written := written + n;
      }
      ok := true;
    }

    /** The state right after the file was sized. */
    constructor (id: Identity, plans: seq<Plan>, l: Layout)
      requires Creatable(id, plans) && LayoutFor(plans) == Some(l) && |l.spans| == |plans|
      ensures Valid() && !finalized && this.id == id && this.plans == plans && this.l == l
      ensures datas == auxes == seq(|plans|, _ => [])
    {
      this.id, this.plans, this.l := id, plans, l;
      file := Zeros(l.fileBytes);
      entries := Entries(plans, l.spans, seq(|plans|, _ => 0));
      states := seq(|plans|, _ => TensorState(0, 0, Crc64.Zero()));
      finalized := false;
      datas, auxes := seq(|plans|, _ => []), seq(|plans|, _ => []);
      new;
      LayoutFits(plans);
      EmptyFilled(plans, l);
    }

    /** Header, directory and names, with checksums still zero. */
    method WriteFirst() returns (ok: bool)
      requires Valid() && !finalized
      modifies this`file
      ensures Valid()
    {
      FrontFits(id, plans, l, file, entries, states, datas, auxes);
      var header := HeaderBytes(HeaderFor(plans, l, 0), id);
      var written;
      ghost var before := file;
      ok, written := PwriteAll(header, 0);
      FrontLeft(plans, l, before, entries, states, datas, auxes, 0, header[..written], file);
      if !ok { return; }
      before := file;
      var directory := Directory(entries);
      ok, written := PwriteAll(directory, 256);
      FrontLeft(plans, l, before, entries, states, datas, auxes, 256, directory[..written], file);
      if !ok { return; }
      before := file;
      var strings := Strings(plans);
      ok, written := PwriteAll(strings, l.stringsOffset);
      FrontLeft(plans, l, before, entries, states, datas, auxes, l.stringsOffset, strings[..written], file);
    }

    method AppendData(i: nat, bytes: Bytes) returns (r: FileOutcome<()>)
      requires Valid()
      modifies this
      ensures Valid() && finalized == old(finalized) && auxes == old(auxes)
      ensures r.InvalidArgument? <==> old(finalized) || i >= |plans| || |old(datas)[i]| + |bytes| > plans[i].dataBytes
      ensures r.Ok? ==> datas == old(datas)[i := old(datas)[i] + bytes]
      ensures !r.Ok? ==> datas == old(datas)
      ensures r.InvalidArgument? ==> file == old(file)
    {
      if finalized || i >= |entries| { return InvalidArgument; }
      SoundAt(plans, l, file, entries, states, datas, auxes, i);
      var state, entry := states[i], entries[i];
      if |bytes| > entry.dataBytes - state.dataWritten { return InvalidArgument; }
      ghost var before := file;
      var at := entry.dataOffset + state.dataWritten;
      var ok, written := PwriteAll(bytes, at);
      if !ok {
        DataLeft(plans, l, before, entries, states, datas, auxes, i, at, bytes[..written], file);
        return IoError;
      }
      assert bytes[..written] == bytes;
      var crc := UpdateCrc(state.crc, bytes, datas[i]);
      ghost var states0, datas0 := states, datas;
      states := states[i := TensorState(state.dataWritten + |bytes|, state.auxWritten, crc)];
      datas := datas[i := datas[i] + bytes];
      DataCounted(plans, l, before, entries, states0, datas0, auxes, i, at, bytes, file, crc, states, datas);
      r := Ok(());
    }

    method AppendAuxiliary(i: nat, bytes: Bytes) returns (r: FileOutcome<()>)
      requires Valid()
      modifies this
      ensures Valid() && finalized == old(finalized) && datas == old(datas)
      ensures r.InvalidArgument? <==> old(finalized) || i >= |plans| || |old(auxes)[i]| + |bytes| > plans[i].auxBytes
      ensures r.Ok? ==> auxes == old(auxes)[i := old(auxes)[i] + bytes]
      ensures !r.Ok? ==> auxes == old(auxes)
      ensures r.InvalidArgument? ==> file == old(file)
    {
      if finalized || i >= |entries| { return InvalidArgument; }
      SoundAt(plans, l, file, entries, states, datas, auxes, i);
      var state, entry := states[i], entries[i];
      if |bytes| > entry.auxBytes - state.auxWritten { return InvalidArgument; }
      ghost var before := file;
      var at := entry.auxOffset + state.auxWritten;
      var ok, written := PwriteAll(bytes, at);
      if !ok {
        AuxiliaryLeft(plans, l, before, entries, states, datas, auxes, i, at, bytes[..written], file);
        return IoError;
      }
      assert bytes[..written] == bytes;
      ghost var states0, auxes0 := states, auxes;
      states := states[i := state.(auxWritten := state.auxWritten + |bytes|)];
      auxes := auxes[i := auxes[i] + bytes];
      AuxiliaryCounted(plans, l, before, entries, states0, datas, auxes0, i, at, bytes, file, states, auxes);
      r := Ok(());
    }

    /** Finalizing succeeds for complete streams only, and leaves the one-shot writer's file. */
    method Finalize() returns (r: FileOutcome<()>)
      requires Valid()
      modifies this
      ensures Valid() && datas == old(datas) && auxes == old(auxes)
      ensures r.InvalidArgument? <==> old(finalized) || !Payloads(plans, datas, auxes)
      ensures r.Ok? ==> finalized && Finished(id, plans, datas, auxes, file)
      ensures !r.Ok? ==> finalized == old(finalized)
    {
      if finalized { return InvalidArgument; }
      for i := 0 to |entries|
        invariant Valid() && !finalized && datas == old(datas) && auxes == old(auxes)
        invariant |entries| == |plans| && Recorded(plans, entries, datas, auxes, i)
      {
        SoundAt(plans, l, file, entries, states, datas, auxes, i);
        var entry, state := entries[i], states[i];
        if state.dataWritten != entry.dataBytes || state.auxWritten != entry.auxBytes {
          if Payloads(plans, datas, auxes) {
            Incomplete(plans, datas, auxes, i);
          }
          return InvalidArgument;
        }
        ghost var before := entries;
        var crc := NumberOf(state.crc, datas[i]);
        entries := entries[i := entry.(dataCrc := crc)];
        CrcRecorded(plans, l, file, before, states, datas, auxes, i, crc, entries);
        RecordedNext(plans, before, datas, auxes, i, entries, crc);
      }
      EntriesFinal(plans, l, file, entries, states, datas, auxes);
      r := WriteManifest();
    }

    method WriteManifest() returns (r: FileOutcome<()>)
      requires Valid() && !finalized && |entries| == |plans| && Recorded(plans, entries, datas, auxes, |plans|)
      modifies this`file, this`finalized
      ensures Valid() && !r.InvalidArgument?
      ensures r.Ok? ==> finalized && Finished(id, plans, datas, auxes, file)
      ensures !r.Ok? ==> !finalized
    {
      FrontFits(id, plans, l, file, entries, states, datas, auxes);
      var header, manifest := BuildFront();
      ghost var start := file;
      var ok := WriteBefore(header, 0);
      if !ok { return IoError; }
      ghost var first := file;
      ok := WriteBefore(manifest, 256);
      if !ok { return IoError; }
      var installed: bool := *;
      if !installed { return IoError; }
      StreamInstalled(id, plans, l, start, entries, states, datas, auxes, header, manifest, first, file);
      finalized := true;
      r := Ok(());
    }

    /** The header and the manifest of the completed entries. */
    method BuildFront() returns (header: Bytes, manifest: Bytes)
      requires id.Valid() && FourDimensions(entries) && l.stringsOffset == 256 + |plans| * 128
      requires l.manifestEnd == l.stringsOffset + |Strings(plans)| <= l.dataOffset <= l.fileBytes
               && |entries| == |plans|
      ensures FrontOf(id, plans, l, entries, header, manifest)
      ensures |header| == 256 && 256 + |manifest| == l.manifestEnd
    {
      manifest := Directory(entries) + Strings(plans);
      var crc := ChecksumOf(manifest);
      header := HeaderBytes(HeaderFor(plans, l, crc), id);
    }

    /** Writes a part of what precedes the payloads. */
    method WriteBefore(source: Bytes, at: nat) returns (ok: bool)
      requires Valid() && !finalized && at + |source| <= l.manifestEnd && at + |source| <= |file|
      modifies this`file
      ensures Valid() && |file| == old(|file|)
      ensures ok ==> file == DeviceMemory.Overwrite(old(file), at, source)
    {
      ghost var before := file;
      var written: nat;
      ok, written := PwriteAll(source, at);
      FrontLeft(plans, l, before, entries, states, datas, auxes, at, source[..written], file);
      assert source[..|source|] == source;
    }
  }

  /** A stream writer for an accepted plan whose file is no longer than a file can be. */
  method Create(id: Identity, plans: seq<Plan>) returns (r: FileOutcome<StreamWriter>)
    ensures r.InvalidArgument? <==> !Creatable(id, plans)
    ensures r.Ok? ==>
              fresh(r.value) && r.value.Valid() && !r.value.finalized && r.value.id == id && r.value.plans == plans
    ensures r.Ok? ==> r.value.datas == r.value.auxes == seq(|plans|, _ => [])
  {
    if !Accepted(id, plans) { return InvalidArgument; }
    var stringsOffset := 256 + |plans| * 128;
    var manifestEnd := stringsOffset + |Strings(plans)|;
    var dataOffset := AlignUp(manifestEnd, FILE_ALIGNMENT);
    if dataOffset == 0 { return InvalidArgument; }
    var spans := PlaceChecked(plans, dataOffset);
    if spans.None? { return InvalidArgument; }
    var l := Layout(stringsOffset, manifestEnd, dataOffset, spans.value, EndOf(spans.value, dataOffset));
    if l.fileBytes > OFF_MAX { return InvalidArgument; }
    var created: bool := *;
    if !created { return IoError; }
    LayoutFits(plans);
    var w := new StreamWriter(id, plans, l);
    var ok := w.WriteFirst();
    if !ok { return IoError; }
    r := Ok(w);
  }

  method UpdateCrc(state: Crc64.Register, bytes: Bytes, ghost data: Bytes) returns (crc: Crc64.Register)
    requires IsCrc(state, data)
    ensures IsCrc(crc, data + bytes)
  {
    var table := Crc64.BuildTable();
    crc := Crc64.Update(table, state, bytes);
    assert Seals.Opened(Seals.Checksum);
    Crc64.UpdateComposes(Crc64.Zero(), data, bytes);
  }

  method NumberOf(crc: Crc64.Register, ghost data: Bytes) returns (n: nat)
    requires IsCrc(crc, data)
    ensures n == Crc(data)
  {
    assert Seals.Opened(Seals.Checksum);
    n := Number(crc);
  }

  method ChecksumOf(bytes: Bytes) returns (n: nat)
    ensures n == Crc(bytes)
  {
    var table := Crc64.BuildTable();
    var crc := Crc64.Update(table, Crc64.Zero(), bytes);
    n := Number(crc);
  }

  /** The front of the file is large enough for the header, the directory and the names. */
  lemma {:induction false} FrontFits(id: Identity, plans: seq<Plan>, l: Layout, file: Bytes, entries: seq<Entry>,
                                     states: seq<TensorState>, datas: seq<Bytes>, auxes: seq<Bytes>)
    requires Planned(id, plans, l) && Sound(plans, l, file, entries, states, datas, auxes)
    ensures id.Valid() && FourDimensions(entries) && l.stringsOffset == 256 + |plans| * 128
            && l.manifestEnd == l.stringsOffset + |Strings(plans)|
    ensures l.manifestEnd <= l.dataOffset <= l.fileBytes == |file|
  {
    assert Seals.Opened(Seals.Plan);
    LayoutFits(plans);
    Unsealed(plans, l, file, entries, states, datas, auxes);
    forall i | 0 <= i < |entries|
      ensures |entries[i].dimensions| == 4
    {
      assert DescribedAt(plans, l.spans, i, entries[i]);
    }
  }

  lemma ZerosSlice(n: nat, from: nat, to: nat)
    requires from <= to <= n
    ensures Zeros(n)[from..to] == Zeros(to - from)
  {
  }

  lemma EmptyFilled(plans: seq<Plan>, l: Layout)
    requires Laid(plans, l)
    ensures Filled(l, Zeros(l.fileBytes), seq(|plans|, _ => []), seq(|plans|, _ => []))
  {
    var file, none := Zeros(l.fileBytes), seq(|plans|, _ => []);
    ZerosSlice(l.fileBytes, l.manifestEnd, l.dataOffset);
    forall i | 0 <= i < |plans|
      ensures RegionHolds(file, l.spans[i], none[i], none[i])
    {
      SpanWithin(plans, l.spans, l.dataOffset, i);
      NothingHeld(l.spans[i], plans[i]);
      ZerosSlice(l.fileBytes, l.spans[i].start, l.spans[i].end);
    }
  }
}
