/** The transactional decode session: device buffers, the serial and the block path through the
    stack, and speculative rounds that commit or roll back. */
module Session {
  import opened Scalars
  import opened GdnModel
  import opened Decoder
  import opened SessionState
  import opened DeviceMemory
  import opened GreedyStream
  import opened Argmax
  import CausalStack
  import Seals

  const MAXIMUM_BLOCK: nat := 32
  const MAXIMUM_CONTEXT: nat := 262144

  /** The recurrent-state pointers a launch reads and writes, and whether it logs. */
  datatype GdnPointers = GdnPointers(
    conv: Buffer<seq<seq<Half>>>, gdn: Buffer<seq<seq<Float>>>,
    finalConv: Buffer<seq<seq<Half>>>, finalGdn: Buffer<seq<seq<Float>>>,
    logged: bool)

  /** The four state regions are not the given row buffer, and convolution state is not
      recurrent state. */
  ghost predicate Separate(p: GdnPointers, rows: Buffer<Row>) {
    && Apart(p.conv, rows) && Apart(p.gdn, rows) && Apart(p.finalConv, rows) && Apart(p.finalGdn, rows)
    && Apart(p.conv, p.gdn) && Apart(p.conv, p.finalGdn) && Apart(p.finalConv, p.gdn) && Apart(p.finalConv, p.finalGdn)
  }

  ghost predicate Apart(a: object, b: object) {
    a != b
  }

  /** Where the hidden row behind the next proposal is. */
  datatype HiddenPointer = NullHidden | HiddenAt(buffer: Buffer<Row>, row: nat)

  /** The tokens made visible after the seed; the last is the target's correction, or its bonus
      token after a full accept. */
  datatype SpeculativeStepResult = SpeculativeStepResult(tokens: seq<nat>, proposedDrafts: nat, acceptedDrafts: nat)

  /** What a successful round does to the committed stream: it commits the longest prefix of the drafts
      that the target agrees with. */
  ghost predicate RoundCommitted(next: Predictor, before: seq<nat>, after: seq<nat>, seed: nat, drafts: seq<nat>,
                                 r: SpeculativeStepResult) {
    && r.proposedDrafts == |drafts| && LongestAgreeing(next, before, seed, drafts, r.acceptedDrafts)
    && |r.tokens| == r.acceptedDrafts + 1 && r.tokens[..r.acceptedDrafts] == drafts[..r.acceptedDrafts]
    && r.tokens == Greedy(next, before, seed, |r.tokens|)
    && after == before + [seed] + r.tokens[..r.acceptedDrafts]
  }

  /** The accepted part of a block is what the result reports. */
  ghost predicate Settled(next: Predictor, before: seq<nat>, block: seq<nat>, seed: nat, drafts: seq<nat>,
                          r: SpeculativeStepResult) {
    && |block| == |drafts| + 1 && r.acceptedDrafts <= |drafts|
    && RoundCommitted(next, before, before + block[..r.acceptedDrafts + 1], seed, drafts, r)
    && block[..r.acceptedDrafts + 1] == [seed] + r.tokens[..r.acceptedDrafts]
  }

  /** When all drafts were accepted, what precedes the bonus token is greedy. */
  lemma {:induction false} AllAccepted(next: Predictor, before: seq<nat>, after: seq<nat>, seed: nat, drafts: seq<nat>,
                    r: SpeculativeStepResult)
    requires RoundCommitted(next, before, after, seed, drafts, r) && r.acceptedDrafts == |drafts|
    ensures after == before + [seed] + Greedy(next, before, seed, |drafts|)
  {
    var n := |drafts| + 1;
    assert Greedy(next, before, seed, n)[..|drafts|] == Greedy(next, before, seed, |drafts|);
  }

  /** The cells of the two state buffers of each kind. */
  datatype StateCells = StateCells(conv0: ConvCells, conv1: ConvCells, gdn0: GdnCells, gdn1: GdnCells) {
    function Conv(parity: bool): ConvCells { if parity then conv1 else conv0 }

    function Gdn(parity: bool): GdnCells { if parity then gdn1 else gdn0 }
  }

  /** What a session holds: pointers and graphs, device cells, and the stream they stand for. */
  datatype Held = Held(live: GdnPointers, parity: bool, graphs: seq<GdnPointers>, states: StateCells,
                       caches: CacheCells, log: LogCells, proposerCache: seq<Entry>, stream: seq<nat>,
                       slots: seq<ProposerSlot>)

  class QwenDecodeSession {
    const m: Model
    const capacity: nat            // maximum_context_tokens
    const graphBatch: nat          // graph_verifier_batch, 0 when no graph is prepared
    const tiled: bool              // tiled_weights
    const index: seq<nat>          // state_index of each layer
    const regions: nat             // recurrent layers

    // Device buffers.  The two state buffers of each kind change roles on a full accept.
    const hiddenA: Buffer<Row>
    const hiddenB: Buffer<Row>
    const targetHiddenSnapshot: Buffer<Row>
    const conv0: Buffer<seq<seq<Half>>>
    const conv1: Buffer<seq<seq<Half>>>
    const gdn0: Buffer<seq<seq<Float>>>
    const gdn1: Buffer<seq<seq<Float>>>
    var caches: CacheCells
    var rollbackLog: LogCells
    var mtpCache: seq<Entry>
    var mtpHidden: Row
    var tokens: seq<nat>           // selected tokens from 0, draft tokens from 32, graph seed at 63
    var graphBasePosition: nat
    var graphMtpPositions: seq<nat>

    // Host state.
    var currentPosition: nat
    var mtpPosition: nat
    var mtpChainActive: bool
    var gdnStateParity: bool
    var convStates: Buffer<seq<seq<Half>>>
    var convSnapshot: Buffer<seq<seq<Half>>>
    var gdnStates: Buffer<seq<seq<Float>>>
    var gdnSnapshot: Buffer<seq<seq<Float>>>
    var lastHidden: HiddenPointer
    var speculativeGraphs: seq<GdnPointers>

    // The committed stream, and what each proposer slot was written for.
    ghost var committed: seq<nat>
    ghost var mtpSlots: seq<ProposerSlot>

    /** The layout of the model on the device. */
    ghost predicate Wired() {
      && |m.layers| % 2 == 0 && Indexed(m, index) && 0 < capacity
      && (forall r | 0 <= r < regions :: Owned(m, index, r))
      && (graphBatch == 0 || 2 <= graphBatch <= MAXIMUM_BLOCK)
    }

    /** No buffer plays two roles. */
    ghost predicate Distinct() {
      && hiddenA != hiddenB && targetHiddenSnapshot != hiddenA && targetHiddenSnapshot != hiddenB && conv0 != conv1
         && gdn0 != gdn1
      && Separate(ShadowPointers(false), hiddenA) && Separate(ShadowPointers(false), hiddenB)
      && Separate(ShadowPointers(false), targetHiddenSnapshot)
    }

    /** The logging pointers of a parity: which physical buffer is live and which the shadow. */
    function ShadowPointers(parity: bool): GdnPointers {
      if parity then GdnPointers(conv1, gdn1, conv0, gdn0, true) else GdnPointers(conv0, gdn0, conv1, gdn1, true)
    }

    /** The pointers a launch uses now. */
    function Pointers(recordRollback: bool): GdnPointers
      reads this`convStates, this`gdnStates, this`convSnapshot, this`gdnSnapshot
    {
      if recordRollback then GdnPointers(convStates, gdnStates, convSnapshot, gdnSnapshot, true)
      else GdnPointers(convStates, gdnStates, convStates, gdnStates, false)
    }

    /** The parity tells which buffer is live, and each prepared graph captured the pointers of
        its parity. */
    ghost predicate ParityHolds()
      reads this`convStates, this`gdnStates, this`convSnapshot, this`gdnSnapshot, this`gdnStateParity,
            this`speculativeGraphs
    {
      && Pointers(true) == ShadowPointers(gdnStateParity)
      && (graphBatch != 0 ==>
            |speculativeGraphs| == 2 && speculativeGraphs[0] == ShadowPointers(false)
            && speculativeGraphs[1] == ShadowPointers(true))
    }

    ghost predicate Sized()
      reads this`rollbackLog, this`caches, conv0, conv1, gdn0, gdn1
    {
      && |conv0.cells| == |conv1.cells| == |gdn0.cells| == |gdn1.cells| == |rollbackLog| == regions
      && |index| == |m.layers| && LogReady(m, index, rollbackLog)
      && (forall r | 0 <= r < |caches| :: |caches[r]| == capacity)
    }

    ghost predicate ScratchSized()
      reads this`tokens, this`graphMtpPositions
    {
      |tokens| == 64 && |graphMtpPositions| == MAXIMUM_BLOCK
    }

    /** The live buffers and the cache slots below the committed length hold exactly the states
        of serial decoding, and the proposer cache what its slots say. */
    ghost predicate Details()
      reads this`convStates, this`gdnStates, this`convSnapshot, this`gdnSnapshot, this`gdnStateParity,
            this`speculativeGraphs
      reads this`caches, this`rollbackLog, this`mtpSlots, this`mtpCache, this`committed
      reads conv0, conv1, gdn0, gdn1
    {
      && Wired() && ParityHolds() && Sized()
      && Synced(m, index, capacity, After(m, committed), |committed|, convStates.cells, gdnStates.cells, caches)
      && SlotsHold(m, mtpCache, mtpSlots)
    }

    /** The values the invariant speaks of. */
    ghost function Contents(): Held
      reads this`convStates, this`gdnStates, this`convSnapshot, this`gdnSnapshot, this`gdnStateParity,
            this`speculativeGraphs
      reads this`caches, this`rollbackLog, this`mtpSlots, this`mtpCache, this`committed
      reads conv0, conv1, gdn0, gdn1
    {
      Held(Pointers(true), gdnStateParity, speculativeGraphs,
           StateCells(conv0.cells, conv1.cells, gdn0.cells, gdn1.cells), caches, rollbackLog, mtpCache,
           committed, mtpSlots)
    }

    /** Details, of values. */
    ghost predicate DetailsOf(v: Held) {
      && Wired() && v.live == ShadowPointers(v.parity)
      && (graphBatch != 0 ==>
            |v.graphs| == 2 && v.graphs[0] == ShadowPointers(false) && v.graphs[1] == ShadowPointers(true))
      && |v.states.conv0| == |v.states.conv1| == |v.states.gdn0| == |v.states.gdn1| == |v.log| == regions
      && LogReady(m, index, v.log) && (forall r | 0 <= r < |v.caches| :: |v.caches[r]| == capacity)
      && Synced(m, index, capacity, After(m, v.stream), |v.stream|, v.states.Conv(v.parity), v.states.Gdn(v.parity),
                v.caches)
      && SlotsHold(m, v.proposerCache, v.slots)
    }

    /** The same, behind a seal: a method that only passes the invariant on sees that the values are
        the same. */
    ghost predicate Sealed(v: Held) {
      forall seal {:trigger Seals.Opened(seal)} | Seals.Opened(seal) && seal == Seals.Decoding :: DetailsOf(v)
    }

    /** The invariant a round keeps from its first launch to its commit. */
    ghost predicate Sound()
      reads this`convStates, this`gdnStates, this`convSnapshot, this`gdnSnapshot, this`gdnStateParity,
            this`speculativeGraphs
      reads this`caches, this`rollbackLog, this`mtpSlots, this`mtpCache, this`committed
      reads hiddenA, hiddenB, targetHiddenSnapshot, conv0, conv1, gdn0, gdn1
    {
      Outline() && Sealed(Contents())
    }

    /** What callers need to know of Sound: roles of the buffers, and sizes. */
    ghost predicate Outline()
      reads this`convStates, this`gdnStates, this`convSnapshot, this`gdnSnapshot, this`gdnStateParity
      reads this`committed, this`mtpSlots, this`mtpCache, hiddenA, hiddenB, targetHiddenSnapshot
    {
      && Distinct() && Pointers(true) == ShadowPointers(gdnStateParity)
      && |hiddenA.cells| == |hiddenB.cells| == MAXIMUM_BLOCK && |targetHiddenSnapshot.cells| == 1
      && |mtpSlots| <= |committed| <= capacity == |mtpCache|
    }

    lemma Open()
      requires Sound()
      ensures Details()
    {
      assert Seals.Opened(Seals.Decoding);
    }

    lemma Close()
      requires Outline() && Details()
      ensures Sound()
    {
    }

    /** last_hidden points at the final row of the last committed token. */
    ghost predicate Conditioned()
      reads this`lastHidden, this`committed, hiddenA, hiddenB, targetHiddenSnapshot
    {
      match lastHidden
      case NullHidden => committed == []
      case HiddenAt(buffer, row) =>
        && committed != [] && (buffer == hiddenA || buffer == targetHiddenSnapshot) && row < |buffer.cells|
        && buffer.cells[row] == LastRow(m, committed)
    }

    ghost predicate Valid()
      reads this, hiddenA, hiddenB, targetHiddenSnapshot, conv0, conv1, gdn0, gdn1
    {
      && Sound() && Conditioned() && ScratchSized() && !mtpChainActive
      && currentPosition == |committed| && mtpPosition == |mtpSlots|
    }

    /** The session over freshly allocated buffers, each holding whatever the memory held but for
        the live recurrent states. */
    constructor Allocate(m: Model, capacity: nat, graphBatch: nat, tiled: bool, index: seq<nat>, attention: nat,
                         recurrent: nat, a: Buffer<Row>, b: Buffer<Row>, snapshot: Buffer<Row>,
                         conv: Buffer<seq<seq<Half>>>, gdn: Buffer<seq<seq<Float>>>, convShadow: Buffer<seq<seq<Half>>>,
                         gdnShadow: Buffer<seq<seq<Float>>>)
      ensures this.m == m && this.capacity == capacity && this.graphBatch == graphBatch && this.tiled == tiled
      ensures this.index == index && regions == recurrent
      ensures hiddenA == a && hiddenB == b && targetHiddenSnapshot == snapshot
      ensures Pointers(true) == ShadowPointers(false) && !gdnStateParity
      ensures ShadowPointers(false) == GdnPointers(conv, gdn, convShadow, gdnShadow, true)
      ensures |caches| == attention && forall r | 0 <= r < attention :: |caches[r]| == capacity
      ensures |rollbackLog| == recurrent && forall r | 0 <= r < recurrent :: |rollbackLog[r]| == MAXIMUM_BLOCK
      ensures ScratchSized() && |mtpCache| == capacity
      ensures currentPosition == mtpPosition == 0 && lastHidden == NullHidden && !mtpChainActive
      ensures speculativeGraphs == []
      ensures committed == [] && mtpSlots == []
    {
      var row: Row, entry: Entry, log: LogRow := *, *, *;
      this.m, this.capacity, this.graphBatch, this.tiled, this.index, regions := m, capacity, graphBatch, tiled, index,
        recurrent;
      hiddenA, hiddenB, targetHiddenSnapshot := a, b, snapshot;
      conv0, conv1, gdn0, gdn1 := conv, convShadow, gdn, gdnShadow;
      convStates, convSnapshot, gdnStates, gdnSnapshot := conv, convShadow, gdn, gdnShadow;
      caches := seq(attention, _ => seq(capacity, _ => entry));
      rollbackLog := seq(recurrent, _ => seq(MAXIMUM_BLOCK, _ => log));
      mtpCache, mtpHidden := seq(capacity, _ => entry), row;
      tokens, graphBasePosition, graphMtpPositions := seq(64, _ => 0), 0, seq(MAXIMUM_BLOCK, _ => 0);
      currentPosition, mtpPosition, mtpChainActive, gdnStateParity := 0, 0, false, false;
      lastHidden, speculativeGraphs := NullHidden, [];
      committed, mtpSlots := [], [];
    }

    static method Allocated(m: Model, capacity: nat, graphBatch: nat, tiled: bool, index: seq<nat>, attention: nat,
                            recurrent: nat, zero: State) returns (session: QwenDecodeSession)
      requires |m.layers| % 2 == 0 && 0 < capacity && (graphBatch == 0 || 2 <= graphBatch <= MAXIMUM_BLOCK)
      requires Indexed(m, index)
      requires forall l | 0 <= l < |m.layers| && m.layers[l].Recurrent? :: index[l] < recurrent
      requires forall r | 0 <= r < recurrent :: Owned(m, index, r)
      ensures session.m == m && session.capacity == capacity && session.graphBatch == graphBatch
              && session.tiled == tiled
      ensures session.index == index && fresh(session)
      ensures fresh(session.hiddenA) && fresh(session.hiddenB) && fresh(session.targetHiddenSnapshot)
      ensures fresh(session.conv0) && fresh(session.conv1) && fresh(session.gdn0) && fresh(session.gdn1)
      ensures session.Wired() && session.Sized() && session.ScratchSized() && session.Outline()
      ensures !session.gdnStateParity
      ensures |session.convStates.cells| == |session.gdnStates.cells| == recurrent && |session.caches| == attention
      ensures forall r | 0 <= r < recurrent ::
                session.convStates.cells[r] == zero.conv && session.gdnStates.cells[r] == zero.heads
      ensures session.currentPosition == session.mtpPosition == 0 && session.lastHidden == NullHidden
      ensures !session.mtpChainActive && session.speculativeGraphs == []
      ensures session.committed == [] && session.mtpSlots == []
    {
      var row: Row := *;
      var a := new Buffer(seq(MAXIMUM_BLOCK, _ => row));
      var b := new Buffer(seq(MAXIMUM_BLOCK, _ => row));
      var snapshot := new Buffer([row]);
      var conv := new Buffer(seq(recurrent, _ => zero.conv));
      var gdn := new Buffer(seq(recurrent, _ => zero.heads));
      var convShadow := new Buffer(seq(recurrent, _ => zero.conv));
      var gdnShadow := new Buffer(seq(recurrent, _ => zero.heads));
      session := new QwenDecodeSession.Allocate(m, capacity, graphBatch, tiled, index, attention, recurrent,
                                                    a, b, snapshot, conv, gdn, convShadow, gdnShadow);
    }

    /** A session at position 0, or a refused configuration. */
    static method Create(m: Model, capacity: nat, graphBatch: nat, tiled: bool) returns (r: Outcome<QwenDecodeSession>)
      requires |m.layers| % 2 == 0
      ensures r.InvalidArgument?
              <==> capacity == 0 || capacity > MAXIMUM_CONTEXT || !(graphBatch == 0 || 2 <= graphBatch <= MAXIMUM_BLOCK)
      ensures r.Ok? ==>
                && r.value.Valid() && r.value.committed == [] && r.value.mtpSlots == []
                && r.value.m == m && r.value.capacity == capacity && r.value.tiled == tiled
                && fresh(r.value) && fresh(r.value.hiddenA) && fresh(r.value.hiddenB)
                   && fresh(r.value.targetHiddenSnapshot)
                && fresh(r.value.conv0) && fresh(r.value.conv1) && fresh(r.value.gdn0) && fresh(r.value.gdn1)
    {
      if capacity == 0 || capacity > MAXIMUM_CONTEXT || !(graphBatch == 0 || 2 <= graphBatch <= MAXIMUM_BLOCK) {
        return InvalidArgument;
      }
      var ok := Enqueue();
      if !ok { return DeviceError; }
      var index, attention, recurrent := AssignStateIndices(m);
      var zero := ZeroState(m);
      var session := Allocated(m, capacity, graphBatch, tiled, index, attention, recurrent, zero);
      InitialSynced(m, index, capacity, session.convStates.cells, session.gdnStates.cells, session.caches, zero);
      ok := session.Initialize();
      return if ok then Ok(session) else DeviceError;
    }

    /** Prepares the graphs of an allocated session. */
    method Initialize() returns (ok: bool)
      requires Wired() && Sized() && ScratchSized() && Outline() && !gdnStateParity && speculativeGraphs == []
      requires currentPosition == mtpPosition == 0 && lastHidden == NullHidden && !mtpChainActive
      requires committed == [] && mtpSlots == []
      requires Synced(m, index, capacity, After(m, []), 0, convStates.cells, gdnStates.cells, caches)
      modifies this`convStates, this`convSnapshot, this`gdnStates, this`gdnSnapshot, this`speculativeGraphs
      ensures ok ==> Valid()
    {
      ok := PrepareSpeculativeGraphs();
      if ok { Close(); }
    }

    /** Captures one graph per parity, with the state pointers swapped for the second and swapped
        back, also when the capture or the instantiation of a graph fails. */
    method PrepareSpeculativeGraphs() returns (ok: bool)
      requires Pointers(true) == ShadowPointers(false)
      requires !gdnStateParity && speculativeGraphs == []
      modifies this`convStates, this`convSnapshot, this`gdnStates, this`gdnSnapshot, this`speculativeGraphs
      ensures Pointers(true) == ShadowPointers(false) && (ok ==> ParityHolds())
      ensures graphBatch == 0 ==> ok
    {
      ok := true;
      if graphBatch == 0 { return; }
      ok := CaptureGraph();
      if !ok { return; }
      convStates, convSnapshot := convSnapshot, convStates;
      gdnStates, gdnSnapshot := gdnSnapshot, gdnStates;
      ok := CaptureGraph();
      convStates, convSnapshot := convSnapshot, convStates;
      gdnStates, gdnSnapshot := gdnSnapshot, gdnStates;
    }

    /** Captures and instantiates the graph of the current pointers. */
    method CaptureGraph() returns (ok: bool)
      modifies this`speculativeGraphs
      ensures speculativeGraphs == old(speculativeGraphs) + if ok then [Pointers(true)] else []
    {
      ok := Enqueue();
      if !ok { return; }
      ok := Enqueue();
      if ok {
        speculativeGraphs := speculativeGraphs + [Pointers(true)];
      }
    }

    /** Attention block kernels: append the block's entries, then read per lane. */
    method LaunchAttentionBlock(l: nat, input: Buffer<Row>, output: Buffer<Row>, batch: nat, base: nat,
                                ghost st: LayerState) returns (ok: bool)
      requires l < |m.layers| == |index| && m.layers[l].Attention? && input != output
      requires batch <= |input.cells| && batch <= |output.cells| && base + batch <= capacity
      requires Holds(m, index, capacity, l, st, base, [], [], caches)
      modifies this`caches, output
      ensures |output.cells| == old(|output.cells|)
      ensures OnlyAt(old(caches), caches, index[l])
      ensures |caches[index[l]]| == capacity && caches[index[l]][..base] == old(caches)[index[l]][..base]
      ensures ok ==>
                var xs := input.cells[..batch];
                && Holds(m, index, capacity, l, CausalStack.LayerAfter(Causal(m.arith, m.layers[l]), st, base, xs),
                         base + batch, [], [], caches)
                && output.cells[..batch] == CausalStack.LayerRows(Causal(m.arith, m.layers[l]), st, base, xs)
    {
      var layer, region, xs := m.layers[l], index[l], input.cells[..batch];
      ok := Enqueue();
      if !ok { return; }
      caches := caches[region := Overwrite(caches[region], base, Entries(layer, base, xs))];
      ok := Enqueue();
      if !ok { return; }
      output.cells := Overwrite(output.cells, 0, AttentionRows(layer, base, xs, caches[region]));
      CacheAfter(m.arith, layer, st, base, xs);
      CacheRows(m.arith, layer, st, base, xs, caches[region]);
    }

    /** Recurrent block kernels: from the live state into the final one, which may be the same
        region, with one log row per token when rollback is recorded. */
    method LaunchRecurrentBlock(p: GdnPointers, l: nat, input: Buffer<Row>, output: Buffer<Row>, batch: nat, base: nat,
                                ghost st: LayerState) returns (ok: bool)
      requires l < |m.layers| == |index| && m.layers[l].Recurrent? && input != output
      requires batch <= |input.cells| && batch <= |output.cells|
      requires Separate(p, input) && Separate(p, output)
      requires Holds(m, index, capacity, l, st, base, p.conv.cells, p.gdn.cells, caches)
      requires index[l] < |p.finalConv.cells| && index[l] < |p.finalGdn.cells|
      requires p.logged ==> index[l] < |rollbackLog| && batch <= |rollbackLog[index[l]]|
      modifies this`rollbackLog, output, p.finalConv, p.finalGdn
      ensures |output.cells| == old(|output.cells|)
      ensures OnlyAt(old(p.finalConv.cells), p.finalConv.cells, index[l])
      ensures OnlyAt(old(p.finalGdn.cells), p.finalGdn.cells, index[l])
      ensures if p.logged
              then OnlyAt(old(rollbackLog), rollbackLog, index[l])
                && |rollbackLog[index[l]]| == old(|rollbackLog[index[l]]|)
              else rollbackLog == old(rollbackLog)
      ensures ok ==>
                var xs := input.cells[..batch];
                && Holds(m, index, capacity, l, CausalStack.LayerAfter(Causal(m.arith, m.layers[l]), st, base, xs),
                         base + batch, p.finalConv.cells, p.finalGdn.cells, caches)
                && output.cells[..batch] == CausalStack.LayerRows(Causal(m.arith, m.layers[l]), st, base, xs)
                && (p.logged ==> rollbackLog[index[l]][..batch]
                                   == Logs(m.arith, m.layers[l].weights, st.state, Projections(m.layers[l], xs)))
    {
      var layer, region, xs := m.layers[l], index[l], input.cells[..batch];
      ok := Enqueue();
      if !ok { return; }
      var state := State(p.conv.cells[region], p.gdn.cells[region]);
      var tokens := Projections(layer, xs);
      var after := Run(m.arith, layer.weights, state, tokens);
      p.finalConv.cells := p.finalConv.cells[region := after.conv];
      ok := Enqueue();
      if !ok { return; }
      p.finalGdn.cells := p.finalGdn.cells[region := after.heads];
      if p.logged {
        rollbackLog := rollbackLog[region :=
                                   Overwrite(rollbackLog[region], 0, Logs(m.arith, layer.weights, state, tokens))];
      }
      ok := Enqueue();
      if !ok { return; }
      output.cells := Overwrite(output.cells, 0, RecurrentRows(m.arith, layer, state, xs));
      GdnAfter(m.arith, layer, st, base, xs);
      GdnRows(m.arith, layer, st, base, xs);
    }

    /** Buffers of the right sizes, and pointers in place for a launch: state is replaced in place,
        or, when rollback is recorded, goes to a shadow. */
    ghost predicate Ready(p: GdnPointers)
      reads this`rollbackLog, this`caches, hiddenA, hiddenB, p.conv, p.gdn, p.finalConv, p.finalGdn
    {
      && hiddenA != hiddenB && |hiddenA.cells| == |hiddenB.cells| == MAXIMUM_BLOCK
      && |index| == |m.layers| && LogReady(m, index, rollbackLog)
         && (forall r | 0 <= r < |caches| :: |caches[r]| == capacity)
      && |p.conv.cells| == |p.gdn.cells| == |p.finalConv.cells| == |p.finalGdn.cells| == |rollbackLog| == regions
      && Separate(p, hiddenA) && Separate(p, hiddenB)
      && (p.conv == p.finalConv <==> !p.logged) && (p.gdn == p.finalGdn <==> !p.logged)
    }

    /** The two row buffers, in either role. */
    ghost predicate Paired(input: Buffer<Row>, output: Buffer<Row>) {
      (input == hiddenA && output == hiddenB) || (input == hiddenB && output == hiddenA)
    }

    /** The first l layers have processed the block xs, whose rows are now in the given buffer. */
    ghost predicate Midway(p: GdnPointers, rows: Buffer<Row>, l: nat, base: nat, sts: seq<LayerState>, xs: seq<Row>)
      reads this`caches, this`rollbackLog, hiddenA, hiddenB, rows, p.conv, p.gdn, p.finalConv, p.finalGdn
    {
      && Ready(p) && (rows == hiddenA || rows == hiddenB) && |xs| <= MAXIMUM_BLOCK && base + |xs| <= capacity
      && l <= |m.layers| == |sts|
      && Progress(m, index, capacity, sts, base, xs, l, p.conv.cells, p.gdn.cells, p.finalConv.cells, p.finalGdn.cells,
                  caches)
      && rows.cells[..|xs|] == RowsInto(m, sts, base, xs, l)
      && (p.logged ==> Logged(m, index, sts, base, xs, l, rollbackLog))
    }

    /** Block progress through one attention layer. */
    method AdvanceAttention(p: GdnPointers, l: nat, input: Buffer<Row>, output: Buffer<Row>, batch: nat, base: nat,
                            ghost sts: seq<LayerState>, ghost xs: seq<Row>) returns (ok: bool)
      requires Midway(p, input, l, base, sts, xs) && l < |m.layers| && m.layers[l].Attention?
      requires batch == |xs| && Paired(input, output)
      modifies this`caches, output
      ensures Ready(p) && CachesKept(old(caches), caches, base, capacity)
      ensures ok ==> Midway(p, output, l + 1, base, sts, xs)
    {
      ghost var conv, gdn, finalConv, finalGdn, before := p.conv.cells, p.gdn.cells, p.finalConv.cells,
        p.finalGdn.cells, caches;
      ok := LaunchAttentionBlock(l, input, output, batch, base, sts[l]);
      CachesKeptAt(before, caches, base, capacity, index[l]);
      if ok {
        LayerStep(m, sts, base, xs, l);
        ProgressStep(m, index, capacity, sts, base, xs, l, conv, gdn, finalConv, finalGdn, before,
                     conv, gdn, finalConv, finalGdn, caches);
        if p.logged {
          LoggedStep(m, index, sts, base, xs, l, rollbackLog, rollbackLog);
        }
      }
    }

    /** Block progress through one recurrent layer. */
    method AdvanceRecurrent(p: GdnPointers, l: nat, input: Buffer<Row>, output: Buffer<Row>, batch: nat, base: nat,
                            ghost sts: seq<LayerState>, ghost xs: seq<Row>) returns (ok: bool)
      requires Midway(p, input, l, base, sts, xs) && l < |m.layers| && m.layers[l].Recurrent?
      requires batch == |xs| && Paired(input, output)
      modifies this`rollbackLog, output, p.finalConv, p.finalGdn
      ensures Ready(p)
      ensures ok ==> Midway(p, output, l + 1, base, sts, xs)
    {
      ghost var conv, gdn, finalConv, finalGdn, log := p.conv.cells, p.gdn.cells, p.finalConv.cells, p.finalGdn.cells,
        rollbackLog;
      ok := LaunchRecurrentBlock(p, l, input, output, batch, base, sts[l]);
      if p.logged {
        LogStaysReady(m, index, l, log, rollbackLog);
      }
      if ok {
        LayerStep(m, sts, base, xs, l);
        ProgressStep(m, index, capacity, sts, base, xs, l, conv, gdn, finalConv, finalGdn, caches,
                     p.conv.cells, p.gdn.cells, p.finalConv.cells, p.finalGdn.cells, caches);
        if p.logged {
          LoggedStep(m, index, sts, base, xs, l, log, rollbackLog);
        }
      }
    }

    method LaunchLayerBlock(p: GdnPointers, l: nat, input: Buffer<Row>, output: Buffer<Row>, batch: nat, base: nat,
                            ghost sts: seq<LayerState>, ghost xs: seq<Row>) returns (ok: bool)
      requires Midway(p, input, l, base, sts, xs) && l < |m.layers|
      requires batch == |xs| && Paired(input, output)
      modifies this`caches, this`rollbackLog, output, p.finalConv, p.finalGdn
      ensures Ready(p) && CachesKept(old(caches), caches, base, capacity)
      ensures ok ==> Midway(p, output, l + 1, base, sts, xs)
    {
      if m.layers[l].Attention? {
        ok := AdvanceAttention(p, l, input, output, batch, base, sts, xs);
      } else {
        ok := AdvanceRecurrent(p, l, input, output, batch, base, sts, xs);
      }
    }

    /** Midway, with the committed slots as before; behind a seal. */
    ghost predicate Between(p: GdnPointers, rows: Buffer<Row>, l: nat, base: nat, sts: seq<LayerState>, xs: seq<Row>,
                            before: CacheCells)
      reads this`caches, this`rollbackLog, hiddenA, hiddenB, rows, p.conv, p.gdn, p.finalConv, p.finalGdn
    {
      forall seal {:trigger Seals.Opened(seal)} | Seals.Opened(seal) && seal == Seals.Layers ::
        Midway(p, rows, l, base, sts, xs) && CachesKept(before, caches, base, capacity)
    }

    method NextLayerBlock(p: GdnPointers, l: nat, input: Buffer<Row>, output: Buffer<Row>, batch: nat, base: nat,
                          ghost sts: seq<LayerState>, ghost xs: seq<Row>, ghost before: CacheCells) returns (ok: bool)
      requires Between(p, input, l, base, sts, xs, before) && l < |m.layers|
      requires batch == |xs| && Paired(input, output)
      modifies this`caches, this`rollbackLog, output, p.finalConv, p.finalGdn
      ensures ok ==> Between(p, output, l + 1, base, sts, xs, before)
      ensures !ok ==> Ready(p) && CachesKept(before, caches, base, capacity)
    {
      assert Seals.Opened(Seals.Layers);
      ghost var now := caches;
      ok := LaunchLayerBlock(p, l, input, output, batch, base, sts, xs);
      CachesKeptOn(before, now, caches, base, capacity);
    }

    /** Where the rows are after l layers. */
    function RowsAt(l: nat): (rows: Buffer<Row>)
    {
      if l % 2 == 0 then hiddenA else hiddenB
    }

    lemma Alternating(l: nat)
      ensures RowsAt(l + 2) == RowsAt(l) && Paired(RowsAt(l), RowsAt(l + 1))
    {
    }

    /** The loop over the layers.  The two row buffers change roles after every layer, so an even
        stack ends in the buffer it started from. */
    method RunLayers(p: GdnPointers, batch: nat, base: nat, ghost sts: seq<LayerState>, ghost xs: seq<Row>)
      returns (ok: bool, final: Buffer<Row>)
      requires Midway(p, hiddenA, 0, base, sts, xs) && batch == |xs|
      modifies this`caches, this`rollbackLog, hiddenA, hiddenB, p.finalConv, p.finalGdn
      ensures Ready(p) && CachesKept(old(caches), caches, base, capacity)
      ensures ok ==>
                && Midway(p, final, |m.layers|, base, sts, xs)
                && final == if |m.layers| % 2 == 0 then hiddenA else hiddenB
    {
      ok, final := LoopLayers(p, batch, base, sts, xs);
      assert Seals.Opened(Seals.Layers);
    }

    method LoopLayers(p: GdnPointers, batch: nat, base: nat, ghost sts: seq<LayerState>, ghost xs: seq<Row>)
      returns (ok: bool, final: Buffer<Row>)
      requires Between(p, hiddenA, 0, base, sts, xs, caches) && batch == |xs|
      modifies this`caches, this`rollbackLog, hiddenA, hiddenB, p.finalConv, p.finalGdn
      ensures !ok ==> Ready(p) && CachesKept(old(caches), caches, base, capacity)
      ensures ok ==>
                && Between(p, final, |m.layers|, base, sts, xs, old(caches))
                && final == RowsAt(|m.layers|)
    {
      ok := true;
      ghost var before := caches;
      var current, next := hiddenA, hiddenB;
      for l := 0 to |m.layers|
        invariant ok && Between(p, current, l, base, sts, xs, before)
        invariant current == RowsAt(l) && next == RowsAt(l + 1)
      {
        Alternating(l);
        ok := NextLayerBlock(p, l, current, next, batch, base, sts, xs, before);
        if !ok { return false, current; }
        current, next := next, current;
      }
      final := current;
    }

    // ---- serial and block decoding

    /** Rows of the block's tokens, gathered from the embedding. */
    method Gather(block: seq<nat>)
      requires |block| <= |hiddenA.cells|
      modifies hiddenA
      ensures |hiddenA.cells| == old(|hiddenA.cells|) && hiddenA.cells[..|block|] == Embedded(m, block)
    {
      for t := 0 to |block|
        invariant |hiddenA.cells| == old(|hiddenA.cells|)
        invariant hiddenA.cells[..t] == Embedded(m, block)[..t]
      {
        hiddenA.cells := hiddenA.cells[t := m.embed(block[t])];
      }
    }

    /** The layers over a block, starting from the committed state. */
    method RunBlock(p: GdnPointers, block: seq<nat>, base: nat) returns (ok: bool, final: Buffer<Row>)
      requires Sound() && |block| <= MAXIMUM_BLOCK && base == |committed| && base + |block| <= capacity
      requires p in {GdnPointers(convStates, gdnStates, convStates, gdnStates, false), ShadowPointers(gdnStateParity)}
      modifies this`caches, this`rollbackLog, hiddenA, hiddenB, p.finalConv, p.finalGdn
      ensures Sized() && |hiddenA.cells| == |hiddenB.cells| == MAXIMUM_BLOCK
      ensures CachesKept(old(caches), caches, base, capacity)
      ensures ok ==> Midway(p, final, |m.layers|, base, After(m, committed), Embedded(m, block)) && final == hiddenA
    {
      Open();
      Gather(block);
      AfterFits(m, committed);
      ok, final := RunLayers(p, |block|, base, After(m, committed), Embedded(m, block));
    }

    /** The layers over a block in place: the live buffers then hold the longer stream. */
    method RunInPlace(block: seq<nat>) returns (ok: bool)
      requires Sound() && |block| <= MAXIMUM_BLOCK && |committed| + |block| <= capacity
      requires currentPosition == |committed|
      modifies this`caches, this`rollbackLog, hiddenA, hiddenB, convStates, gdnStates
      ensures Sized() && |hiddenA.cells| == |hiddenB.cells| == MAXIMUM_BLOCK
      ensures ok ==>
                && Synced(m, index, capacity, After(m, committed + block), |committed + block|, convStates.cells,
                          gdnStates.cells, caches)
                && hiddenA.cells[..|block|]
                   == RowsInto(m, After(m, committed), |committed|, Embedded(m, block), |m.layers|)
    {
      var final;
      ok, final := RunBlock(Pointers(false), block, currentPosition);
      if ok {
        BlockCommits(m, index, capacity, committed, block, convStates.cells, gdnStates.cells, convStates.cells,
                     gdnStates.cells, caches);
      }
    }

    /** Commits the block as well; its last row is in the last lane. */
    method AdvanceInPlace(block: seq<nat>) returns (ok: bool)
      requires Sound() && 0 < |block| <= MAXIMUM_BLOCK && |committed| + |block| <= capacity
      requires currentPosition == |committed|
      modifies this`caches, this`rollbackLog, this`lastHidden, this`committed, hiddenA, hiddenB, convStates, gdnStates
      ensures ok ==>
                && Sound() && Conditioned() && committed == old(committed) + block
                && hiddenA.cells[..|block|]
                   == RowsInto(m, After(m, old(committed)), |old(committed)|, Embedded(m, block), |m.layers|)
    {
      Open();
      ok := RunInPlace(block);
      if ok {
        CommitInPlace(|block|, block);
      }
    }

    /** The longer stream, which the live buffers already hold, becomes what is committed. */
    method CommitInPlace(batch: nat, ghost block: seq<nat>)
      requires Outline() && Wired() && ParityHolds() && Sized() && SlotsHold(m, mtpCache, mtpSlots)
      requires 0 < batch == |block| <= MAXIMUM_BLOCK && |committed| + |block| <= capacity
      requires Synced(m, index, capacity, After(m, committed + block), |committed + block|, convStates.cells,
                      gdnStates.cells, caches)
      requires hiddenA.cells[..|block|] == RowsInto(m, After(m, committed), |committed|, Embedded(m, block), |m.layers|)
      modifies this`lastHidden, this`committed
      ensures Sound() && Conditioned() && committed == old(committed) + block
    {
      LastLane(m, committed, block, |block|, hiddenA.cells);
      assert block[..|block|] == block;
      lastHidden := HiddenAt(hiddenA, batch - 1);
      committed := committed + block;
      Close();
    }

    /** Evaluates a known block in place and commits all of it. */
    method Evaluate(block: seq<nat>) returns (ok: bool)
      requires Valid() && 0 < |block| <= MAXIMUM_BLOCK && currentPosition + |block| <= capacity
      modifies this`caches, this`rollbackLog, this`lastHidden, this`currentPosition, this`committed
      modifies hiddenA, hiddenB, convStates, gdnStates
      ensures ok ==>
                && Valid() && committed == old(committed) + block
                && hiddenA.cells[..|block|]
                   == RowsInto(m, After(m, old(committed)), |old(committed)|, Embedded(m, block), |m.layers|)
    {
      ok := AdvanceInPlace(block);
      if ok {
        currentPosition := currentPosition + |block|;
      }
    }

    /** Evaluates a known block and selects a token per lane. */
    method Decode(block: seq<nat>) returns (ok: bool)
      requires Valid() && 0 < |block| <= MAXIMUM_BLOCK && currentPosition + |block| <= capacity
      modifies this`caches, this`rollbackLog, this`lastHidden, this`tokens, this`currentPosition, this`committed
      modifies hiddenA, hiddenB, convStates, gdnStates
      ensures ok ==>
                && Valid() && committed == old(committed) + block
                && Selected(Target(m), old(committed), block, tokens[..|block|])
    {
      ghost var context := committed;
      ok := Evaluate(block);
      if ok {
        SelectLanes(|block|, context, block);
      }
    }

    /** The argmax kernel over the lanes of a block. */
    method SelectLanes(batch: nat, ghost context: seq<nat>, ghost block: seq<nat>)
      requires 0 < batch == |block| <= |hiddenA.cells| && batch <= MAXIMUM_BLOCK && |tokens| == 64
      requires hiddenA.cells[..|block|] == RowsInto(m, After(m, context), |context|, Embedded(m, block), |m.layers|)
      modifies this`tokens
      ensures |tokens| == 64 && tokens[MAXIMUM_BLOCK..] == old(tokens[MAXIMUM_BLOCK..])
      ensures Selected(Target(m), context, block, tokens[..batch])
    {
      for t := 0 to batch
        invariant |tokens| == 64 && tokens[MAXIMUM_BLOCK..] == old(tokens[MAXIMUM_BLOCK..])
        invariant forall u | 0 <= u < t :: tokens[u] == Target(m)(context + block[..u + 1])
      {
        LaneRow(m, context, block, t);
        assert hiddenA.cells[t] == hiddenA.cells[..batch][t];
        var token := ArgmaxLogits(m.logits(hiddenA.cells[t]), m.tokenizerVocabulary, [], false);
        tokens := tokens[t := token];
      }
    }

    /** Feeds one token. */
    method GreedyStep(inputToken: nat) returns (r: Outcome<nat>)
      requires Valid()
      modifies this`caches, this`rollbackLog, this`lastHidden, this`tokens, this`currentPosition, this`committed
      modifies hiddenA, hiddenB, convStates, gdnStates
      ensures r.InvalidArgument? <==> old(currentPosition) >= capacity || inputToken >= m.vocabulary
      ensures r.InvalidArgument? ==> Valid() && committed == old(committed)
      ensures r.Ok? ==>
                && Valid() && committed == old(committed) + [inputToken]
                && [r.value] == Greedy(Target(m), old(committed), inputToken, 1)
    {
      if currentPosition >= capacity || inputToken >= m.vocabulary { return InvalidArgument; }
      var block := [inputToken];
      assert block[..1] == block;
      GreedyOnce(Target(m), committed, inputToken);
      var ok := Decode(block);
      if !ok { return DeviceError; }
      return Ok(tokens[0]);
    }

    /** Feeds a known block; the result holds the token selected after each of its tokens. */
    method BlockStep(inputTokens: seq<nat>) returns (r: Outcome<seq<nat>>)
      requires Valid()
      modifies this`caches, this`rollbackLog, this`lastHidden, this`tokens, this`currentPosition, this`committed
      modifies hiddenA, hiddenB, convStates, gdnStates
      ensures r.InvalidArgument? <==>
                || inputTokens == [] || |inputTokens| > MAXIMUM_BLOCK || (!tiled && |inputTokens| > 8)
                || |inputTokens| > capacity - old(currentPosition) || exists t | t in inputTokens :: t >= m.vocabulary
      ensures r.InvalidArgument? ==> Valid() && committed == old(committed)
      ensures r.Ok? ==>
                && Valid() && committed == old(committed) + inputTokens
                && Selected(Target(m), old(committed), inputTokens, r.value)
    {
      if || inputTokens == [] || |inputTokens| > MAXIMUM_BLOCK || (!tiled && |inputTokens| > 8)
         || |inputTokens| > capacity - currentPosition || exists t | t in inputTokens :: t >= m.vocabulary {
        return InvalidArgument;
      }
      var ok := Decode(inputTokens);
      if !ok { return DeviceError; }
      return Ok(tokens[..|inputTokens|]);
    }

    // ---- proposals

    /** What the proposer drafts behind a token and a row, with its committed slots before it. */
    ghost function DraftBehind(token: nat, condition: Row): nat
      reads this`mtpCache, this`mtpPosition
    {
      if mtpPosition <= |mtpCache| then Draft(m, mtpCache[..mtpPosition], token, condition) else 0
    }

    /** The chain of drafts behind a seed, conditioned on the snapshot. */
    ghost function ChainBehind(seed: nat, n: nat): (r: seq<nat>)
      reads this`mtpCache, this`mtpPosition, targetHiddenSnapshot
      ensures |targetHiddenSnapshot.cells| == 1 && mtpPosition <= |mtpCache| ==> |r| == n
    {
      if |targetHiddenSnapshot.cells| == 1 && mtpPosition <= |mtpCache|
      then Drafts(m, mtpCache[..mtpPosition], seed, targetHiddenSnapshot.cells[0], n)
      else []
    }

    /** One proposal: the token's proposer entry, and, unless no slot is given, the token drafted
        behind it. */
    method LaunchMtpProposal(token: nat, conditioning: Row, position: nat, output: Slot) returns (ok: bool)
      requires position < |mtpCache| && |hiddenB.cells| == MAXIMUM_BLOCK
      requires output.TokenSlot? ==> output.i < |tokens|
      modifies hiddenB, this`mtpCache, this`mtpHidden, this`tokens
      ensures |hiddenB.cells| == MAXIMUM_BLOCK
      ensures OnlyAt(old(mtpCache), mtpCache, position)
      ensures if output.NoSlot? then tokens == old(tokens) else OnlyAt(old(tokens), tokens, output.i)
      ensures ok ==> WrittenFor(m, mtpCache, position, ProposerSlot(token, conditioning))
      ensures ok && output.TokenSlot? ==>
                && mtpHidden == DraftRow(m, old(mtpCache[..position]), token, conditioning)
                && tokens[output.i] == Draft(m, old(mtpCache[..position]), token, conditioning)
    {
      ok := Enqueue();
      if !ok { return; }
      var embedded := m.embed(token);
      hiddenB.cells := hiddenB.cells[0 := embedded];
      ok := Enqueue();
      if !ok { return; }
      mtpCache := mtpCache[position := m.proposer.entry(embedded, conditioning, position)];
      if output.NoSlot? { return; }
      ok := Enqueue();
      if !ok { return; }
      assert mtpCache[..position + 1] == WithEntry(m, old(mtpCache[..position]), token, conditioning);
      mtpHidden := m.proposer.hidden(embedded, conditioning, position, mtpCache[..position + 1]);
      tokens := tokens[output.i := m.proposer.token(mtpHidden)];
    }

    /** A proposal in the next free slot, which extends what the proposer cache was written for. */
    method ExtendProposer(token: nat, conditioning: Row, output: Slot) returns (ok: bool)
      requires SlotsHold(m, mtpCache, mtpSlots) && |mtpSlots| < |mtpCache| && mtpPosition == |mtpSlots|
      requires |hiddenB.cells| == MAXIMUM_BLOCK && |tokens| == 64 && (output.TokenSlot? ==> output.i < 64)
      modifies hiddenB, this`mtpCache, this`mtpHidden, this`tokens, this`mtpSlots
      ensures |hiddenB.cells| == MAXIMUM_BLOCK && |tokens| == 64 && |mtpCache| == old(|mtpCache|)
      ensures SlotsHold(m, mtpCache, mtpSlots)
      ensures mtpSlots == if ok then old(mtpSlots) + [ProposerSlot(token, conditioning)] else old(mtpSlots)
      ensures ok && output.TokenSlot? ==> tokens[output.i] == old(DraftBehind(token, conditioning))
    {
      ghost var before := mtpCache;
      ok := LaunchMtpProposal(token, conditioning, mtpPosition, output);
      SlotsExtend(m, before, mtpCache, mtpSlots, []);
      assert mtpSlots + [] == mtpSlots;
      if ok {
        SlotsExtend(m, before, mtpCache, mtpSlots, [ProposerSlot(token, conditioning)]);
        mtpSlots := mtpSlots + [ProposerSlot(token, conditioning)];
      }
    }

    method ExtendSoundly(token: nat, conditioning: Row, output: Slot) returns (ok: bool)
      requires Sound() && ScratchSized() && mtpPosition == |mtpSlots| < |committed|
               && (output.TokenSlot? ==> output.i < 64)
      modifies hiddenB, this`mtpCache, this`mtpHidden, this`tokens, this`mtpSlots
      ensures Sound() && ScratchSized()
      ensures mtpSlots == if ok then old(mtpSlots) + [ProposerSlot(token, conditioning)] else old(mtpSlots)
      ensures ok && output.TokenSlot? ==> tokens[output.i] == old(DraftBehind(token, conditioning))
    {
      Open();
      ok := ExtendProposer(token, conditioning, output);
      Close();
    }

    /** One more committed proposer slot. */
    method ProposeNext(token: nat, conditioning: Row, output: Slot) returns (ok: bool)
      requires Sound() && ScratchSized() && mtpPosition == |mtpSlots| < |committed|
               && (output.TokenSlot? ==> output.i < 64)
      modifies hiddenB, this`mtpCache, this`mtpHidden, this`tokens, this`mtpPosition, this`mtpSlots
      ensures Sound() && ScratchSized() && mtpPosition == |mtpSlots|
      ensures mtpSlots == if ok then old(mtpSlots) + [ProposerSlot(token, conditioning)] else old(mtpSlots)
      ensures ok && output.TokenSlot? ==> tokens[output.i] == old(DraftBehind(token, conditioning))
    {
      ok := ExtendSoundly(token, conditioning, output);
      if ok {
        mtpPosition := mtpPosition + 1;
      }
    }

    /** Drafts behind one token of a known stream, keeping the proposer aligned with it.  Inside a chain
        the draft would be conditioned on the proposer's own row; between calls no chain is active. */
    method MtpDraft(nextToken: nat) returns (r: Outcome<nat>)
      requires Valid()
      modifies hiddenB, this`mtpCache, this`mtpHidden, this`tokens, this`mtpPosition, this`mtpSlots
      ensures r.InvalidArgument? <==>
                lastHidden == NullHidden || (!mtpChainActive && old(mtpPosition) + 1 != currentPosition)
                  || nextToken >= m.tokenizerVocabulary
      ensures Valid()
      ensures r.Ok? ==>
                && committed != [] && r.value == old(DraftBehind(nextToken, LastRow(m, committed)))
                && mtpSlots == old(mtpSlots) + [ProposerSlot(nextToken, LastRow(m, committed))]
      ensures !r.Ok? ==> mtpSlots == old(mtpSlots)
    {
      if || lastHidden == NullHidden || (!mtpChainActive && mtpPosition + 1 != currentPosition)
         || nextToken >= m.tokenizerVocabulary {
        return InvalidArgument;
      }
      var conditioning := if mtpChainActive then mtpHidden else lastHidden.buffer.cells[lastHidden.row];
      var ok := ProposeNext(nextToken, conditioning, TokenSlot(0));
      if !ok { return DeviceError; }
      return Ok(tokens[0]);
    }

    /** The proposal chain of a round: seed first, then each draft behind the one before it.  A
        replayed graph reads the seed and the positions from the device. */
    method ProposalChain(seed: nat, graphed: bool, base: nat, draftCount: nat)
      returns (ok: bool, ghost slots: seq<ProposerSlot>)
      requires draftCount < MAXIMUM_BLOCK && base + draftCount <= |mtpCache|
      requires |hiddenB.cells| == MAXIMUM_BLOCK && |targetHiddenSnapshot.cells| == 1 && ScratchSized()
               && hiddenB != targetHiddenSnapshot
      requires graphed ==> tokens[63] == seed && forall i | 0 <= i < draftCount :: graphMtpPositions[i] == base + i
      modifies hiddenB, this`mtpCache, this`mtpHidden, this`tokens
      ensures |hiddenB.cells| == MAXIMUM_BLOCK && ScratchSized() && tokens[63] == old(tokens[63])
      ensures |mtpCache| == old(|mtpCache|) && mtpCache[..base] == old(mtpCache[..base])
      ensures ok ==>
                && |slots| == draftCount
                && forall i | 0 <= i < draftCount ::
                     slots[i].token == ([seed] + tokens[32..])[i] && WrittenFor(m, mtpCache, base + i, slots[i])
      ensures ok ==> tokens[32..32 + draftCount]
                       == Drafts(m, old(mtpCache[..base]), seed, targetHiddenSnapshot.cells[0], draftCount)
    {
      slots := [];
      ghost var all, row := Drafts(m, mtpCache[..base], seed, targetHiddenSnapshot.cells[0], draftCount),
        targetHiddenSnapshot.cells[0];
      assert [] + all == all;
      for i := 0 to draftCount
        invariant |hiddenB.cells| == MAXIMUM_BLOCK && ScratchSized() && tokens[63] == old(tokens[63])
        invariant |mtpCache| == old(|mtpCache|) && mtpCache[..base] == old(mtpCache[..base])
        invariant ChainAt(m, all, seed, row, base, i, tokens, mtpCache, mtpHidden, slots)
      {
        ghost var selected, entries, hidden := tokens, mtpCache, mtpHidden;
        var token := if i == 0 then (if graphed then tokens[63] else seed) else tokens[32 + i - 1];
        var conditioning := if i == 0 then targetHiddenSnapshot.cells[0] else mtpHidden;
        var position := if graphed then graphMtpPositions[i] else base + i;
        ok := LaunchMtpProposal(token, conditioning, position, TokenSlot(32 + i));
        if !ok { return; }
        ChainNext(m, all, seed, row, base, i, selected, tokens, entries, mtpCache, hidden, mtpHidden, slots);
        slots := slots + [ProposerSlot(token, conditioning)];
      }
      ChainEnds(m, all, seed, row, base, tokens, mtpCache, mtpHidden, slots);
      ok := true;
    }

    // ---- speculative rounds

    /** The block went through the logging verifier, behind a seal, and its lanes selected the target's
        tokens. */
    ghost predicate Verified(p: GdnPointers, block: seq<nat>)
      reads this`caches, this`rollbackLog, this`tokens, this`committed
      reads hiddenA, hiddenB, p.conv, p.gdn, p.finalConv, p.finalGdn
    {
      && (forall seal {:trigger Seals.Opened(seal)} | Seals.Opened(seal) && seal == Seals.Layers ::
            Midway(p, hiddenA, |m.layers|, |committed|, After(m, committed), Embedded(m, block)))
      && 0 < |block| <= MAXIMUM_BLOCK && |block| <= |tokens|
      && Selected(Target(m), committed, block, tokens[..|block|])
    }

    /** The layers over a block into the shadow buffers: what is committed stays as it was. */
    method RunShadowed(p: GdnPointers, block: seq<nat>, base: nat) returns (ok: bool)
      requires Sound() && |block| <= MAXIMUM_BLOCK && base == |committed| && base + |block| <= capacity
      requires p == ShadowPointers(gdnStateParity)
      modifies this`caches, this`rollbackLog, hiddenA, hiddenB, p.finalConv, p.finalGdn
      ensures Sound()
      ensures ok ==> Midway(p, hiddenA, |m.layers|, |committed|, After(m, committed), Embedded(m, block))
    {
      var final;
      ghost var before := caches;
      Open();
      ok, final := RunBlock(p, block, base);
      SyncedKept(m, index, capacity, After(m, committed), |committed|, convStates.cells, gdnStates.cells, before,
                 caches);
      Close();
    }

    /** Embedding gathers, layers and selection for the seed and the drafts on the device. */
    method EnqueueVerifierBody(seed: nat, graphed: bool, p: GdnPointers, draftCount: nat, base: nat)
      returns (ok: bool, ghost block: seq<nat>)
      requires Sound() && ScratchSized() && draftCount < MAXIMUM_BLOCK && base == |committed|
               && base + draftCount + 1 <= capacity
      requires graphed ==> tokens[63] == seed
      requires p == ShadowPointers(gdnStateParity)
      modifies this`caches, this`rollbackLog, this`tokens, hiddenA, hiddenB, p.finalConv, p.finalGdn
      ensures Sound() && ScratchSized() && tokens[32..] == old(tokens[32..])
      ensures block == [seed] + old(tokens)[32..32 + draftCount]
      ensures ok ==> Verified(p, block)
    {
      var inputs := [if graphed then tokens[63] else seed] + tokens[32..32 + draftCount];
      block := inputs;
      ok := RunShadowed(p, inputs, base);
      if ok {
        ok := Enqueue();
        if ok {
          SelectBlock(p, |inputs|, block);
        }
      }
    }

    /** The selection over a block that went through the layers. */
    method SelectBlock(ghost p: GdnPointers, batch: nat, ghost block: seq<nat>)
      requires Sound() && ScratchSized() && 0 < batch == |block| <= MAXIMUM_BLOCK
      requires Midway(p, hiddenA, |m.layers|, |committed|, After(m, committed), Embedded(m, block))
      modifies this`tokens
      ensures Sound() && ScratchSized() && tokens[32..] == old(tokens[32..]) && Verified(p, block)
    {
      SelectLanes(batch, committed, block);
    }

    /** What a completed round has verified: the seed and its drafts, each proposer slot but the
        last draft's written. */
    ghost predicate RoundVerified(p: GdnPointers, seed: nat, draftCount: nat, block: seq<nat>, slots: seq<ProposerSlot>)
      reads this`caches, this`rollbackLog, this`tokens, this`committed, this`mtpCache, this`mtpSlots
      reads hiddenA, hiddenB, p.conv, p.gdn, p.finalConv, p.finalGdn
    {
      && |tokens| == 64 && 0 < draftCount < MAXIMUM_BLOCK && block == [seed] + tokens[32..32 + draftCount]
      && Verified(p, block)
      && SlotsWritten(m, mtpCache, |mtpSlots|, slots, block[..draftCount])
    }

    /** The proposal chain above the committed slots, which stay as they were. */
    method Propose(seed: nat, graphed: bool, draftCount: nat) returns (ok: bool, ghost slots: seq<ProposerSlot>)
      requires SlotsHold(m, mtpCache, mtpSlots) && mtpPosition == |mtpSlots| && mtpPosition + draftCount <= |mtpCache|
      requires draftCount < MAXIMUM_BLOCK && ScratchSized()
      requires |hiddenB.cells| == MAXIMUM_BLOCK && |targetHiddenSnapshot.cells| == 1 && hiddenB != targetHiddenSnapshot
      requires graphed ==>
                 && tokens[63] == seed
                 && forall i | 0 <= i < draftCount :: graphMtpPositions[i] == mtpPosition + i
      modifies hiddenB, this`mtpCache, this`mtpHidden, this`tokens
      ensures |hiddenB.cells| == MAXIMUM_BLOCK && ScratchSized() && tokens[63] == old(tokens[63])
      ensures |mtpCache| == old(|mtpCache|) && SlotsHold(m, mtpCache, mtpSlots)
      ensures ok ==> SlotsWritten(m, mtpCache, |mtpSlots|, slots, ([seed] + tokens[32..])[..draftCount])
      ensures ok ==> tokens[32..32 + draftCount] == old(ChainBehind(seed, draftCount))
    {
      ghost var before := mtpCache;
      ok, slots := ProposalChain(seed, graphed, mtpPosition, draftCount);
      SlotsExtend(m, before, mtpCache, mtpSlots, []);
      assert mtpSlots + [] == mtpSlots;
    }

    /** One round of device work, direct or replayed.  Whatever launch the device refuses, the
        committed state is as it was. */
    method ProposeAndVerify(seed: nat, graphed: bool, p: GdnPointers, draftCount: nat, base: nat)
      returns (ok: bool, ghost block: seq<nat>, ghost slots: seq<ProposerSlot>)
      requires Sound() && ScratchSized() && 0 < draftCount < MAXIMUM_BLOCK && base == |committed|
               && base + draftCount + 1 <= capacity
      requires mtpPosition == |mtpSlots|
      requires graphed ==>
                 && tokens[63] == seed
                 && forall i | 0 <= i < draftCount :: graphMtpPositions[i] == mtpPosition + i
      requires p == ShadowPointers(gdnStateParity)
      modifies this`caches, this`rollbackLog, this`tokens, this`mtpCache, this`mtpHidden, hiddenA, hiddenB, p.finalConv,
               p.finalGdn
      ensures Sound() && ScratchSized()
      ensures ok ==> RoundVerified(p, seed, draftCount, block, slots)
      ensures ok ==> tokens[32..32 + draftCount] == old(ChainBehind(seed, draftCount))
    {
      ok, slots := ProposeSoundly(seed, graphed, draftCount);
      block := [];
      if ok {
        ghost var drafts := tokens[32..];
        DraftTokens(seed, tokens, draftCount);
        ok, block := EnqueueVerifierBody(seed, graphed, p, draftCount, base);
        assert tokens[32..32 + draftCount] == drafts[..draftCount];
      }
    }

    lemma DraftTokens(seed: nat, all: seq<nat>, draftCount: nat)
      requires |all| == 64 && draftCount < MAXIMUM_BLOCK
      ensures ([seed] + all[32..])[..draftCount] == ([seed] + all[32..32 + draftCount])[..draftCount]
      ensures all[32..32 + draftCount] == all[32..][..draftCount]
    {
    }

    /** The proposal chain inside a round. */
    method ProposeSoundly(seed: nat, graphed: bool, draftCount: nat) returns (ok: bool, ghost slots: seq<ProposerSlot>)
      requires Sound() && ScratchSized() && 0 < draftCount < MAXIMUM_BLOCK && |committed| + draftCount + 1 <= capacity
      requires mtpPosition == |mtpSlots|
      requires graphed ==>
                 && tokens[63] == seed
                 && forall i | 0 <= i < draftCount :: graphMtpPositions[i] == mtpPosition + i
      modifies hiddenB, this`mtpCache, this`mtpHidden, this`tokens
      ensures Sound() && ScratchSized() && tokens[63] == old(tokens[63])
      ensures ok ==> SlotsWritten(m, mtpCache, |mtpSlots|, slots, ([seed] + tokens[32..])[..draftCount])
      ensures ok ==> tokens[32..32 + draftCount] == old(ChainBehind(seed, draftCount))
    {
      Open();
      ok, slots := Propose(seed, graphed, draftCount);
      Close();
    }

    /** The seed and the positions of a round, where a replayed graph reads them. */
    method UploadRound(seed: nat, baseTarget: nat, baseMtp: nat, draftCount: nat)
      requires ScratchSized() && draftCount < MAXIMUM_BLOCK
      modifies this`tokens, this`graphBasePosition, this`graphMtpPositions
      ensures ScratchSized() && tokens[63] == seed && graphBasePosition == baseTarget
      ensures forall i | 0 <= i < draftCount :: graphMtpPositions[i] == baseMtp + i
    {
      tokens := tokens[63 := seed];
      graphBasePosition := baseTarget;
      graphMtpPositions := Overwrite(graphMtpPositions, 0, seq(draftCount, i => baseMtp + i));
      assert forall i | 0 <= i < draftCount :: graphMtpPositions[i] == graphMtpPositions[..draftCount][i];
    }

    /** Replays the graph of the current parity; the seed and the positions reach it through the
        device. */
    method LaunchPreparedSpeculativeGraph(seed: nat, baseTarget: nat, baseMtp: nat)
      returns (ok: bool, ghost block: seq<nat>, ghost slots: seq<ProposerSlot>)
      requires Sound() && ScratchSized() && 2 <= graphBatch && baseTarget == |committed|
               && baseTarget + graphBatch <= capacity
      requires baseMtp == mtpPosition == |mtpSlots|
      modifies this`caches, this`rollbackLog, this`tokens, this`mtpCache, this`mtpHidden
      modifies this`graphBasePosition, this`graphMtpPositions, hiddenA, hiddenB, convSnapshot, gdnSnapshot
      ensures Sound() && ScratchSized()
      ensures ok ==> RoundVerified(ShadowPointers(gdnStateParity), seed, graphBatch - 1, block, slots)
      ensures ok ==> tokens[32..32 + (graphBatch - 1)] == old(ChainBehind(seed, graphBatch - 1))
    {
      Open();
      UploadRound(seed, baseTarget, baseMtp, graphBatch - 1);
      var graph := speculativeGraphs[if gdnStateParity then 1 else 0];
      ok, block, slots := ProposeAndVerify(seed, true, graph, graphBatch - 1, graphBasePosition);
    }

    /** The same round launched step by step. */
    method LaunchDirect(seed: nat, draftCount: nat)
      returns (ok: bool, ghost block: seq<nat>, ghost slots: seq<ProposerSlot>)
      requires Sound() && ScratchSized() && 0 < draftCount < MAXIMUM_BLOCK
      requires currentPosition == |committed| && currentPosition + draftCount + 1 <= capacity
               && mtpPosition == |mtpSlots|
      modifies this`caches, this`rollbackLog, this`tokens, this`mtpCache, this`mtpHidden, hiddenA, hiddenB,
               convSnapshot, gdnSnapshot
      ensures Sound() && ScratchSized()
      ensures ok ==> RoundVerified(ShadowPointers(gdnStateParity), seed, draftCount, block, slots)
      ensures ok ==> tokens[32..32 + draftCount] == old(ChainBehind(seed, draftCount))
    {
      ok, block, slots := ProposeAndVerify(seed, false, Pointers(true), draftCount, currentPosition);
    }

    /** The restore kernels: the live buffers, untouched by the round, replay n logged tokens. */
    method RestoreLoggedPrefix(ghost p: GdnPointers, ghost block: seq<nat>, n: nat)
      requires Sound() && Verified(p, block) && n <= |block| && p == ShadowPointers(gdnStateParity)
      modifies convStates, gdnStates
      ensures Sized()
      ensures Synced(m, index, capacity, After(m, committed + block[..n]), |committed| + n, convStates.cells,
                     gdnStates.cells, caches)
    {
      assert Seals.Opened(Seals.Layers);
      Open();
      PrefixCommits(m, index, capacity, committed, block, n, convStates.cells, gdnStates.cells,
                    p.finalConv.cells, p.finalGdn.cells, caches, rollbackLog);
      var restored := RestoreAll(m.arith, convStates.cells, gdnStates.cells, rollbackLog, n);
      convStates.cells := seq(|restored|, r requires 0 <= r < |restored| => restored[r].conv);
      gdnStates.cells := seq(|restored|, r requires 0 <= r < |restored| => restored[r].heads);
    }

    /** What the live buffers and the proposer cache already hold becomes what is committed. */
    method Recommit(ghost block: seq<nat>, ghost slots: seq<ProposerSlot>, ghost tokens: seq<nat>)
      requires Outline() && Wired() && ParityHolds() && Sized()
      requires Synced(m, index, capacity, After(m, committed + block), |committed + block|, convStates.cells,
                      gdnStates.cells, caches)
      requires SlotsHold(m, mtpCache, mtpSlots + slots)
      requires |mtpSlots| + |slots| <= |committed| + |block| <= capacity
      requires |slots| == |tokens| && forall i | 0 <= i < |slots| :: slots[i].token == tokens[i]
      modifies this`committed, this`mtpSlots
      ensures Sound() && committed == old(committed) + block && Extends(old(mtpSlots), mtpSlots, tokens)
    {
      committed, mtpSlots := committed + block, mtpSlots + slots;
      Close();
    }

    /** What a verified round says about n of its tokens: the row of the last one. */
    lemma PrefixRow(p: GdnPointers, block: seq<nat>, n: nat)
      requires Verified(p, block) && 0 < n <= |block|
      ensures n <= |hiddenA.cells| && hiddenA.cells[n - 1] == LastRow(m, committed + block[..n])
      ensures |committed| + |block| <= capacity
    {
      assert Seals.Opened(Seals.Layers);
      LastLane(m, committed, block, n, hiddenA.cells);
    }

    /** And the proposer slots behind which they were drafted. */
    lemma PrefixSlots(block: seq<nat>, slots: seq<ProposerSlot>, n: nat)
      requires Sound() && 0 < n <= |block| && |committed| + |block| <= capacity
      requires SlotsWritten(m, mtpCache, |mtpSlots|, slots, block[..|block| - 1])
      ensures |slots| == |block| - 1 && forall i | 0 <= i < |slots| :: slots[i].token == block[i]
      ensures SlotsHold(m, mtpCache, mtpSlots + slots[..if n < |block| then n else |block| - 1])
    {
      Open();
      SlotsExtend(m, mtpCache, mtpCache, mtpSlots, slots[..if n < |block| then n else |block| - 1]);
    }

    lemma PrefixRows(p: GdnPointers, block: seq<nat>, slots: seq<ProposerSlot>, n: nat)
      requires Sound() && Verified(p, block) && 0 < n <= |block| && p == ShadowPointers(gdnStateParity)
      requires SlotsWritten(m, mtpCache, |mtpSlots|, slots, block[..|block| - 1])
      ensures hiddenA.cells[n - 1] == LastRow(m, committed + block[..n])
      ensures |slots| == |block| - 1 && forall i | 0 <= i < |slots| :: slots[i].token == block[i]
      ensures SlotsHold(m, mtpCache, mtpSlots + slots[..if n < |block| then n else |block| - 1])
      ensures Outline() && Wired() && ParityHolds() && Sized() && |committed| + |block| <= capacity
    {
      PrefixRow(p, block, n);
      PrefixSlots(block, slots, n);
      Open();
    }

    method AcceptPrefix(ghost p: GdnPointers, ghost block: seq<nat>, ghost slots: seq<ProposerSlot>, n: nat)
      requires Sound() && Verified(p, block) && 0 < n < |block| && p == ShadowPointers(gdnStateParity)
      requires SlotsWritten(m, mtpCache, |mtpSlots|, slots, block[..|block| - 1]) && |mtpSlots| + |block| <= capacity
      modifies this`committed, this`mtpSlots, convStates, gdnStates
      ensures Sound() && committed == old(committed) + block[..n]
      ensures hiddenA.cells[n - 1] == LastRow(m, committed)
      ensures Extends(old(mtpSlots), mtpSlots, block[..n])
    {
      PrefixRows(p, block, slots, n);
      RestoreLoggedPrefix(p, block, n);
      Recommit(block[..n], slots[..n], block[..n]);
    }

    /** Partial accept: n tokens of the block are committed, the rest is forgotten. */
    method CommitPrefix(ghost p: GdnPointers, ghost block: seq<nat>, ghost slots: seq<ProposerSlot>, n: nat)
      requires Sound() && ScratchSized() && Verified(p, block) && 0 < n < |block| && p == ShadowPointers(gdnStateParity)
      requires SlotsWritten(m, mtpCache, |mtpSlots|, slots, block[..|block| - 1]) && |mtpSlots| + |block| <= capacity
      requires currentPosition == |committed| && mtpPosition == |mtpSlots|
      modifies this`committed, this`mtpSlots, this`currentPosition, this`mtpPosition, this`lastHidden
      modifies this`mtpChainActive, convStates, gdnStates
      ensures Valid() && committed == old(committed) + block[..n] && Extends(old(mtpSlots), mtpSlots, block[..n])
    {
      AcceptPrefix(p, block, slots, n);
      Publish(currentPosition + n, mtpPosition + n, n - 1);
    }

    /** The host state of the decoding position. */
    method MoveTo(position: nat, proposed: nat, hidden: HiddenPointer, chain: bool)
      modifies this`currentPosition, this`mtpPosition, this`lastHidden, this`mtpChainActive
      ensures currentPosition == position && mtpPosition == proposed && lastHidden == hidden && mtpChainActive == chain
    {
      currentPosition, mtpPosition, lastHidden, mtpChainActive := position, proposed, hidden, chain;
    }

    /** The host positions and the conditioning pointer catch up with the committed stream. */
    method Publish(position: nat, proposed: nat, row: nat)
      requires Sound() && ScratchSized() && committed != [] && row < MAXIMUM_BLOCK
               && hiddenA.cells[row] == LastRow(m, committed)
      requires position == |committed| && proposed == |mtpSlots|
      modifies this`currentPosition, this`mtpPosition, this`lastHidden, this`mtpChainActive
      ensures Valid() && lastHidden == HiddenAt(hiddenA, row)
    {
      MoveTo(position, proposed, HiddenAt(hiddenA, row), false);
    }

    /** Full accept: the shadow becomes the live state and the parity flips. */
    method SwapShadow()
      requires ParityHolds()
      modifies this`convStates, this`convSnapshot, this`gdnStates, this`gdnSnapshot, this`gdnStateParity
      ensures ParityHolds() && gdnStateParity == !old(gdnStateParity)
      ensures convStates == old(convSnapshot) && gdnStates == old(gdnSnapshot)
    {
      convStates, convSnapshot := convSnapshot, convStates;
      gdnStates, gdnSnapshot := gdnSnapshot, gdnStates;
      gdnStateParity := !gdnStateParity;
    }

    /** A whole verified round: its final state regions hold the states of the longer stream. */
    lemma BlockStates(p: GdnPointers, block: seq<nat>)
      requires Sound() && Verified(p, block) && p == ShadowPointers(gdnStateParity)
      ensures Synced(m, index, capacity, After(m, committed + block), |committed + block|, p.finalConv.cells,
                     p.finalGdn.cells, caches)
    {
      assert Seals.Opened(Seals.Layers);
      BlockCommits(m, index, capacity, committed, block, p.conv.cells, p.gdn.cells, p.finalConv.cells,
                   p.finalGdn.cells, caches);
    }

    method AcceptAll(ghost p: GdnPointers, ghost block: seq<nat>, ghost slots: seq<ProposerSlot>)
      requires Sound() && Verified(p, block) && p == ShadowPointers(gdnStateParity)
      requires SlotsWritten(m, mtpCache, |mtpSlots|, slots, block[..|block| - 1]) && |mtpSlots| + |block| <= capacity
      modifies this`convStates, this`convSnapshot, this`gdnStates, this`gdnSnapshot, this`gdnStateParity
      modifies this`committed, this`mtpSlots
      ensures Sound() && committed == old(committed) + block
      ensures hiddenA.cells[|block| - 1] == LastRow(m, committed)
      ensures Extends(old(mtpSlots), mtpSlots, block[..|block| - 1])
    {
      PrefixRows(p, block, slots, |block|);
      BlockStates(p, block);
      assert block[..|block|] == block && slots[..|block| - 1] == slots;
      SwapShadow();
      Recommit(block, slots, block[..|block| - 1]);
    }

    /** The row before the one last_hidden points at. */
    function RowBefore(): Row
      requires lastHidden.HiddenAt? && 0 < lastHidden.row <= |lastHidden.buffer.cells|
      reads this`lastHidden, lastHidden.buffer
    {
      lastHidden.buffer.cells[lastHidden.row - 1]
    }

    /** The proposer cache alone advances through the last accepted draft, conditioned on the
        target's own row of the token before it. */
    method AdvanceProposer(token: nat)
      returns (ok: bool)
      requires Valid() && |mtpSlots| < |committed| && lastHidden == HiddenAt(hiddenA, lastHidden.row)
               && 0 < lastHidden.row
      modifies hiddenB, this`mtpCache, this`mtpHidden, this`tokens, this`mtpPosition, this`mtpSlots
      ensures Valid() && if ok then Extends(old(mtpSlots), mtpSlots, [token]) else mtpSlots == old(mtpSlots)
      ensures ok ==> mtpSlots[|mtpSlots| - 1].condition == old(RowBefore())
    {
      ok := ProposeNext(token, hiddenA.cells[lastHidden.row - 1], NoSlot);
    }

    /** The whole block is committed, and the positions with it; the proposer is one slot behind. */
    method AcceptBlock(ghost p: GdnPointers, ghost block: seq<nat>, ghost slots: seq<ProposerSlot>, draftCount: nat,
                       ghost front: seq<nat>)
      requires Sound() && ScratchSized() && Verified(p, block) && p == ShadowPointers(gdnStateParity)
      requires |block| == draftCount + 1 && 0 < draftCount < MAXIMUM_BLOCK && front == committed + block[..draftCount]
      requires SlotsWritten(m, mtpCache, |mtpSlots|, slots, block[..draftCount]) && |mtpSlots| + |block| <= capacity
      requires currentPosition == |committed| && mtpPosition == |mtpSlots|
      modifies this`convStates, this`convSnapshot, this`gdnStates, this`gdnSnapshot, this`gdnStateParity
      modifies this`committed, this`currentPosition, this`lastHidden, this`mtpChainActive, this`mtpPosition,
               this`mtpSlots
      ensures Valid() && committed == old(committed) + block && lastHidden == HiddenAt(hiddenA, draftCount)
      ensures Extends(old(mtpSlots), mtpSlots, block[..draftCount]) && |mtpSlots| < |committed|
      ensures front != [] && hiddenA.cells[draftCount - 1] == LastRow(m, front)
    {
      PrefixRow(p, block, draftCount);
      AcceptAll(p, block, slots);
      Publish(currentPosition + draftCount + 1, mtpPosition + draftCount, draftCount);
    }

    /** The same, for the tokens whose last row that is. */
    method CatchUp(token: nat, ghost before: seq<nat>) returns (ok: bool)
      requires Valid() && |mtpSlots| < |committed| && lastHidden == HiddenAt(hiddenA, lastHidden.row)
               && 0 < lastHidden.row
      requires before != [] && hiddenA.cells[lastHidden.row - 1] == LastRow(m, before)
      modifies hiddenB, this`mtpCache, this`mtpHidden, this`tokens, this`mtpPosition, this`mtpSlots
      ensures Valid() && if ok then Extends(old(mtpSlots), mtpSlots, [token]) else mtpSlots == old(mtpSlots)
      ensures ok ==> CaughtUp(m, mtpSlots, before)
    {
      ok := AdvanceProposer(token);
    }

    /** Full accept: the whole block is committed; the proposer then catches up by one slot. */
    method CommitAll(ghost p: GdnPointers, ghost block: seq<nat>, ghost slots: seq<ProposerSlot>, draftCount: nat,
                     lastDraft: nat)
      returns (ok: bool)
      requires Sound() && ScratchSized() && Verified(p, block) && p == ShadowPointers(gdnStateParity)
      requires |block| == draftCount + 1 && 0 < draftCount < MAXIMUM_BLOCK && block[draftCount] == lastDraft
      requires SlotsWritten(m, mtpCache, |mtpSlots|, slots, block[..draftCount]) && |mtpSlots| + |block| <= capacity
      requires currentPosition == |committed| && mtpPosition == |mtpSlots|
      modifies this`convStates, this`convSnapshot, this`gdnStates, this`gdnSnapshot, this`gdnStateParity
      modifies this`committed, this`currentPosition, this`lastHidden, this`mtpChainActive
      modifies hiddenB, this`mtpCache, this`mtpHidden, this`tokens, this`mtpPosition, this`mtpSlots
      ensures Valid() && committed == old(committed) + block
      ensures ok ==> Extends(old(mtpSlots), mtpSlots, block)
      ensures ok ==> CaughtUp(m, mtpSlots, old(committed) + block[..draftCount])
    {
      ghost var front := committed + block[..draftCount];
      AcceptBlock(p, block, slots, draftCount, front);
      ghost var between := mtpSlots;
      ok := CatchUp(lastDraft, front);
      if ok {
        ExtendsOn(old(mtpSlots), between, mtpSlots, block);
      }
    }

    /** Commits the accepted drafts. */
    method CommitRound(ghost p: GdnPointers, seed: nat, draftCount: nat, accepted: nat, lastDraft: nat,
                       ghost block: seq<nat>, ghost slots: seq<ProposerSlot>) returns (ok: bool)
      requires Sound() && ScratchSized() && currentPosition == |committed| && mtpPosition == |mtpSlots|
      requires mtpPosition + 1 == currentPosition && currentPosition + draftCount + 1 <= capacity
      requires p == ShadowPointers(gdnStateParity) && RoundVerified(p, seed, draftCount, block, slots)
      requires accepted <= draftCount && lastDraft == block[draftCount]
      modifies this`convStates, this`convSnapshot, this`gdnStates, this`gdnSnapshot, this`gdnStateParity
      modifies this`committed, this`currentPosition, this`lastHidden, this`mtpChainActive, convStates, gdnStates
      modifies hiddenB, this`mtpCache, this`mtpHidden, this`tokens, this`mtpPosition, this`mtpSlots
      ensures Valid() && committed == old(committed) + block[..accepted + 1]
      ensures ok ==> Extends(old(mtpSlots), mtpSlots, block[..accepted + 1])
      ensures !ok ==> accepted == draftCount
    {
      if accepted != draftCount {
        CommitPrefix(p, block, slots, accepted + 1);
        ok := true;
      } else {
        assert block[..accepted + 1] == block;
        ok := CommitAll(p, block, slots, draftCount, lastDraft);
      }
    }

    /** The host state of a round that was verified but failed before it was committed: the positions
        have passed the block, and no restore puts them back.  A failed download leaves the chain
        active and the pointer at the last verified row; before a failed restore the source has
        already pointed it at the snapshot. */
    ghost predicate Abandoned(position: nat, proposed: nat, draftCount: nat)
      reads this`currentPosition, this`mtpPosition, this`mtpChainActive, this`lastHidden
    {
      && currentPosition == position + draftCount + 1 && mtpPosition == proposed + draftCount
      && lastHidden == if mtpChainActive then HiddenAt(hiddenA, draftCount) else HiddenAt(targetHiddenSnapshot, 0)
    }

    /** A download that fails after the verification: what is committed is still in place. */
    method AbandonDownload(draftCount: nat)
      requires Sound()
      modifies this`currentPosition, this`mtpPosition, this`lastHidden, this`mtpChainActive
      ensures Sound() && mtpChainActive && Abandoned(old(currentPosition), old(mtpPosition), draftCount)
    {
      MoveTo(currentPosition + draftCount + 1, mtpPosition + draftCount, HiddenAt(hiddenA, draftCount), true);
    }

    /** A restore that fails: the live buffers hold anything. */
    method AbandonRestore(draftCount: nat)
      modifies this`currentPosition, this`mtpPosition, this`lastHidden, this`mtpChainActive, convStates, gdnStates
      ensures !mtpChainActive && Abandoned(old(currentPosition), old(mtpPosition), draftCount)
    {
      MoveTo(currentPosition + draftCount + 1, mtpPosition + draftCount, HiddenAt(targetHiddenSnapshot, 0), false);
      var conv: seq<seq<seq<Half>>>, gdn: seq<seq<seq<Float>>> := *, *;
      convStates.cells := conv;
      gdnStates.cells := gdn;
    }

    /** Commits the counted drafts; the last launch of a full accept may fail. */
    method SettleRound(seed: nat, draftCount: nat, ghost drafts: seq<nat>, ghost block: seq<nat>,
                       ghost slots: seq<ProposerSlot>, result: SpeculativeStepResult, lastDraft: nat)
      returns (ok: bool)
      requires Sound() && ScratchSized() && currentPosition == |committed| && mtpPosition == |mtpSlots|
      requires mtpPosition + 1 == currentPosition && currentPosition + draftCount + 1 <= capacity
      requires RoundVerified(ShadowPointers(gdnStateParity), seed, draftCount, block, slots)
      requires result.acceptedDrafts <= draftCount == |drafts| && lastDraft == block[draftCount]
      requires Settled(Target(m), committed, block, seed, drafts, result)
      modifies this`convStates, this`convSnapshot, this`gdnStates, this`gdnSnapshot, this`gdnStateParity
      modifies this`committed, this`currentPosition, this`lastHidden, this`mtpChainActive, convStates, gdnStates
      modifies hiddenB, this`mtpCache, this`mtpHidden, this`tokens, this`mtpPosition, this`mtpSlots
      ensures Valid() && RoundCommitted(Target(m), old(committed), committed, seed, drafts, result)
      ensures ok ==> Extends(old(mtpSlots), mtpSlots, [seed] + result.tokens[..result.acceptedDrafts])
      ensures !ok ==> result.acceptedDrafts == draftCount
    {
      ok := CommitRound(ShadowPointers(gdnStateParity), seed, draftCount, result.acceptedDrafts, lastDraft, block,
                        slots);
    }

    /** Counts the accepted drafts and commits them, unless a download or the restore of a partial
        accept fails. */
    method FinishRound(seed: nat, draftCount: nat, ghost block: seq<nat>, ghost slots: seq<ProposerSlot>)
      returns (r: Outcome<SpeculativeStepResult>)
      requires Sound() && ScratchSized() && currentPosition == |committed| && mtpPosition == |mtpSlots|
      requires mtpPosition + 1 == currentPosition && currentPosition + draftCount + 1 <= capacity
      requires RoundVerified(ShadowPointers(gdnStateParity), seed, draftCount, block, slots)
      modifies this`convStates, this`convSnapshot, this`gdnStates, this`gdnSnapshot, this`gdnStateParity
      modifies this`committed, this`currentPosition, this`lastHidden, this`mtpChainActive, convStates, gdnStates
      modifies hiddenB, this`mtpCache, this`mtpHidden, this`tokens, this`mtpPosition, this`mtpSlots
      ensures !r.InvalidArgument? && (r.Ok? ==> Valid())
      ensures r.Ok? ==> RoundCommitted(Target(m), old(committed), committed, seed, old(tokens[32..32 + draftCount]),
                                       r.value)
      ensures r.Ok? ==> Extends(old(mtpSlots), mtpSlots, [seed] + r.value.tokens[..r.value.acceptedDrafts])
      ensures r.DeviceError? ==>
                || (Valid() && committed == old(committed) + [seed]
                    + Greedy(Target(m), old(committed), seed, draftCount))
                || (Abandoned(old(currentPosition), old(mtpPosition), draftCount) && committed == old(committed)
                    && (mtpChainActive ==> Sound()))
    {
      var downloaded: bool := *;
      if !downloaded {
        AbandonDownload(draftCount);
        return DeviceError;
      }
      ghost var drafts := tokens[32..32 + draftCount];
      var result, lastDraft := ReadRound(seed, draftCount, Target(m), committed);
      if result.acceptedDrafts != draftCount {
        var restored: bool := *;
        if !restored {
          AbandonRestore(draftCount);
          return DeviceError;
        }
      }
      var ok := SettleRound(seed, draftCount, drafts, block, slots, result, lastDraft);
      if !ok {
        AllAccepted(Target(m), old(committed), committed, seed, drafts, result);
        return DeviceError;
      }
      return Ok(result);
    }

    /** Downloads the drafts and the target's tokens and counts the accepted drafts. */
    method ReadRound(seed: nat, draftCount: nat, ghost next: Predictor, ghost context: seq<nat>)
      returns (r: SpeculativeStepResult, lastDraft: nat)
      requires |tokens| == 64 && 0 < draftCount < MAXIMUM_BLOCK
      requires Selected(next, context, [seed] + tokens[32..32 + draftCount], tokens[..draftCount + 1])
      ensures var drafts := tokens[32..32 + draftCount];
              lastDraft == ([seed] + drafts)[draftCount] && Settled(next, context, [seed] + drafts, seed, drafts, r)
    {
      var drafts, outputs := tokens[32..32 + draftCount], tokens[..draftCount + 1];
      var accepted := CountAccepted(next, context, seed, drafts, outputs);
      r := SpeculativeStepResult(drafts[..accepted] + [outputs[accepted]], draftCount, accepted);
      lastDraft := drafts[draftCount - 1];
    }

    method SnapshotTargetState()
      requires Conditioned() && lastHidden.HiddenAt? && |targetHiddenSnapshot.cells| == 1
      modifies targetHiddenSnapshot
      ensures targetHiddenSnapshot.cells == [LastRow(m, committed)] && Conditioned()
    {
      targetHiddenSnapshot.cells := [lastHidden.buffer.cells[lastHidden.row]];
    }

    /** The launches of one round, from a prepared graph when the depth is the prepared one. */
    method LaunchRound(seed: nat, draftCount: nat)
      returns (ok: bool, ghost block: seq<nat>, ghost slots: seq<ProposerSlot>)
      requires Sound() && ScratchSized() && 0 < draftCount < MAXIMUM_BLOCK
      requires currentPosition == |committed| && currentPosition + draftCount + 1 <= capacity
               && mtpPosition == |mtpSlots|
      modifies this`caches, this`rollbackLog, this`tokens, this`mtpCache, this`mtpHidden
      modifies this`graphBasePosition, this`graphMtpPositions, hiddenA, hiddenB, convSnapshot, gdnSnapshot
      ensures Sound() && ScratchSized()
      ensures ok ==> RoundVerified(ShadowPointers(gdnStateParity), seed, draftCount, block, slots)
      ensures ok ==> tokens[32..32 + draftCount] == old(ChainBehind(seed, draftCount))
    {
      if draftCount + 1 == graphBatch {
        ok, block, slots := LaunchPreparedSpeculativeGraph(seed, currentPosition, mtpPosition);
      } else {
        ok, block, slots := LaunchDirect(seed, draftCount);
      }
    }

    /** The conditioning row is the snapshot again. */
    method RestoreTargetState()
      requires Sound() && ScratchSized() && currentPosition == |committed| && mtpPosition == |mtpSlots|
      requires committed != [] && targetHiddenSnapshot.cells == [LastRow(m, committed)]
      modifies this`lastHidden, this`mtpChainActive
      ensures Valid()
    {
      lastHidden, mtpChainActive := HiddenAt(targetHiddenSnapshot, 0), false;
    }

    /** What a round drafts behind a seed and the last committed token's row. */
    ghost function RoundDrafts(seed: nat, n: nat): (r: seq<nat>)
      reads this`mtpCache, this`mtpPosition, this`committed
      ensures committed != [] && mtpPosition <= |mtpCache| ==> |r| == n
    {
      if committed != [] && mtpPosition <= |mtpCache|
      then Drafts(m, mtpCache[..mtpPosition], seed, LastRow(m, committed), n) else []
    }

    /** Drafts, verifies and commits the longest prefix of the drafts that the target agrees with.  The
        result is the greedy stream whatever was drafted.  A
        launch the device refuses before the commit leaves the committed state as it was; a failure
        between the verification and the commit leaves positions that no further round accepts. */
    method SpeculativeStep(seed: nat, draftCount: nat) returns (r: Outcome<SpeculativeStepResult>)
      requires Valid()
      modifies this`caches, this`rollbackLog, this`tokens, this`mtpCache, this`mtpHidden
      modifies this`graphBasePosition, this`graphMtpPositions, hiddenA, hiddenB, targetHiddenSnapshot, conv0, conv1,
               gdn0, gdn1
      modifies this`convStates, this`convSnapshot, this`gdnStates, this`gdnSnapshot, this`gdnStateParity
      modifies this`committed, this`currentPosition, this`lastHidden, this`mtpPosition, this`mtpSlots
      modifies this`mtpChainActive
      ensures r.InvalidArgument? <==>
                || old(lastHidden) == NullHidden || draftCount == 0 || draftCount >= MAXIMUM_BLOCK
                   || seed >= m.tokenizerVocabulary
                || old(mtpPosition) + 1 != old(currentPosition) || draftCount + 1 > capacity - old(currentPosition)
      ensures !r.DeviceError? ==> Valid()
      ensures r.InvalidArgument? ==> committed == old(committed) && mtpSlots == old(mtpSlots)
      ensures r.Ok? ==> RoundCommitted(Target(m), old(committed), committed, seed, old(RoundDrafts(seed, draftCount)),
                                       r.value)
      ensures r.Ok? ==> Extends(old(mtpSlots), mtpSlots, [seed] + r.value.tokens[..r.value.acceptedDrafts])
      ensures r.DeviceError? ==>
                || (Valid() && committed == old(committed) && mtpSlots == old(mtpSlots))
                || (Valid() && committed == old(committed) + [seed]
                    + Greedy(Target(m), old(committed), seed, draftCount))
                || (Abandoned(old(currentPosition), old(mtpPosition), draftCount) && committed == old(committed)
                    && (mtpChainActive ==> Sound()) && mtpPosition + 1 != currentPosition)
    {
      if || lastHidden == NullHidden || draftCount == 0 || draftCount >= MAXIMUM_BLOCK || seed >= m.tokenizerVocabulary
         || mtpPosition + 1 != currentPosition || draftCount + 1 > capacity - currentPosition {
        return InvalidArgument;
      }
      var ok;
      ghost var block, slots;
      ok, block, slots := AttemptRound(seed, draftCount);
      if !ok { return DeviceError; }
      r := FinishRound(seed, draftCount, block, slots);
    }

    /** Snapshots the conditioning row and launches the round; after a refused launch the session is
        as it was. */
    method AttemptRound(seed: nat, draftCount: nat)
      returns (ok: bool, ghost block: seq<nat>, ghost slots: seq<ProposerSlot>)
      requires Valid() && lastHidden.HiddenAt? && 0 < draftCount < MAXIMUM_BLOCK
               && currentPosition + draftCount + 1 <= capacity
      modifies this`caches, this`rollbackLog, this`tokens, this`mtpCache, this`mtpHidden, this`lastHidden
      modifies this`mtpChainActive, this`graphBasePosition, this`graphMtpPositions, hiddenA, hiddenB
      modifies targetHiddenSnapshot, convSnapshot, gdnSnapshot
      ensures Sound() && ScratchSized() && (!ok ==> Valid())
      ensures ok ==> RoundVerified(ShadowPointers(gdnStateParity), seed, draftCount, block, slots)
      ensures ok ==> tokens[32..32 + draftCount] == old(RoundDrafts(seed, draftCount))
    {
      SnapshotTargetState();
      ok, block, slots := LaunchRound(seed, draftCount);
      if !ok {
        RestoreTargetState();
      }
    }
  }
}
