/** The executor's L2 monitor: withdrawal tagging from chain events, the
    submission-interval gate and output sequencing. */
module L2 {
  import opened Wrappers
  import opened Orm
  import opened MonitorHelper

  /** Whole seconds of a millisecond timestamp, rounded down (`Math.floor(ms / 1000)`). */
  function DateToSeconds(ms: int): (s: int)
    ensures s * 1000 <= ms < s * 1000 + 1000
  {
    ms / 1000
  }

  type Positive = x: int | x > 0 witness 1

  /** The configured submission threshold as the fraction num / den. */
  datatype Threshold = Threshold(num: int, den: Positive)

  /** What the gate reads: the L1 block time of the last submitted output
      (None when nothing was submitted), the bridge's submission interval in
      seconds, the threshold and the clock, times in milliseconds. */
  datatype GateInput = GateInput(lastSubmittedMs: Option<int>, submissionIntervalSec: int,
                                 threshold: Threshold, nowMs: int)

  /** True when a new output may be finalised now. */
  function CheckSubmissionInterval(g: GateInput): (eligible: bool)
    ensures g.lastSubmittedMs.None? ==> eligible
  {
    match g.lastSubmittedMs
    case None => true
    case Some(last) =>
      !(DateToSeconds(g.nowMs)
        < DateToSeconds(last) + (g.submissionIntervalSec * g.threshold.num) / g.threshold.den)
  }

  /** Without rounding: eligible iff (elapsed seconds + 1) * den > interval * num. */
  lemma GateCharacterisation(g: GateInput)
    requires g.lastSubmittedMs.Some?
    ensures CheckSubmissionInterval(g)
            <==> (DateToSeconds(g.nowMs) - DateToSeconds(g.lastSubmittedMs.value) + 1) * g.threshold.den
                 > g.submissionIntervalSec * g.threshold.num
  {
    var d := DateToSeconds(g.nowMs) - DateToSeconds(g.lastSubmittedMs.value);
    var den: int := g.threshold.den;
    var x := g.submissionIntervalSec * g.threshold.num;
    var q := x / den;
    assert q * den <= x < q * den + den;
    if d >= q {
      MulMonotone(q + 1, d + 1, den);
    } else {
      MulMonotone(d + 1, q, den);
    }
  }

  lemma MulMonotone(a: int, b: int, c: int)
    requires a <= b && c >= 0
    ensures a * c <= b * c
  {
    assert b * c - a * c == (b - a) * c;
  }

  /** Once eligible, the gate stays eligible as the clock advances. */
  lemma GateMonotone(g: GateInput, laterMs: int)
    requires g.nowMs <= laterMs
    requires CheckSubmissionInterval(g)
    ensures CheckSubmissionInterval(g.(nowMs := laterMs))
  {
    var s, t := DateToSeconds(g.nowMs), DateToSeconds(laterMs);
    if t < s {
      MulMonotone(t + 1, s, 1000);
    }
  }

  /** With a threshold of at most 1, a full interval after the last
      submission always opens the gate. */
  lemma GateOpensAfterInterval(g: GateInput)
    requires g.lastSubmittedMs.Some?
    requires 0 <= g.threshold.num <= g.threshold.den && g.submissionIntervalSec >= 0
    requires DateToSeconds(g.nowMs) >= DateToSeconds(g.lastSubmittedMs.value) + g.submissionIntervalSec
    ensures CheckSubmissionInterval(g)
  {
    var den: int := g.threshold.den;
    var x := g.submissionIntervalSec * g.threshold.num;
    MulMonotone(g.threshold.num, den, g.submissionIntervalSec);
    var q := x / den;
    assert q * den <= x;
    if q > g.submissionIntervalSec {
      MulMonotone(g.submissionIntervalSec + 1, q, den);
      assert false;
    }
  }

  /** An interval of 600 s with threshold 0.9 throttles for exactly 540 s. */
  lemma GateExample(lastSec: int, nowMs: int)
    ensures CheckSubmissionInterval(GateInput(Some(lastSec * 1000), 600, Threshold(9, 10), nowMs))
            <==> DateToSeconds(nowMs) >= lastSec + 540
  {
    assert DateToSeconds(lastSec * 1000) == lastSec;
  }

  /** The token pair the L1 registry gives for an L2 denom. */
  datatype TokenPair = TokenPair(l1Denom: string, l2Denom: string)

  /** `data[key]`: None when the key is missing. */
  function Lookup(data: map<string, string>, key: string): (v: Attr)
    ensures v.Some? <==> key in data
    ensures v.Some? ==> v.value == data[key]
  {
    if key in data then Some(data[key]) else None
  }

  /** The withdrawal row recorded for one initiate-withdrawal event. */
  function WithdrawalFromEvent(bridgeId: nat, data: map<string, string>, pair: TokenPair,
                               outputIndex: nat): WithdrawalTxEntity
  {
    WithdrawalTxEntity(pair.l1Denom, pair.l2Denom,
                       Lookup(data, "l2_sequence"), Lookup(data, "from"), Lookup(data, "to"),
                       Lookup(data, "amount"), bridgeId, outputIndex, "", [])
  }

  /** The events of type `initiate_token_withdrawal`, in order. */
  function WithdrawalEvents(events: seq<Event>): (ws: seq<Event>)
    ensures |ws| <= |events|
    ensures forall e :: e in ws <==> e in events && e.eventType == "initiate_token_withdrawal"
  {
    if events == [] then []
    else
      (if events[0].eventType == "initiate_token_withdrawal" then [events[0]] else [])
      + WithdrawalEvents(events[1..])
  }

  /** The filter keeps each withdrawal event as often as it occurs and
      drops every other event. */
  lemma {:induction false} WithdrawalEventsMultiset(events: seq<Event>)
    ensures forall e :: multiset(WithdrawalEvents(events))[e]
                        == if e.eventType == "initiate_token_withdrawal" then multiset(events)[e] else 0
  {
    if events != [] {
      assert events == [events[0]] + events[1..];
      WithdrawalEventsMultiset(events[1..]);
    }
  }

  /** The filter keeps the order of the events: filtering a concatenation
      concatenates the filtered parts. */
  lemma {:induction false} WithdrawalEventsAppend(a: seq<Event>, b: seq<Event>)
    ensures WithdrawalEvents(a + b) == WithdrawalEvents(a) + WithdrawalEvents(b)
  {
    if a == [] {
      assert a + b == b;
    } else {
      var head := if a[0].eventType == "initiate_token_withdrawal" then [a[0]] else [];
      assert (a + b)[0] == a[0];
      assert (a + b)[1..] == a[1..] + b;
      assert WithdrawalEvents(a + b) == head + WithdrawalEvents(a[1..] + b);
      WithdrawalEventsAppend(a[1..], b);
      assert WithdrawalEvents(a) == head + WithdrawalEvents(a[1..]);
      ConcatAssoc(head, WithdrawalEvents(a[1..]), WithdrawalEvents(b));
    }
  }

  lemma ConcatAssoc<T>(x: seq<T>, y: seq<T>, z: seq<T>)
    ensures x + (y + z) == (x + y) + z
  {
  }

  /** The rows recorded for withdrawal events `ws` under output index `index`. */
  function NewWithdrawals(bridgeId: nat, ws: seq<Event>, pairOf: Attr -> TokenPair, index: nat)
    : (rows: seq<WithdrawalTxEntity>)
    ensures |rows| == |ws|
    ensures forall j :: 0 <= j < |rows| ==> rows[j].outputIndex == index && rows[j].bridgeId == bridgeId
  {
    seq(|ws|, j requires 0 <= j < |ws| => RowOfEvent(bridgeId, ws[j], pairOf, index))
  }

  /** The row one event yields: its attributes as a map, the token pair of
      its `denom`. */
  function RowOfEvent(bridgeId: nat, e: Event, pairOf: Attr -> TokenPair, index: nat): WithdrawalTxEntity
  {
    WithdrawalFromEvent(bridgeId, AttrMap(e.attributes), pairOf(Lookup(AttrMap(e.attributes), "denom")), index)
  }

  function Inserts(rows: seq<WithdrawalTxEntity>): (w: seq<Write>)
    ensures |w| == |rows|
  {
    seq(|rows|, j requires 0 <= j < |rows| => WithdrawalInserted(rows[j]))
  }

  lemma NewWithdrawalsSnoc(bridgeId: nat, ws: seq<Event>, i: nat, pairOf: Attr -> TokenPair, index: nat)
    requires i < |ws|
    ensures NewWithdrawals(bridgeId, ws[..i + 1], pairOf, index)
            == NewWithdrawals(bridgeId, ws[..i], pairOf, index)
               + [RowOfEvent(bridgeId, ws[i], pairOf, index)]
  {
  }

  lemma InsertsSnoc(rows: seq<WithdrawalTxEntity>, row: WithdrawalTxEntity)
    ensures Inserts(rows + [row]) == Inserts(rows) + [WithdrawalInserted(row)]
  {
  }

  class L2Monitor {
    /** The height being processed; advanced by the block loop. */
    var currentHeight: int
    const bridgeId: nat
    /** The merkle-tree library and the hash primitives the monitor uses. */
    const tree: MerkleTree
    const crypto: Crypto

    constructor (bridgeId: nat, tree: MerkleTree, crypto: Crypto, height: int)
      ensures this.bridgeId == bridgeId && this.tree == tree && this.crypto == crypto
      ensures currentHeight == height
    {
      this.bridgeId := bridgeId;
      this.tree := tree;
      this.crypto := crypto;
      currentHeight := height;
    }

    /** Records one withdrawal tagged with the next output index; drops it
        when no output exists yet. `pairOf` is the L1 token-pair registry. */
    method HandleInitiateTokenWithdrawalEvent(store: Store, data: map<string, string>,
                                              pairOf: Attr -> TokenPair)
      requires store.Valid()
      modifies store
      ensures store.Valid() && store.outputs == old(store.outputs)
      ensures old(store.outputs) == map[] ==>
                store.withdrawals == old(store.withdrawals) && store.log == old(store.log)
      ensures old(store.outputs) != map[] ==>
                store.withdrawals == old(store.withdrawals)
                  + [WithdrawalFromEvent(bridgeId, data, pairOf(Lookup(data, "denom")), LastIndex(old(store.outputs)) + 1)]
      ensures old(store.outputs) != map[] ==>
                store.log == old(store.log)
                  + [WithdrawalInserted(WithdrawalFromEvent(bridgeId, data, pairOf(Lookup(data, "denom")),
                                                            LastIndex(old(store.outputs)) + 1))]
    {
      var outputInfo := GetLastOutputFromDB(store);
      if outputInfo.None? {
        return;
      }
      var pair := pairOf(Lookup(data, "denom"));
      var tx := WithdrawalFromEvent(bridgeId, data, pair, outputInfo.value.outputIndex + 1);
      store.InsertWithdrawal(tx);
    }

    /** Processes the withdrawal events of the current height's search
        result; false when the height has no transactions. */
    method HandleEvents(store: Store, res: SearchResult, pairOf: Attr -> TokenPair) returns (handled: bool)
      requires store.Valid()
      modifies store
      ensures handled <==> res.txs != []
      ensures store.Valid() && store.outputs == old(store.outputs)
      ensures !handled || old(store.outputs) == map[] ==>
                store.withdrawals == old(store.withdrawals) && store.log == old(store.log)
      ensures handled && old(store.outputs) != map[] ==>
                store.withdrawals == old(store.withdrawals)
                  + NewWithdrawals(bridgeId, WithdrawalEvents(ExtractAllEvents(res.txResponses)),
                                   pairOf, LastIndex(old(store.outputs)) + 1)
      ensures handled && old(store.outputs) != map[] ==>
                store.log == old(store.log)
                  + Inserts(NewWithdrawals(bridgeId, WithdrawalEvents(ExtractAllEvents(res.txResponses)),
                                           pairOf, LastIndex(old(store.outputs)) + 1))
    {
      var fetched := FetchAllEvents(res);
      var isEmpty, events := fetched.0, fetched.1;
      if isEmpty {
        return false;
      }
      var ws := WithdrawalEvents(events);
      ghost var index := LastIndex(store.outputs) + 1;
      ghost var added: seq<WithdrawalTxEntity> := [];
      for i := 0 to |ws|
        invariant store.Valid() && store.outputs == old(store.outputs)
        invariant added == NewWithdrawals(bridgeId, ws[..i], pairOf, index)
        invariant old(store.outputs) == map[] ==>
                    store.withdrawals == old(store.withdrawals) && store.log == old(store.log)
        invariant old(store.outputs) != map[] ==> store.withdrawals == old(store.withdrawals) + added
        invariant old(store.outputs) != map[] ==> store.log == old(store.log) + Inserts(added)
      {
        var attrMap := EventsToAttrMap(ws[i]);
        ghost var rowsBefore, logBefore := store.withdrawals, store.log;
        assert LastIndex(store.outputs) + 1 == index;
        HandleInitiateTokenWithdrawalEvent(store, attrMap, pairOf);
        ghost var row := WithdrawalFromEvent(bridgeId, attrMap, pairOf(Lookup(attrMap, "denom")), index);
        if old(store.outputs) != map[] {
          assert store.withdrawals == rowsBefore + [row];
          assert store.log == logBefore + [WithdrawalInserted(row)];
          assert rowsBefore == old(store.withdrawals) + added;
          assert store.withdrawals == old(store.withdrawals) + (added + [row]);
          InsertsSnoc(added, row);
        }
        NewWithdrawalsSnoc(bridgeId, ws, i, pairOf, index);
        added := added + [row];
      }
      assert ws[..|ws|] == ws;
      return true;
    }

    /** When the gate is open and blocks lastEnd + 1 .. currentHeight are
        uncovered: stamps the next index's withdrawal batch with its root and
        proofs, then saves the output covering those blocks. */
    method HandleOutput(store: Store, gate: GateInput, blockInfo: BlockInfo)
      requires store.Valid()
      modifies store
      ensures store.Valid()
      ensures old(store.Chained()) ==> store.Chained()
      ensures old(store.Committed(tree)) ==> store.Committed(tree)
      ensures !CheckSubmissionInterval(gate) || LastEnd(old(store.outputs)) + 1 > currentHeight ==>
                && store.outputs == old(store.outputs)
                && store.withdrawals == old(store.withdrawals)
                && store.log == old(store.log)
      // Otherwise output `LastIndex + 1` is new; it covers blocks `LastEnd + 1 ..
      // currentHeight` and carries the root of its batch; the rows of the
      // batch are stamped, then the output is saved.
      ensures CheckSubmissionInterval(gate) && LastEnd(old(store.outputs)) + 1 <= currentHeight ==>
                LastIndex(old(store.outputs)) + 1 !in old(store.outputs)
      ensures CheckSubmissionInterval(gate) && LastEnd(old(store.outputs)) + 1 <= currentHeight ==>
                store.outputs == old(store.outputs)[LastIndex(old(store.outputs)) + 1 :=
                  CalculateOutputEntity(crypto, LastIndex(old(store.outputs)) + 1, blockInfo,
                                        tree.root(Batch(old(store.withdrawals), LastIndex(old(store.outputs)) + 1)),
                                        LastEnd(old(store.outputs)) + 1, currentHeight)]
      ensures CheckSubmissionInterval(gate) && LastEnd(old(store.outputs)) + 1 <= currentHeight ==>
                StampedBatch(old(store.withdrawals), store.withdrawals, LastIndex(old(store.outputs)) + 1,
                             tree.root(Batch(old(store.withdrawals), LastIndex(old(store.outputs)) + 1)), tree)
      ensures CheckSubmissionInterval(gate) && LastEnd(old(store.outputs)) + 1 <= currentHeight ==>
                store.log == old(store.log)
                  + StampWrites(old(store.withdrawals), Positions(old(store.withdrawals), LastIndex(old(store.outputs)) + 1),
                                tree.root(Batch(old(store.withdrawals), LastIndex(old(store.outputs)) + 1)), tree,
                                Batch(old(store.withdrawals), LastIndex(old(store.outputs)) + 1))
                  + [OutputSaved(store.outputs[LastIndex(old(store.outputs)) + 1])]
    {
      if !CheckSubmissionInterval(gate) {
        return;
      }
      var lastOutput := GetLastOutputFromDB(store);
      var lastOutputEndBlockNumber := if lastOutput.Some? then lastOutput.value.endBlockNumber else 0;
      var lastOutputIndex := if lastOutput.Some? then lastOutput.value.outputIndex else 0;
      var startBlockNumber := lastOutputEndBlockNumber + 1;
      var endBlockNumber := currentHeight;
      var outputIndex := lastOutputIndex + 1;
      if startBlockNumber > endBlockNumber {
        return;
      }
      ghost var rows := store.withdrawals;
      ghost var outs := store.outputs;
      var txEntities := GetWithdrawalTxs(store, outputIndex);
      var merkleRoot := SaveMerkleRootAndProof(store, txEntities, tree);
      SavedBatchIsStamped(rows, store.withdrawals, outputIndex, merkleRoot, tree);
      var outputEntity := CalculateOutputEntity(crypto, outputIndex, blockInfo, merkleRoot,
                                                startBlockNumber, endBlockNumber);
      store.SaveOutput(outputEntity);
      FinaliseKeepsChained(outs, outputIndex, outputEntity);
      FinaliseKeepsCommitted(outs, rows, store.withdrawals, outputEntity, tree);
    }
  }

  /** Appending rows tagged with the next output index keeps the withdrawal
      bookkeeping consistent: no existing batch changes. */
  lemma AppendKeepsCommitted(outs: map<nat, OutputEntity>, rows: seq<WithdrawalTxEntity>,
                             added: seq<WithdrawalTxEntity>, t: MerkleTree)
    requires forall j :: 0 <= j < |added| ==> added[j].outputIndex == LastIndex(outs) + 1
    ensures CommittedState(outs, rows, t) ==> CommittedState(outs, rows + added, t)
  {
    if CommittedState(outs, rows, t) {
      var index := LastIndex(outs) + 1;
      NextIndexFresh(outs);
      forall k | k in outs ensures Batch(rows + added, k) == Batch(rows, k) {
        AppendKeepsBatch(rows, added, index, k);
      }
      forall i | 0 <= i < |rows + added| && (rows + added)[i].outputIndex in outs
        ensures i < |rows| && (rows + added)[i] == rows[i]
      {
      }
    }
  }

  /** Rows tagged `index` do not enter the batch of any other output. */
  lemma {:induction false} AppendKeepsBatch(rows: seq<WithdrawalTxEntity>, added: seq<WithdrawalTxEntity>,
                                            index: nat, k: nat)
    requires forall j :: 0 <= j < |added| ==> added[j].outputIndex == index
    requires k != index
    ensures Batch(rows + added, k) == Batch(rows, k)
  {
    if added == [] {
      assert rows + added == rows;
    } else {
      var init := added[..|added| - 1];
      AppendKeepsBatch(rows, init, index, k);
      assert rows + added == (rows + init) + [added[|added| - 1]];
      BatchAppend(rows + init, added[|added| - 1], k);
    }
  }

  /** The index after the latest is not taken. */
  lemma NextIndexFresh(outs: map<nat, OutputEntity>)
    ensures LastIndex(outs) + 1 !in outs
  {
    if outs != map[] {
      var m := MaxKey(outs.Keys);
      assert LastIndex(outs) == m;
    }
  }

  /** Adding the next output after the chain's end keeps the chain. */
  lemma FinaliseKeepsChained(outs: map<nat, OutputEntity>, index: nat, o: OutputEntity)
    requires index == LastIndex(outs) + 1
    requires o.startBlockNumber == LastEnd(outs) + 1 <= o.endBlockNumber
    ensures ChainedOutputs(outs) ==> ChainedOutputs(outs[index := o])
  {
    if ChainedOutputs(outs) && outs != map[] {
      assert MaxKey(outs.Keys) >= 1;
    }
  }

  /** Stamping the next index's batch and saving its output keeps the
      withdrawal bookkeeping consistent. */
  lemma FinaliseKeepsCommitted(outs: map<nat, OutputEntity>, rows: seq<WithdrawalTxEntity>,
                               stamped: seq<WithdrawalTxEntity>, o: OutputEntity, t: MerkleTree)
    requires o.outputIndex == LastIndex(outs) + 1
    requires o.merkleRoot == t.root(Batch(rows, o.outputIndex))
    requires StampedBatch(rows, stamped, o.outputIndex, o.merkleRoot, t)
    ensures CommittedState(outs, rows, t) ==> CommittedState(outs[o.outputIndex := o], stamped, t)
  {
    if CommittedState(outs, rows, t) {
      FinaliseFacts(outs, rows, stamped, o, t);
      FinalisedTags(outs, rows, stamped, o);
      FinalisedStamps(outs, rows, stamped, o, t);
      FinalisedRoots(outs, rows, stamped, o, t);
    }
  }

  /** What finalising does to the index and to the rows, whatever state
      they are in. */
  lemma FinaliseFacts(outs: map<nat, OutputEntity>, rows: seq<WithdrawalTxEntity>,
                      stamped: seq<WithdrawalTxEntity>, o: OutputEntity, t: MerkleTree)
    requires o.outputIndex == LastIndex(outs) + 1
    requires StampedBatch(rows, stamped, o.outputIndex, o.merkleRoot, t)
    ensures o.outputIndex !in outs && LastIndex(outs[o.outputIndex := o]) == o.outputIndex
    ensures forall p :: 0 <= p < |rows| ==> stamped[p].outputIndex == rows[p].outputIndex
    ensures forall k :: Batch(stamped, k) == Batch(rows, k)
  {
    NextIndexIsLast(outs, o.outputIndex, o);
    StampedKeepsLeaves(rows, stamped, o.outputIndex, o.merkleRoot, t);
    StampKeepsBatches(rows, stamped);
  }

  /** Stamping one batch changes no row's tag or leaf. */
  lemma StampedKeepsLeaves(rows: seq<WithdrawalTxEntity>, stamped: seq<WithdrawalTxEntity>, index: nat,
                           root: string, t: MerkleTree)
    requires StampedBatch(rows, stamped, index, root, t)
    ensures forall p :: 0 <= p < |rows| ==>
              stamped[p].outputIndex == rows[p].outputIndex && LeafOf(stamped[p]) == LeafOf(rows[p])
  {
    forall p | 0 <= p < |rows|
      ensures stamped[p].outputIndex == rows[p].outputIndex && LeafOf(stamped[p]) == LeafOf(rows[p])
    {
      if rows[p].outputIndex == index {
        StampKeepsLeaf(rows[p], root, t, Batch(rows, index));
      }
    }
  }

  /** The parts of `FinaliseKeepsCommitted`, one per conjunct. */
  lemma FinalisedTags(outs: map<nat, OutputEntity>, rows: seq<WithdrawalTxEntity>,
                      stamped: seq<WithdrawalTxEntity>, o: OutputEntity)
    requires TagsInRange(outs, rows)
    requires o.outputIndex == LastIndex(outs) + 1
    requires LastIndex(outs[o.outputIndex := o]) == o.outputIndex
    requires |stamped| == |rows|
    requires forall p :: 0 <= p < |rows| ==> stamped[p].outputIndex == rows[p].outputIndex
    ensures TagsInRange(outs[o.outputIndex := o], stamped)
  {
    forall i | 0 <= i < |stamped|
      ensures 1 <= stamped[i].outputIndex <= o.outputIndex + 1
    {
      assert stamped[i].outputIndex == rows[i].outputIndex;
    }
  }

  lemma FinalisedStamps(outs: map<nat, OutputEntity>, rows: seq<WithdrawalTxEntity>,
                        stamped: seq<WithdrawalTxEntity>, o: OutputEntity, t: MerkleTree)
    requires RowsStamped(outs, rows, t)
    requires StampedBatch(rows, stamped, o.outputIndex, o.merkleRoot, t)
    requires forall p :: 0 <= p < |rows| ==> stamped[p].outputIndex == rows[p].outputIndex
    requires forall k :: Batch(stamped, k) == Batch(rows, k)
    ensures RowsStamped(outs[o.outputIndex := o], stamped, t)
  {
    var index := o.outputIndex;
    var batch := Batch(rows, index);
    var outs' := outs[index := o];
    forall i | 0 <= i < |stamped| && stamped[i].outputIndex in outs'
      ensures stamped[i] == Stamp(stamped[i], outs'[stamped[i].outputIndex].merkleRoot,
                                  t, Batch(stamped, stamped[i].outputIndex))
    {
      var k := rows[i].outputIndex;
      if k == index {
        StampIdempotent(rows[i], o.merkleRoot, t, batch);
      } else {
        OtherOutputKept(outs, o, k);
      }
    }
  }

  lemma FinalisedRoots(outs: map<nat, OutputEntity>, rows: seq<WithdrawalTxEntity>,
                       stamped: seq<WithdrawalTxEntity>, o: OutputEntity, t: MerkleTree)
    requires RootsMatch(outs, rows, t)
    requires o.merkleRoot == t.root(Batch(rows, o.outputIndex))
    requires forall k :: Batch(stamped, k) == Batch(rows, k)
    ensures RootsMatch(outs[o.outputIndex := o], stamped, t)
  {
    forall k | k in outs[o.outputIndex := o]
      ensures outs[o.outputIndex := o][k].merkleRoot == t.root(Batch(stamped, k))
    {
      assert Batch(stamped, k) == Batch(rows, k);
      if k != o.outputIndex {
        OtherOutputKept(outs, o, k);
      }
    }
  }

  lemma OtherOutputKept(outs: map<nat, OutputEntity>, o: OutputEntity, k: nat)
    requires k in outs[o.outputIndex := o] && k != o.outputIndex
    ensures k in outs && outs[o.outputIndex := o][k] == outs[k]
  {
  }

  lemma StampKeepsLeaf(row: WithdrawalTxEntity, root: string, t: MerkleTree, batch: seq<Leaf>)
    ensures Stamp(row, root, t, batch).outputIndex == row.outputIndex
    ensures LeafOf(Stamp(row, root, t, batch)) == LeafOf(row)
  {
  }

  lemma StampIdempotent(row: WithdrawalTxEntity, root: string, t: MerkleTree, batch: seq<Leaf>)
    ensures Stamp(Stamp(row, root, t, batch), root, t, batch) == Stamp(row, root, t, batch)
  {
  }

  /** Stamping leaves every row's tag and leaf alone, so every batch is unchanged. */
  lemma StampKeepsBatches(rows: seq<WithdrawalTxEntity>, stamped: seq<WithdrawalTxEntity>)
    requires |rows| == |stamped|
    requires forall p :: 0 <= p < |rows| ==>
               stamped[p].outputIndex == rows[p].outputIndex && LeafOf(stamped[p]) == LeafOf(rows[p])
    ensures forall k :: Batch(stamped, k) == Batch(rows, k)
  {
    forall k { BatchIgnoresStamps(stamped, rows, k); }
  }

  /** Saving an output one past the latest makes it the latest. */
  lemma NextIndexIsLast(outs: map<nat, OutputEntity>, index: nat, o: OutputEntity)
    requires index == LastIndex(outs) + 1
    ensures index !in outs
    ensures LastIndex(outs[index := o]) == index
  {
    if outs != map[] {
      var m := MaxKey(outs.Keys);
      assert index == m + 1;
    }
    var outs' := outs[index := o];
    forall k | k in outs' ensures k <= index {
      if k != index {
        assert k in outs;
      }
    }
    assert index in outs'.Keys;
  }
}
