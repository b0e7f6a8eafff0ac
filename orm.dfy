/** The executor's persisted entities and an in-memory stand-in for the
    database that the monitor reads and writes through its entity manager. */
module Orm {
  import opened Wrappers

  /** A value read out of an event's attribute map; `None` is a missing key
      (JavaScript `undefined`), which the monitor stores unchanged. */
  type Attr = Option<string>

  type Bytes = seq<bv8>

  /** The withdrawal leaf handed to the merkle-tree library
      (`WithdrawalTx`: bridge id, sequence, sender, receiver, L1 denom, amount). */
  datatype Leaf = Leaf(bridgeId: nat, sequence: Attr, sender: Attr, receiver: Attr,
                       l1Denom: string, amount: Attr)

  /** One row of the executor's withdrawal table. */
  datatype WithdrawalTxEntity = WithdrawalTxEntity(
    l1Denom: string, l2Denom: string,
    sequence: Attr, sender: Attr, receiver: Attr, amount: Attr,
    bridgeId: nat, outputIndex: nat,
    merkleRoot: string, merkleProof: seq<string>)

  /** One row of the executor's output table. */
  datatype OutputEntity = OutputEntity(
    outputIndex: nat, outputRoot: string, stateRoot: string, merkleRoot: string,
    lastBlockHash: string, startBlockNumber: int, endBlockNumber: int)

  /** One save performed against the database, in the order performed. */
  datatype Write =
    | WithdrawalInserted(row: WithdrawalTxEntity)
    | WithdrawalUpdated(pos: nat, row: WithdrawalTxEntity)
    | OutputSaved(output: OutputEntity)

  /** The merkle-tree library over a batch of withdrawal leaves (its root and
      the proof of one leaf); its tree shape and hashing are not modelled. */
  datatype MerkleTree = MerkleTree(root: seq<Leaf> -> string,
                                   proof: (seq<Leaf>, Leaf) -> seq<string>)

  /** The leaf the withdrawal row contributes to its batch's tree. */
  function LeafOf(e: WithdrawalTxEntity): Leaf
  {
    Leaf(e.bridgeId, e.sequence, e.sender, e.receiver, e.l1Denom, e.amount)
  }

  /** `row` with the batch root and its own proof attached. */
  function Stamp(row: WithdrawalTxEntity, root: string, t: MerkleTree, batch: seq<Leaf>): WithdrawalTxEntity
  {
    row.(merkleRoot := root, merkleProof := t.proof(batch, LeafOf(row)))
  }

  /** The leaves of the rows tagged with output index `k`, in table order. */
  function Batch(rows: seq<WithdrawalTxEntity>, k: nat): (b: seq<Leaf>)
    ensures |b| <= |rows|
  {
    if rows == [] then []
    else
      var last := rows[|rows| - 1];
      Batch(rows[..|rows| - 1], k) + (if last.outputIndex == k then [LeafOf(last)] else [])
  }

  /** Positions, in table order, of the rows tagged with output index `k`. */
  function Positions(rows: seq<WithdrawalTxEntity>, k: nat): (ps: seq<nat>)
    ensures forall j :: 0 <= j < |ps| ==> ps[j] < |rows|
  {
    if rows == [] then []
    else
      Positions(rows[..|rows| - 1], k) + (if rows[|rows| - 1].outputIndex == k then [|rows| - 1] else [])
  }

  lemma BatchAppend(rows: seq<WithdrawalTxEntity>, row: WithdrawalTxEntity, k: nat)
    ensures Batch(rows + [row], k)
            == Batch(rows, k) + (if row.outputIndex == k then [LeafOf(row)] else [])
  {
    assert (rows + [row])[..|rows|] == rows;
  }

  /** Rows that differ only in root and proof form the same batches. */
  lemma {:induction false} BatchIgnoresStamps(a: seq<WithdrawalTxEntity>, b: seq<WithdrawalTxEntity>, k: nat)
    requires |a| == |b|
    requires forall i :: 0 <= i < |a| ==> a[i].outputIndex == b[i].outputIndex && LeafOf(a[i]) == LeafOf(b[i])
    ensures Batch(a, k) == Batch(b, k)
  {
    if a != [] {
      BatchIgnoresStamps(a[..|a| - 1], b[..|b| - 1], k);
    }
  }

  /** The largest key of a non-empty key set. */
  ghost function MaxKey(keys: set<nat>): (k: nat)
    requires keys != {}
    ensures k in keys && forall j :: j in keys ==> j <= k
  {
    assert exists k :: k in keys && forall j :: j in keys ==> j <= k by {
      var m := MaxKeyExists(keys);
    }
    var k :| k in keys && forall j :: j in keys ==> j <= k; k
  }

  lemma {:induction false} MaxKeyExists(keys: set<nat>) returns (m: nat)
    requires keys != {}
    ensures m in keys && forall j :: j in keys ==> j <= m
  {
    var x :| x in keys;
    var rest := keys - {x};
    if rest == {} {
      m := x;
      forall j | j in keys ensures j <= x {
        assert j !in rest;
      }
    } else {
      var k := MaxKeyExists(rest);
      m := if x <= k then k else x;
      forall j | j in keys ensures j <= m {
        if j != x { assert j in rest; }
      }
    }
  }

  /** Index of the latest stored output, 0 when there is none. */
  ghost function LastIndex(outputs: map<nat, OutputEntity>): nat
  {
    if outputs == map[] then 0 else MaxKey(outputs.Keys)
  }

  /** End block of the latest stored output, 0 when there is none. */
  ghost function LastEnd(outputs: map<nat, OutputEntity>): int
  {
    if outputs == map[] then 0 else outputs[MaxKey(outputs.Keys)].endBlockNumber
  }

  /** The output chain: indices 1, 2, ..., n without gaps, the first output
      starting at block 1, each next one starting right after the previous
      one's end, and no empty range. */
  ghost predicate ChainedOutputs(outputs: map<nat, OutputEntity>)
  {
    && (forall k :: k in outputs ==> 1 <= k && outputs[k].startBlockNumber <= outputs[k].endBlockNumber)
    && (1 in outputs ==> outputs[1].startBlockNumber == 1)
    && (forall k :: k in outputs && k > 1 ==>
          k - 1 in outputs && outputs[k].startBlockNumber == outputs[k - 1].endBlockNumber + 1)
  }

  /** `stamped` is `rows` after output `index` is finalised: every row tagged
      with `index` carries `root` and its own proof within the batch, every
      other row is as it was. */
  ghost predicate StampedBatch(rows: seq<WithdrawalTxEntity>, stamped: seq<WithdrawalTxEntity>, index: nat,
                               root: string, t: MerkleTree)
  {
    && |stamped| == |rows|
    && forall p :: 0 <= p < |rows| ==>
         stamped[p] == if rows[p].outputIndex == index then Stamp(rows[p], root, t, Batch(rows, index)) else rows[p]
  }

  /** Withdrawal bookkeeping against tree library `t`: see the three parts. */
  ghost predicate CommittedState(outputs: map<nat, OutputEntity>, withdrawals: seq<WithdrawalTxEntity>,
                                 t: MerkleTree)
  {
    && TagsInRange(outputs, withdrawals)
    && RowsStamped(outputs, withdrawals, t)
    && RootsMatch(outputs, withdrawals, t)
  }

  /** Every row is tagged with an output index in 1 .. last + 1. */
  ghost predicate TagsInRange(outputs: map<nat, OutputEntity>, withdrawals: seq<WithdrawalTxEntity>)
  {
    forall i :: 0 <= i < |withdrawals| ==> 1 <= withdrawals[i].outputIndex <= LastIndex(outputs) + 1
  }

  /** Every row whose output exists carries that output's root and its own
      proof within the output's batch. */
  ghost predicate RowsStamped(outputs: map<nat, OutputEntity>, withdrawals: seq<WithdrawalTxEntity>,
                              t: MerkleTree)
  {
    forall i :: 0 <= i < |withdrawals| && withdrawals[i].outputIndex in outputs ==>
      withdrawals[i] == Stamp(withdrawals[i], outputs[withdrawals[i].outputIndex].merkleRoot,
                              t, Batch(withdrawals, withdrawals[i].outputIndex))
  }

  /** Every output's root is the root of its withdrawal batch. */
  ghost predicate RootsMatch(outputs: map<nat, OutputEntity>, withdrawals: seq<WithdrawalTxEntity>,
                             t: MerkleTree)
  {
    forall k :: k in outputs ==> outputs[k].merkleRoot == t.root(Batch(withdrawals, k))
  }

  /** In-memory database: outputs keyed by index, withdrawal rows in table
      order (a row's position is its identity) and the log of every save. */
  class Store {
    var outputs: map<nat, OutputEntity>
    var withdrawals: seq<WithdrawalTxEntity>
    var log: seq<Write>

    /** The output table's primary key is the output index. */
    ghost predicate Valid()
      reads this
    {
      forall k :: k in outputs ==> outputs[k].outputIndex == k
    }

    /** See `ChainedOutputs`. */
    ghost predicate Chained()
      reads this
    {
      ChainedOutputs(outputs)
    }

    /** See `CommittedState`. */
    ghost predicate Committed(t: MerkleTree)
      reads this
    {
      CommittedState(outputs, withdrawals, t)
    }

    constructor ()
      ensures outputs == map[] && withdrawals == [] && log == []
      ensures Valid() && Chained()
    {
      outputs, withdrawals, log := map[], [], [];
    }

    /** Saves a new withdrawal row. */
    method InsertWithdrawal(row: WithdrawalTxEntity)
      modifies this
      ensures withdrawals == old(withdrawals) + [row]
      ensures outputs == old(outputs)
      ensures log == old(log) + [WithdrawalInserted(row)]
    {
      withdrawals := withdrawals + [row];
      log := log + [WithdrawalInserted(row)];
    }

    /** Saves an existing withdrawal row back in place. */
    method UpdateWithdrawal(pos: nat, row: WithdrawalTxEntity)
      requires pos < |withdrawals|
      modifies this
      ensures withdrawals == old(withdrawals)[pos := row]
      ensures outputs == old(outputs)
      ensures log == old(log) + [WithdrawalUpdated(pos, row)]
    {
      withdrawals := withdrawals[pos := row];
      log := log + [WithdrawalUpdated(pos, row)];
    }

    /** Saves an output under its index (insert or overwrite). */
    method SaveOutput(o: OutputEntity)
      requires Valid()
      modifies this
      ensures Valid()
      ensures outputs == old(outputs)[o.outputIndex := o]
      ensures withdrawals == old(withdrawals)
      ensures log == old(log) + [OutputSaved(o)]
    {
      outputs := outputs[o.outputIndex := o];
      log := log + [OutputSaved(o)];
    }
  }

  /** Chained outputs never overlap: an earlier output ends before a later one starts. */
  lemma {:induction false} ChainedNoOverlap(outputs: map<nat, OutputEntity>, j: nat, k: nat)
    requires ChainedOutputs(outputs)
    requires j in outputs && k in outputs && j < k
    ensures outputs[j].endBlockNumber < outputs[k].startBlockNumber
  {
    if j < k - 1 {
      ChainedNoOverlap(outputs, j, k - 1);
    }
  }

  /** Chained outputs cover every block from 1 to the last output's end. */
  lemma ChainedCovers(outputs: map<nat, OutputEntity>, h: int)
    requires ChainedOutputs(outputs)
    requires 1 <= h <= LastEnd(outputs)
    ensures exists k :: k in outputs && outputs[k].startBlockNumber <= h <= outputs[k].endBlockNumber
  {
    CoverBelow(outputs, MaxKey(outputs.Keys), h);
  }

  lemma {:induction false} CoverBelow(outputs: map<nat, OutputEntity>, n: nat, h: int)
    requires ChainedOutputs(outputs) && n in outputs
    requires 1 <= h <= outputs[n].endBlockNumber
    ensures exists k :: k in outputs && outputs[k].startBlockNumber <= h <= outputs[k].endBlockNumber
    decreases n
  {
    if h < outputs[n].startBlockNumber {
      assert n > 1;
      CoverBelow(outputs, n - 1, h);
    }
  }
}
