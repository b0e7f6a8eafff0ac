/** The monitor helper: database queries used by the L2 monitor, withdrawal
    batch stamping, output-entity construction, event extraction and the
    parameters of a transaction search. */
module MonitorHelper {
  import opened Wrappers
  import opened Orm

  // ---------------------------------------------------------------------
  // Database queries
  // ---------------------------------------------------------------------

  /** The stored output with the greatest index, or None when no output is
      stored (`find` ordered by outputIndex DESC, `take: 1`). */
  method GetLastOutputFromDB(store: Store) returns (last: Option<OutputEntity>)
    requires store.Valid()
    ensures last.None? <==> store.outputs == map[]
    ensures last.Some? ==> last.value == store.outputs[MaxKey(store.outputs.Keys)]
    ensures last.Some? ==> (last.value.outputIndex == LastIndex(store.outputs)
                            && last.value.endBlockNumber == LastEnd(store.outputs))
  {
    var keys := store.outputs.Keys;
    var best: nat := 0;
    last := None;
    while keys != {}
      invariant keys <= store.outputs.Keys
      invariant last.None? ==> keys == store.outputs.Keys
      invariant last.Some? ==> best in store.outputs && last.value == store.outputs[best]
      invariant forall j :: j in store.outputs && j !in keys ==> last.Some? && j <= best
      decreases keys
    {
      var k :| k in keys;
      if last.None? || best < k {
        best := k;
        last := Some(store.outputs[k]);
      }
      keys := keys - {k};
    }
    if last.Some? {
      assert best == MaxKey(store.outputs.Keys);
    }
  }

  /** The latest output's index, 0 when no output is stored. */
  method GetLastOutputIndex(store: Store) returns (index: nat)
    requires store.Valid()
    ensures index == LastIndex(store.outputs)
    ensures store.outputs != map[] ==>
              index in store.outputs && forall k :: k in store.outputs ==> k <= index
  {
    var last := GetLastOutputFromDB(store);
    index := if last.Some? then last.value.outputIndex else 0;
  }

  /** The leaves of the rows at positions `ps`, in that order. */
  function LeavesAt(rows: seq<WithdrawalTxEntity>, ps: seq<nat>): (r: seq<Leaf>)
    requires forall j :: 0 <= j < |ps| ==> ps[j] < |rows|
    ensures |r| == |ps| && forall j :: 0 <= j < |ps| ==> r[j] == LeafOf(rows[ps[j]])
  {
    seq(|ps|, j requires 0 <= j < |ps| => LeafOf(rows[ps[j]]))
  }

  /** Positions, in table order, of the withdrawal rows tagged with
      `outputIndex` (`find` where outputIndex). */
  method GetWithdrawalTxs(store: Store, outputIndex: nat) returns (ps: seq<nat>)
    ensures ps == Positions(store.withdrawals, outputIndex)
  {
    var rows := store.withdrawals;
    ps := [];
    var i := 0;
    while i < |rows|
      invariant 0 <= i <= |rows|
      invariant ps == Positions(rows[..i], outputIndex)
    {
      assert rows[..i + 1][..i] == rows[..i];
      if rows[i].outputIndex == outputIndex {
        ps := ps + [i];
      }
      i := i + 1;
    }
    assert rows[..i] == rows;
  }

  /** Every position found holds a row tagged with `k`. */
  lemma {:induction false} PositionsTagged(rows: seq<WithdrawalTxEntity>, k: nat)
    ensures forall j :: 0 <= j < |Positions(rows, k)| ==> rows[Positions(rows, k)[j]].outputIndex == k
  {
    if rows != [] {
      var n := |rows| - 1;
      var init := rows[..n];
      PositionsTagged(init, k);
      var pi := Positions(init, k);
      var ps := Positions(rows, k);
      assert ps == pi + (if rows[n].outputIndex == k then [n] else []);
      forall j | 0 <= j < |ps| ensures rows[ps[j]].outputIndex == k {
        if j < |pi| {
          assert ps[j] == pi[j] && rows[pi[j]] == init[pi[j]];
          assert init[pi[j]].outputIndex == k;
        } else {
          assert ps[j] == n && rows[n].outputIndex == k;
        }
      }
    }
  }

  /** The positions come in table order, each once. */
  lemma {:induction false} PositionsIncreasing(rows: seq<WithdrawalTxEntity>, k: nat)
    ensures forall j, l :: 0 <= j < l < |Positions(rows, k)| ==> Positions(rows, k)[j] < Positions(rows, k)[l]
  {
    if rows != [] {
      var n := |rows| - 1;
      var init := rows[..n];
      PositionsIncreasing(init, k);
      var pi := Positions(init, k);
      var ps := Positions(rows, k);
      assert ps == pi + (if rows[n].outputIndex == k then [n] else []);
      forall j, l | 0 <= j < l < |ps| ensures ps[j] < ps[l] {
        assert ps[j] == pi[j];
        if l < |pi| {
          assert ps[l] == pi[l];
        } else {
          assert ps[l] == n && pi[j] < |init| == n;
        }
      }
    }
  }

  /** Every row tagged with `k` is found. */
  lemma {:induction false} PositionsComplete(rows: seq<WithdrawalTxEntity>, k: nat)
    ensures forall p :: 0 <= p < |rows| && rows[p].outputIndex == k ==> p in Positions(rows, k)
  {
    if rows != [] {
      var init := rows[..|rows| - 1];
      PositionsComplete(init, k);
      forall p | 0 <= p < |rows| && rows[p].outputIndex == k ensures p in Positions(rows, k) {
        if p < |init| {
          assert init[p] == rows[p];
        }
      }
    }
  }

  /** The leaves at the found positions are the batch of output `k`. */
  lemma {:induction false} LeavesAtPositions(rows: seq<WithdrawalTxEntity>, k: nat)
    ensures LeavesAt(rows, Positions(rows, k)) == Batch(rows, k)
  {
    if rows != [] {
      var init := rows[..|rows| - 1];
      LeavesAtPositions(init, k);
      var pi := Positions(init, k);
      var ps := Positions(rows, k);
      assert LeavesAt(init, pi) == LeavesAt(rows, pi);
      if rows[|rows| - 1].outputIndex == k {
        assert LeavesAt(rows, ps) == LeavesAt(rows, pi) + [LeafOf(rows[|rows| - 1])];
      }
    }
  }
  /** What `SaveMerkleRootAndProof` does to the rows `Positions(rows, k)`
      is finalising output `k`: its batch's rows are stamped with `root`,
      the other rows are left alone. */
  lemma SavedBatchIsStamped(rows: seq<WithdrawalTxEntity>, saved: seq<WithdrawalTxEntity>, k: nat,
                            root: string, t: MerkleTree)
    requires |saved| == |rows|
    requires forall p :: 0 <= p < |saved| ==>
               saved[p] == if p in Positions(rows, k)
                           then Stamp(rows[p], root, t, LeavesAt(rows, Positions(rows, k)))
                           else rows[p]
    ensures LeavesAt(rows, Positions(rows, k)) == Batch(rows, k)
    ensures StampedBatch(rows, saved, k, root, t)
  {
    PositionsTagged(rows, k);
    PositionsComplete(rows, k);
    LeavesAtPositions(rows, k);
    forall p | 0 <= p < |rows| ensures p in Positions(rows, k) <==> rows[p].outputIndex == k {
      if p in Positions(rows, k) {
        var j :| 0 <= j < |Positions(rows, k)| && Positions(rows, k)[j] == p;
      }
    }
  }


  /** The saves `SaveMerkleRootAndProof` performs for rows `ps`, in order. */
  function StampWrites(rows: seq<WithdrawalTxEntity>, ps: seq<nat>, root: string,
                       t: MerkleTree, batch: seq<Leaf>): (w: seq<Write>)
    requires forall j :: 0 <= j < |ps| ==> ps[j] < |rows|
    ensures |w| == |ps|
  {
    seq(|ps|, j requires 0 <= j < |ps| => WithdrawalUpdated(ps[j], Stamp(rows[ps[j]], root, t, batch)))
  }

  /** Builds the tree over the batch `entities`, gives every entity the same
      root and its own proof, saves each entity once, in order, and returns
      the root. */
  method SaveMerkleRootAndProof(store: Store, entities: seq<nat>, t: MerkleTree) returns (root: string)
    requires forall j :: 0 <= j < |entities| ==> entities[j] < |store.withdrawals|
    modifies store
    ensures root == t.root(LeavesAt(old(store.withdrawals), entities))
    ensures store.outputs == old(store.outputs)
    ensures |store.withdrawals| == |old(store.withdrawals)|
    ensures forall p :: 0 <= p < |store.withdrawals| ==>
              store.withdrawals[p]
              == if p in entities
                 then Stamp(old(store.withdrawals)[p], root, t, LeavesAt(old(store.withdrawals), entities))
                 else old(store.withdrawals)[p]
    ensures store.log == old(store.log)
                         + StampWrites(old(store.withdrawals), entities, root, t,
                                       LeavesAt(old(store.withdrawals), entities))
  {
    ghost var rows := store.withdrawals;
    var txs := LeavesAt(store.withdrawals, entities);
    root := t.root(txs);
    for i := 0 to |entities|
      invariant |store.withdrawals| == |rows|
      invariant store.outputs == old(store.outputs)
      invariant forall p :: 0 <= p < |rows| ==>
                  store.withdrawals[p] == if p in entities[..i] then Stamp(rows[p], root, t, txs) else rows[p]
      invariant store.log == old(store.log) + StampWrites(rows, entities[..i], root, t, txs)
    {
      var row := store.withdrawals[entities[i]].(merkleRoot := root, merkleProof := t.proof(txs, txs[i]));
      assert row == Stamp(rows[entities[i]], root, t, txs);
      assert entities[..i + 1] == entities[..i] + [entities[i]];
      assert StampWrites(rows, entities[..i + 1], root, t, txs)
             == StampWrites(rows, entities[..i], root, t, txs) + [WithdrawalUpdated(entities[i], row)];
      store.UpdateWithdrawal(entities[i], row);
    }
    assert entities[..|entities|] == entities;
  }

  // ---------------------------------------------------------------------
  // Output entity
  // ---------------------------------------------------------------------

  /** Block data of the current height: `block.header.app_hash` and `block_id.hash`. */
  datatype BlockInfo = BlockInfo(appHash: string, blockIdHash: string)

  /** The hash and encoding primitives: sha3-256 on bytes, sha3-256 of an
      output index (the version), base64 decoding and encoding. */
  datatype Crypto = Crypto(sha3: Bytes -> Bytes, sha3OfNumber: nat -> Bytes,
                           fromBase64: string -> Bytes, toBase64: Bytes -> string)

  /** Output root layout: H(H(version) ++ stateRoot ++ merkleRoot ++ blockHash), base64. */
  function OutputRoot(c: Crypto, version: nat, stateRoot: string, merkleRoot: string, lastBlockHash: string): string
  {
    c.toBase64(c.sha3(c.sha3OfNumber(version) + c.fromBase64(stateRoot)
                      + c.fromBase64(merkleRoot) + c.fromBase64(lastBlockHash)))
  }

  /** The output record for `outputIndex` over blocks `start .. end`. */
  function CalculateOutputEntity(c: Crypto, outputIndex: nat, blockInfo: BlockInfo, merkleRoot: string,
                                 startBlockNumber: int, endBlockNumber: int): (o: OutputEntity)
    ensures o.outputIndex == outputIndex && o.merkleRoot == merkleRoot
    ensures o.startBlockNumber == startBlockNumber && o.endBlockNumber == endBlockNumber
    ensures o.stateRoot == blockInfo.appHash && o.lastBlockHash == blockInfo.blockIdHash
    ensures o.outputRoot == OutputRoot(c, outputIndex, o.stateRoot, merkleRoot, o.lastBlockHash)
  {
    var stateRoot := blockInfo.appHash;
    var lastBlockHash := blockInfo.blockIdHash;
    var outputRoot := OutputRoot(c, outputIndex, stateRoot, merkleRoot, lastBlockHash);
    OutputEntity(outputIndex, outputRoot, stateRoot, merkleRoot, lastBlockHash,
                 startBlockNumber, endBlockNumber)
  }

  /** Collision resistance and fixed 32-byte digests, as assumed of sha3-256. */
  ghost predicate DigestCrypto(c: Crypto)
  {
    && (forall x, y :: c.sha3(x) == c.sha3(y) ==> x == y)
    && (forall x, y :: c.toBase64(x) == c.toBase64(y) ==> x == y)
    && (forall n :: |c.sha3OfNumber(n)| == 32)
  }

  /** Under collision resistance, with 32-byte digests the output root binds
      each of its four parts at its fixed position. */
  lemma OutputRootBinds(c: Crypto, v1: nat, s1: string, m1: string, b1: string,
                        v2: nat, s2: string, m2: string, b2: string)
    requires DigestCrypto(c)
    requires |c.fromBase64(s1)| == 32 && |c.fromBase64(m1)| == 32 && |c.fromBase64(b1)| == 32
    requires |c.fromBase64(s2)| == 32 && |c.fromBase64(m2)| == 32 && |c.fromBase64(b2)| == 32
    requires OutputRoot(c, v1, s1, m1, b1) == OutputRoot(c, v2, s2, m2, b2)
    ensures c.sha3OfNumber(v1) == c.sha3OfNumber(v2)
    ensures c.fromBase64(s1) == c.fromBase64(s2)
    ensures c.fromBase64(m1) == c.fromBase64(m2)
    ensures c.fromBase64(b1) == c.fromBase64(b2)
  {
    var x := c.sha3OfNumber(v1) + c.fromBase64(s1) + c.fromBase64(m1) + c.fromBase64(b1);
    var y := c.sha3OfNumber(v2) + c.fromBase64(s2) + c.fromBase64(m2) + c.fromBase64(b2);
    assert c.sha3(x) == c.sha3(y);
    assert x == y;
    assert |c.sha3OfNumber(v1)| == 32 && |c.sha3OfNumber(v2)| == 32;
    assert x[..32] == c.sha3OfNumber(v1) && y[..32] == c.sha3OfNumber(v2);
    assert x[32..64] == c.fromBase64(s1) && y[32..64] == c.fromBase64(s2);
    assert x[64..96] == c.fromBase64(m1) && y[64..96] == c.fromBase64(m2);
    assert x[96..] == c.fromBase64(b1) && y[96..] == c.fromBase64(b2);
  }

  // ---------------------------------------------------------------------
  // Events
  // ---------------------------------------------------------------------

  datatype EventAttribute = EventAttribute(key: string, value: string)
  datatype Event = Event(eventType: string, attributes: seq<EventAttribute>)
  /** One entry of `tx_responses`; `events` may be absent. */
  datatype TxResponse = TxResponse(events: Option<seq<Event>>)
  /** A transaction search result: `txs` (contents never read) and `tx_responses`. */
  datatype SearchResult = SearchResult(txs: seq<string>, txResponses: seq<TxResponse>)

  /** The events of the responses that carry a non-empty event list, in order. */
  function ExtractAllEvents(txs: seq<TxResponse>): seq<Event>
  {
    if txs == [] then []
    else
      var head := if txs[0].events.Some? && |txs[0].events.value| > 0 then txs[0].events.value else [];
      head + ExtractAllEvents(txs[1..])
  }

  /** Extraction distributes over concatenation of response lists. */
  lemma {:induction false} ExtractAllEventsAppend(a: seq<TxResponse>, b: seq<TxResponse>)
    ensures ExtractAllEvents(a + b) == ExtractAllEvents(a) + ExtractAllEvents(b)
  {
    if a != [] {
      assert (a + b)[0] == a[0];
      assert (a + b)[1..] == a[1..] + b;
      ExtractAllEventsAppend(a[1..], b);
    } else {
      assert a + b == b;
    }
  }

  /** An event is extracted exactly when some response lists it. */
  lemma {:induction false} ExtractAllEventsMembership(txs: seq<TxResponse>, e: Event)
    ensures e in ExtractAllEvents(txs)
            <==> exists i :: 0 <= i < |txs| && txs[i].events.Some? && e in txs[i].events.value
  {
    if txs != [] {
      ExtractAllEventsMembership(txs[1..], e);
      if exists i :: 0 <= i < |txs| && txs[i].events.Some? && e in txs[i].events.value {
        var i :| 0 <= i < |txs| && txs[i].events.Some? && e in txs[i].events.value;
        if i > 0 {
          assert txs[1..][i - 1] == txs[i];
        }
      }
      if exists i :: 0 <= i < |txs[1..]| && txs[1..][i].events.Some? && e in txs[1..][i].events.value {
        var i :| 0 <= i < |txs[1..]| && txs[1..][i].events.Some? && e in txs[1..][i].events.value;
        assert txs[i + 1] == txs[1..][i];
      }
    }
  }

  /** The search result's emptiness flag and its events. */
  function FetchAllEvents(res: SearchResult): (r: (bool, seq<Event>))
    ensures r.0 <==> res.txs == []
    ensures r.1 == ExtractAllEvents(res.txResponses)
  {
    (|res.txs| == 0, ExtractAllEvents(res.txResponses))
  }

  /** Attribute list folded into a map, left to right. */
  function AttrMap(attrs: seq<EventAttribute>): map<string, string>
  {
    if attrs == [] then map[]
    else
      var last := attrs[|attrs| - 1];
      AttrMap(attrs[..|attrs| - 1])[last.key := last.value]
  }

  /** Folds an event's attributes into a key -> value map. */
  method EventsToAttrMap(event: Event) returns (m: map<string, string>)
    ensures m == AttrMap(event.attributes)
  {
    var attrs := event.attributes;
    m := map[];
    for i := 0 to |attrs|
      invariant m == AttrMap(attrs[..i])
    {
      assert attrs[..i + 1][..i] == attrs[..i];
      m := m[attrs[i].key := attrs[i].value];
    }
    assert attrs[..|attrs|] == attrs;
  }

  /** The map's keys are exactly the attribute keys. */
  lemma {:induction false} AttrMapKeys(attrs: seq<EventAttribute>, k: string)
    ensures k in AttrMap(attrs) <==> exists j :: 0 <= j < |attrs| && attrs[j].key == k
  {
    if attrs != [] {
      var init := attrs[..|attrs| - 1];
      AttrMapKeys(init, k);
      if exists j :: 0 <= j < |init| && init[j].key == k {
        var j :| 0 <= j < |init| && init[j].key == k;
        assert attrs[j] == init[j];
      }
      if exists j :: 0 <= j < |attrs| && attrs[j].key == k {
        var j :| 0 <= j < |attrs| && attrs[j].key == k;
        if j < |init| {
          assert init[j] == attrs[j];
        }
      }
    }
  }

  /** When a key repeats, the last attribute with that key wins. */
  lemma {:induction false} AttrMapLastWins(attrs: seq<EventAttribute>, i: nat)
    requires i < |attrs|
    requires forall j :: i < j < |attrs| ==> attrs[j].key != attrs[i].key
    ensures attrs[i].key in AttrMap(attrs) && AttrMap(attrs)[attrs[i].key] == attrs[i].value
  {
    if i < |attrs| - 1 {
      var init := attrs[..|attrs| - 1];
      assert init[i] == attrs[i];
      AttrMapLastWins(init, i);
    }
  }

  // ---------------------------------------------------------------------
  // Search parameters
  // ---------------------------------------------------------------------

  datatype QueryEntry = QueryEntry(key: string, value: string)

  /** Search options: the query entries and the remaining options in the
      order their keys were inserted. */
  class SearchOptions {
    var query: Option<seq<QueryEntry>>
    var others: seq<(string, string)>

    constructor (query: Option<seq<QueryEntry>>, others: seq<(string, string)>)
      ensures this.query == query && this.others == others
    {
      this.query := query;
      this.others := others;
    }
  }

  /** `tx.height` is rendered `key=value`, every other key `key='value'`. */
  function RenderQuery(q: QueryEntry): string
  {
    if q.key == "tx.height" then q.key + "=" + q.value else q.key + "='" + q.value + "'"
  }

  /** The `query` parameters the query entries produce. */
  function QueryParams(query: Option<seq<QueryEntry>>): (ps: seq<(string, string)>)
    ensures query.None? ==> ps == []
    ensures query.Some? ==> |ps| == |query.value|
    ensures query.Some? ==>
              forall i :: 0 <= i < |ps| ==>
                && ps[i].0 == "query"
                && ((forall j :: 0 <= j < |query.value[i].key| ==> query.value[i].key[j] != '=')
                    ==> ParseQuery(ps[i].1) == Some(query.value[i]))
  {
    if query.None? then []
    else
      RenderQueriesRoundTrip(query.value);
      seq(|query.value|, i requires 0 <= i < |query.value| => ("query", RenderQuery(query.value[i])))
  }

  /** Every entry whose key has no `=` is read back from its rendering. */
  lemma RenderQueriesRoundTrip(qs: seq<QueryEntry>)
    ensures forall i :: 0 <= i < |qs| && (forall j :: 0 <= j < |qs[i].key| ==> qs[i].key[j] != '=') ==>
              ParseQuery(RenderQuery(qs[i])) == Some(qs[i])
  {
    forall i | 0 <= i < |qs| && (forall j :: 0 <= j < |qs[i].key| ==> qs[i].key[j] != '=')
      ensures ParseQuery(RenderQuery(qs[i])) == Some(qs[i])
    {
      RenderQueryRoundTrip(qs[i]);
    }
  }

  /** Builds the search's URL parameters: one `query` parameter per query
      entry, then every other option; removes `query` from the options. */
  method SearchParams(options: SearchOptions) returns (params: seq<(string, string)>)
    modifies options
    ensures params == QueryParams(old(options.query)) + old(options.others)
    ensures options.query.None? && options.others == old(options.others)
  {
    params := [];
    if options.query.Some? {
      var qs := options.query.value;
      for i := 0 to |qs|
        invariant |params| == i
        invariant forall j :: 0 <= j < i ==> params[j] == ("query", RenderQuery(qs[j]))
      {
        params := params + [("query", RenderQuery(qs[i]))];
      }
      assert params == QueryParams(Some(qs));
    }
    options.query := None;
    var rest := options.others;
    ghost var base := params;
    for i := 0 to |rest|
      invariant params == base + rest[..i]
    {
      assert rest[..i + 1] == rest[..i] + [rest[i]];
      params := params + [rest[i]];
    }
    assert rest[..|rest|] == rest;
  }

  /** Position of the first `=` in `s`, or `|s|` when there is none. */
  function FirstEquals(s: string): (i: nat)
    ensures i <= |s| && (i < |s| ==> s[i] == '=')
    ensures forall j :: 0 <= j < i ==> s[j] != '='
  {
    if s == [] || s[0] == '=' then 0 else 1 + FirstEquals(s[1..])
  }

  /** Reads a rendered query entry back: key up to the first `=`, the value
      bare for `tx.height` and between single quotes otherwise. */
  function ParseQuery(s: string): Option<QueryEntry>
  {
    var i := FirstEquals(s);
    if i == |s| then None
    else
      var key, rest := s[..i], s[i + 1..];
      if key == "tx.height" then Some(QueryEntry(key, rest))
      else if |rest| >= 2 && rest[0] == '\'' && rest[|rest| - 1] == '\'' then
        Some(QueryEntry(key, rest[1..|rest| - 1]))
      else None
  }

  /** Rendering is unambiguous: a key without `=` is read back with its value. */
  lemma RenderQueryRoundTrip(q: QueryEntry)
    requires forall j :: 0 <= j < |q.key| ==> q.key[j] != '='
    ensures ParseQuery(RenderQuery(q)) == Some(q)
  {
    var rest := if q.key == "tx.height" then q.value else "'" + q.value + "'";
    assert RenderQuery(q) == q.key + "=" + rest;
    SplitAtFirstEquals(q.key, rest);
    if q.key != "tx.height" {
      assert rest[1..|rest| - 1] == q.value;
    }
  }

  /** In `key=rest` with no `=` in `key`, the first `=` ends the key. */
  lemma SplitAtFirstEquals(key: string, rest: string)
    requires forall j :: 0 <= j < |key| ==> key[j] != '='
    ensures FirstEquals(key + "=" + rest) == |key|
    ensures (key + "=" + rest)[..|key|] == key && (key + "=" + rest)[|key| + 1..] == rest
  {
    var s := key + "=" + rest;
    assert s[|key|] == '=';
    assert forall j :: 0 <= j < |key| ==> s[j] == key[j];
  }
}
