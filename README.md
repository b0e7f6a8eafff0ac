# OPinit executor core, modelled in Dafny

This project models the L2 side of the OPinit bridge executor and proves properties of that model:

- The executor watches an L2 chain and records every `initiate_token_withdrawal` event as a withdrawal row once an output exists; before the first output such events are dropped. Each row is tagged with the index of the output that will carry it.
- At intervals, it finalises the next output. It builds a merkle tree over that output's withdrawal batch and stamps every row of the batch with the tree's root and the row's own proof. It then saves an output record covering the blocks since the previous output.
- The executor also serves a paginated listing of deposit transactions.

Files:

- `wrappers.dfy` defines `Option`.
- `orm.dfy` (module `Orm`) holds the persisted entities and an in-memory `Store` class.
  - `Store` stands in for the database the monitor writes through its entity manager. Outputs are keyed by output index, and withdrawal rows are kept in table order.
  - `Store` also keeps a log of every save, in the order performed, so ordering claims ("rows stamped before the output is saved") can be stated.
  - The file defines the store invariants:
    - `ChainedOutputs`: indices 1..n without gaps and adjacent, non-overlapping block ranges.
    - `CommittedState`: every finalised output's root is the root of its batch, and every row of a finalised batch carries that root and its own proof.
- `helper.dfy` (module `MonitorHelper`) covers the monitor helper:
  - the latest-output query;
  - the withdrawal batch query;
  - batch stamping (`SaveMerkleRootAndProof`);
  - the output-root layout;
  - event extraction and attribute folding;
  - the search-parameter rendering.
- `l2.dfy` (module `L2`) covers the L2 monitor:
  - `dateToSeconds`;
  - the submission-interval gate;
  - withdrawal tagging (`HandleInitiateTokenWithdrawalEvent`, `HandleEvents`);
  - output sequencing (`HandleOutput`);
  - the value-level lemmas showing that these operations keep the store invariants.
- `deposit.dfy` (module `DepositTxService`) covers the deposit listing: optional filters, ordering by sequence, the `offset * limit` window, `count`, and the `next` rule.

External services are parameters of the model:

- Hashing, base64 and the merkle-tree library are datatypes of total functions (`Crypto`, `MerkleTree`). Nothing is assumed about them except where a lemma states it in its `requires` (`DigestCrypto`).
- The L1 token-pair registry is a function `pairOf`.
- The gate's inputs (the last submission time, the bridge's interval, the threshold and the clock) are a `GateInput` value.
- The current height's block data is a `BlockInfo` value.
- A transaction search result is a `SearchResult` value.

## Model

| member | source | states |
|---|---|---|
| MonitorHelper.GetLastOutputFromDB | src/lib/monitor/helper.ts:55-64 | returns None exactly when no output is stored; otherwise the stored output with the greatest index, whose index and end block are the latest ones |
| MonitorHelper.GetLastOutputIndex | src/lib/monitor/helper.ts:66-73 | the latest output index, 0 when none is stored; when outputs exist it is a stored index and no stored index exceeds it |
| MonitorHelper.GetWithdrawalTxs | src/lib/monitor/helper.ts:24-32 | returns the positions of exactly the rows tagged with the requested output index, each once, in the store's fixed row order |
| MonitorHelper.PositionsTagged | src/lib/monitor/helper.ts:29-31 | every row found is tagged with the requested index |
| MonitorHelper.PositionsComplete | src/lib/monitor/helper.ts:29-31 | every row tagged with the requested index is found |
| MonitorHelper.PositionsIncreasing | src/lib/monitor/helper.ts:29-31 | rows are found in table order, each once |
| MonitorHelper.LeavesAtPositions | src/lib/monitor/helper.ts:203-210 | the leaves built from the found rows are exactly the output's withdrawal batch |
| MonitorHelper.SaveMerkleRootAndProof | src/lib/monitor/helper.ts:198-220 | returns the tree root over the batch's leaves. Every row of the batch gets that root and its own proof; every other row and every output is unchanged; exactly one save per row, in batch order |
| MonitorHelper.LeavesAt | src/lib/monitor/helper.ts:203-210 | the leaves of the listed rows, one per position, in the listed order |
| MonitorHelper.StampWrites | src/lib/monitor/helper.ts:214-218 | definition: one update save per listed row, in order, each writing the row stamped with the root and its proof; as many saves as rows |
| MonitorHelper.SavedBatchIsStamped | src/lib/monitor/helper.ts:203-219 | stamping the rows found for index k is the same as finalising batch k: the tagged rows carry the batch root and their proofs, the others are untouched |
| MonitorHelper.CalculateOutputEntity | src/lib/monitor/helper.ts:166-196 | copies the index, the merkle root and both block numbers; takes the state root from the app hash and the last block hash from the block id; the output root is H(H(version) ++ stateRoot ++ merkleRoot ++ blockHash), base64 |
| MonitorHelper.OutputRoot | src/lib/monitor/helper.ts:176-183 | definition: base64 of H(H(version) ++ decode(stateRoot) ++ decode(merkleRoot) ++ decode(lastBlockHash)) |
| MonitorHelper.OutputRootBinds | src/lib/monitor/helper.ts:176-183 | if sha3 is collision resistant and the parts are 32 bytes, equal output roots have equal version digests, state roots, merkle roots and block hashes |
| MonitorHelper.ExtractAllEvents | src/lib/monitor/helper.ts:111-114 | definition: the events of each response with a present, non-empty `events` list, concatenated in response order |
| MonitorHelper.ExtractAllEventsAppend | src/lib/monitor/helper.ts:111-114 | event extraction distributes over concatenation of response lists, so events keep their response order |
| MonitorHelper.ExtractAllEventsMembership | src/lib/monitor/helper.ts:111-114 | an event is extracted if and only if some response lists it |
| MonitorHelper.FetchAllEvents | src/lib/monitor/helper.ts:103-119 | the emptiness flag comes from `txs` alone, and the events come from `tx_responses` |
| MonitorHelper.AttrMap | src/lib/monitor/helper.ts:122-125 | definition: the attributes folded left to right, each one setting its key to its value |
| MonitorHelper.EventsToAttrMap | src/lib/monitor/helper.ts:121-126 | the attributes folded left to right into a key/value map |
| MonitorHelper.AttrMapKeys | src/lib/monitor/helper.ts:121-126 | the map's keys are exactly the attribute keys |
| MonitorHelper.AttrMapLastWins | src/lib/monitor/helper.ts:122-124 | when a key repeats, the value of its last attribute wins |
| MonitorHelper.SearchOptions.constructor | src/lib/monitor/helper.ts:137 | search options hold the query entries and the other options |
| MonitorHelper.QueryParams | src/lib/monitor/helper.ts:142-147 | no query gives no parameters; otherwise one parameter per entry, each named `query`, and for a key without `=` its value parses back to that entry |
| MonitorHelper.RenderQueriesRoundTrip | src/lib/monitor/helper.ts:142-147 | every entry of a query list whose key has no `=` is read back from its rendering |
| MonitorHelper.RenderQuery | src/lib/monitor/helper.ts:145 | definition: `tx.height` is rendered `key=value`, every other key `key='value'` |
| MonitorHelper.SearchParams | src/lib/monitor/helper.ts:139-153 | the parameters are the rendered query entries followed by the other options; afterwards the caller's options have no query and the other options are unchanged |
| MonitorHelper.FirstEquals | src/lib/monitor/helper.ts:145 | the position of the first `=`, or the length when there is none |
| MonitorHelper.RenderQueryRoundTrip | src/lib/monitor/helper.ts:145 | the rendering is unambiguous: `tx.height=v` and `key='v'` parse back to the entry for any key without `=` |
| MonitorHelper.SplitAtFirstEquals | src/lib/monitor/helper.ts:145 | in `key=rest`, with no `=` in the key, the first `=` ends the key |
| L2.DateToSeconds | src/lib/monitor/l2.ts:35-37 | whole seconds rounded down: `s*1000 <= ms < s*1000 + 1000` |
| L2.CheckSubmissionInterval | src/lib/monitor/l2.ts:112-128 | eligible when no output was ever submitted |
| L2.GateCharacterisation | src/lib/monitor/l2.ts:120-125 | after a submission, eligible if and only if `(elapsed seconds + 1) * den > interval * num`, which is `now >= last + floor(interval * threshold)` without the floor |
| L2.GateMonotone | src/lib/monitor/l2.ts:120-125 | once eligible, the gate stays eligible as the clock advances |
| L2.GateOpensAfterInterval | src/lib/monitor/l2.ts:120-125 | with a threshold of at most 1, a full interval after the last submission always opens the gate |
| L2.GateExample | src/lib/monitor/l2.ts:118-125 | an interval of 600 s with threshold 0.9 throttles for exactly 540 s |
| L2.Lookup | src/lib/monitor/l2.ts:67-76 | a missing attribute reads as None, a present one as its value |
| L2.WithdrawalEvents | src/lib/monitor/l2.ts:101-103 | an event is kept if and only if it is an `initiate_token_withdrawal` event; no longer than its input |
| L2.WithdrawalEventsMultiset | src/lib/monitor/l2.ts:101-103 | each `initiate_token_withdrawal` event is kept as often as it occurs, every other event is dropped |
| L2.WithdrawalEventsAppend | src/lib/monitor/l2.ts:101-103 | filtering a concatenation concatenates the filtered parts, so the kept events stay in their order |
| L2.WithdrawalFromEvent | src/lib/monitor/l2.ts:70-81 | definition: the row for one event: denoms from the token pair, sequence, sender, receiver and amount from the attributes, the bridge id, the output index, an empty root and an empty proof |
| L2.RowOfEvent | src/lib/monitor/l2.ts:104-106 | definition: an event's attributes folded into a map, its `denom` looked up in the token-pair registry, then `WithdrawalFromEvent` |
| L2.Inserts | src/lib/monitor/l2.ts:83 | definition: one insert save per new row, in order; as many saves as rows |
| L2.NewWithdrawals | src/lib/monitor/l2.ts:104-107 | one row per withdrawal event, each tagged with the given output index and the monitor's bridge id |
| L2.L2Monitor.constructor | src/lib/monitor/l2.ts:16-25 | the monitor keeps its bridge id, tree library, crypto primitives and current height |
| L2.L2Monitor.HandleInitiateTokenWithdrawalEvent | src/lib/monitor/l2.ts:50-87 | with no stored output nothing is saved. Otherwise exactly one row is appended, tagged latest index + 1, with an empty root and proof, and the sequence, sender, receiver, amount and denoms taken from the event and the token pair; outputs are unchanged |
| L2.L2Monitor.HandleEvents | src/lib/monitor/l2.ts:89-110 | returns false and saves nothing for a height without transactions. Otherwise returns true and appends, in order, one row per `initiate_token_withdrawal` event (none when no output exists yet); outputs are unchanged |
| L2.L2Monitor.HandleOutput | src/lib/monitor/l2.ts:130-183 | saves nothing when the gate is closed or no block is new. Otherwise the next index is fresh; the batch of that index is stamped with its root; then one output is saved, covering blocks `lastEnd + 1 .. currentHeight` and carrying that root. The output chain and the batch bookkeeping invariants are kept |
| L2.AppendKeepsCommitted | src/lib/monitor/l2.ts:70-83 | appending rows tagged latest index + 1 changes no finalised batch and keeps the bookkeeping invariant |
| L2.AppendKeepsBatch | src/lib/monitor/l2.ts:78 | rows tagged with one index do not enter another output's batch |
| L2.NextIndexFresh | src/lib/monitor/l2.ts:144-148 | the index after the latest one is not stored yet |
| L2.FinaliseKeepsChained | src/lib/monitor/l2.ts:143-155 | saving the output `lastIndex + 1` over `lastEnd + 1 .. end` with a non-empty range keeps indices contiguous and ranges adjacent |
| L2.FinaliseKeepsCommitted | src/lib/monitor/l2.ts:162-182 | stamping the next batch with its root and then saving its output keeps every output's root equal to its batch root, with every finalised row stamped |
| L2.FinaliseFacts | src/lib/monitor/l2.ts:162-182 | after finalising, the new index is the latest, and no row's tag or batch changes |
| L2.StampedKeepsLeaves | src/lib/monitor/helper.ts:214-217 | stamping a batch changes no row's tag or leaf |
| L2.FinalisedTags | src/lib/monitor/l2.ts:168-182 | every row's tag stays within 1 .. latest + 1 after finalising |
| L2.FinalisedStamps | src/lib/monitor/l2.ts:168-182 | every row of a finalised batch carries its output's root and proof after finalising |
| L2.FinalisedRoots | src/lib/monitor/l2.ts:168-182 | every output's root is the root of its batch after finalising |
| L2.OtherOutputKept | src/lib/monitor/l2.ts:182 | saving one output leaves every other stored output as it was |
| L2.StampKeepsLeaf | src/lib/monitor/helper.ts:214-217 | stamping writes only the root and proof, never the tag or a leaf field |
| L2.StampIdempotent | src/lib/monitor/helper.ts:214-217 | stamping a row twice with the same root and batch changes nothing more |
| L2.StampKeepsBatches | src/lib/monitor/helper.ts:214-217 | rows differing only in root and proof form the same batches |
| L2.NextIndexIsLast | src/lib/monitor/l2.ts:144-148 | the output saved at `lastIndex + 1` becomes the latest |
| Orm.Store.constructor | src/lib/monitor/helper.ts:85-91 | the empty store, the starting state of the repository `saveEntity` writes to, satisfies the primary-key and output-chain invariants |
| Orm.Store.InsertWithdrawal | src/lib/monitor/helper.ts:85-91 | saving a new row appends it and logs one save; outputs are unchanged |
| Orm.Store.UpdateWithdrawal | src/lib/monitor/helper.ts:85-91 | saving an existing row replaces it in place and logs one save; outputs are unchanged |
| Orm.Store.SaveOutput | src/lib/monitor/helper.ts:85-91 | saving an output stores it under its index, keeps the primary-key invariant and logs one save |
| Orm.Stamp | src/lib/monitor/helper.ts:215-216 | definition: the row with the batch root and the proof of its own leaf within the batch; every other field kept |
| Orm.LastIndex | src/lib/monitor/l2.ts:144 | definition: the greatest stored output index, 0 when no output is stored |
| Orm.LastEnd | src/lib/monitor/l2.ts:143 | definition: the end block of the output with the greatest index, 0 when no output is stored |
| Orm.LeafOf | src/lib/monitor/helper.ts:203-210 | definition: the leaf of a row is its bridge id, sequence, sender, receiver, L1 denom and amount |
| Orm.Batch | src/lib/monitor/helper.ts:203-210 | the leaves of the rows tagged with an output index, in row order; never longer than the table |
| Orm.Positions | src/lib/monitor/helper.ts:29-31 | the positions of the rows tagged with an output index, in row order; every position is inside the table |
| Orm.MaxKeyExists | src/lib/monitor/helper.ts:59-63 | a non-empty set of output indices has a greatest element |
| Orm.BatchAppend | src/lib/monitor/helper.ts:203-210 | a new row extends the batch of its own index only |
| Orm.BatchIgnoresStamps | src/lib/monitor/helper.ts:203-210 | the batch leaves read only the tag and the leaf fields |
| Orm.ChainedNoOverlap | src/lib/monitor/l2.ts:143-148 | in the output chain, an earlier output ends before a later one starts |
| Orm.ChainedCovers | src/lib/monitor/l2.ts:143-148 | in the output chain, every block from 1 to the latest end is covered by some output |
| DepositTxService.OrderOf | src/service/executor/DepositTxService.ts:26 | descending if and only if the flag is the string `true` |
| DepositTxService.Matches | src/service/executor/DepositTxService.ts:34-40 | definition: the sequence filter applies only to a non-zero sequence, the sender filter only to a non-empty address |
| DepositTxService.Filter | src/service/executor/DepositTxService.ts:34-40 | keeps each matching row as often as it occurs and drops the rest; a sequence of 0 or an empty address applies no filter |
| DepositTxService.Insert | src/service/executor/DepositTxService.ts:43 | inserting into a sorted list keeps it sorted and adds exactly the new row |
| DepositTxService.SortBySequence | src/service/executor/DepositTxService.ts:43 | sorted by sequence in the requested direction, and a permutation of its input |
| DepositTxService.Window | src/service/executor/DepositTxService.ts:44-45 | `skip` then `take`: at most `take` rows, the slice of the input at those bounds |
| DepositTxService.Listing | src/service/executor/DepositTxService.ts:42-43 | the filtered rows sorted in the requested direction: sorted, and a permutation of the filtered rows |
| DepositTxService.GetDepositTxList | src/service/executor/DepositTxService.ts:19-64 | echoes the limit; returns at most `limit` rows, each a matching row of the table, sorted; the count is the number of matching rows; `next` is offset + 1 when present |
| DepositTxService.PageStart | src/service/executor/DepositTxService.ts:44 | definition: `offset` pages of `limit` rows, built by repeated addition; `DepositTxService.PageStartIsProduct` proves it is `offset * limit` |
| DepositTxService.PageStartIsProduct | src/service/executor/DepositTxService.ts:44 | the page skips `offset * limit` rows |
| DepositTxService.ListingFacts | src/service/executor/DepositTxService.ts:42-48 | any window of the listing is sorted and holds matching rows, and the listing is as long as the filtered rows |
| DepositTxService.ListingIsFiltered | src/service/executor/DepositTxService.ts:42-48 | the sorted listing has the filtered rows' count and holds only matching rows of the table |
| DepositTxService.FilterIgnoresPage | src/service/executor/DepositTxService.ts:34-40 | the filters read only the sequence and address parameters |
| DepositTxService.PageIsWindow | src/service/executor/DepositTxService.ts:42-53 | the page is the window of the model's listing (one fixed order of ties) starting `offset` pages in; `next` is present if and only if the count exceeds `(offset + 1) * limit` |
| DepositTxService.NextPageNonEmpty | src/service/executor/DepositTxService.ts:49-53 | with a positive limit, `next` is present if and only if the next page is non-empty |
| DepositTxService.CountIgnoresPage | src/service/executor/DepositTxService.ts:48 | the count does not depend on the offset or the limit |
| DepositTxService.PageSlice | src/service/executor/DepositTxService.ts:44-45 | page j is the slice of the model's listing (one fixed order of ties) between the starts of pages j and j + 1 |
| DepositTxService.PagesTile | src/service/executor/DepositTxService.ts:42-53 | pages 0 .. k-1, concatenated, are the model's listing prefix up to `k * limit`, so paging from offset 0 lists every matching row once, in order; for the program this holds only when matching rows have distinct sequence numbers (see Left out) |

## Notes on the code

- With no stored output, `handleInitiateTokenWithdrawalEvent` returns without saving (`src/lib/monitor/l2.ts:59-64`), so the `: 1` fallback at `src/lib/monitor/l2.ts:78` is unreachable. The model follows the code.

## Left out

- Hashing, base64 and the merkle tree: `sha3_256`, `Buffer` decoding and `WithdrawStorage` are not part of this model. They are the abstract `Crypto` and `MerkleTree` values. No tree shape, odd-leaf rule or byte encoding of the version is modelled.
- The leaf conversion's `BigInt(...)` parsing of bridge id, sequence and amount is not modelled; the leaf carries the attribute strings as read.
- TypeORM: repositories, the query builder, transactions and `queryRunner.release` are replaced by the in-memory `Store` and by functions over sequences. Save failures and concurrent writers are not modelled. TypeORM's `save` overwrites a row with the same primary key, and the withdrawal entity's key is not part of this model: `Orm.Store.InsertWithdrawal` always appends, so the model assumes each withdrawal (bridge, sequence) is saved once.
- The monitor base class (`./monitor`) is not part of this model: the block loop, the sync-state table, advancing `currentHeight`, and the transaction every handler runs in.
- `handleBlock` is not a separate member: it only calls `handleOutput`, which `L2.L2Monitor.HandleOutput` models.
- RPC and LCD queries are inputs of the model: `blockInfo`, `getBridgeInfo`, `getLastOutputInfo`, `tokenPairByL2Denom`, `getLatestBlock`, the transaction search request itself, and the wall clock in `getCurTimeSec`.
- The network request in `search` is not modelled. `SearchParams` builds its parameters, and the result reaches `HandleEvents` as a value.
- Prometheus metrics (`endBlock`), winston logging, `extractErrorMessage` and `parseData` are left out, since they do not affect stored state.
- Other helpers the core does not reach are left out: `getSyncedState`, `getDepositTx`, `getCoin`, `getOutputByIndex`, `getLatestOutputFromExecutor` and `getOutputFromExecutor`.
- `src/lib/txv41.ts` (`sendTx`) is left out: it wraps wallet signing and broadcast in an external library.
- L2.CheckSubmissionInterval: `SUBMISSION_THRESHOLD` is a float. The model uses an exact fraction `num / den`, so floating-point rounding of `interval * threshold` is not captured.
- L2.DateToSeconds: `Date.getTime()` is modelled as an integer count of milliseconds; invalid dates (NaN) are not modelled.
- DepositTxService.GetDepositTxList: `offset` and `limit` are natural numbers. NaN, negative or fractional values from the query string are not modelled, and neither is `Number(param.limit) ?? 10`, whose fallback never applies.
- DepositTxService.Window: the window is read literally. TypeORM's reading of `take(0)` as "no limit" is not modelled.
- DepositTxService.SortBySequence: the database's order among rows with equal sequence numbers is unspecified, and each page is a separate query that may order ties differently. The model orders ties once, by an insertion sort, and `DepositTxService.PageIsWindow`, `DepositTxService.PageSlice` and `DepositTxService.PagesTile` hold for that one fixed order. For the program they hold only when matching rows have distinct sequence numbers; otherwise a tied row can appear on two pages and another on none.
- MonitorHelper.GetWithdrawalTxs: the query gives no `order`, so the database decides the order of the batch, and the merkle root depends on that order. The model fixes the table's row order, and `Orm.Batch`, `Orm.RootsMatch` and `L2.L2Monitor.HandleOutput` rely on it.
- MonitorHelper.GetWithdrawalTxs and MonitorHelper.SaveMerkleRootAndProof: the entities are identified by their positions in the withdrawal table rather than passed as objects. Object aliasing between the fetched entities and the table is not modelled.
- L2.L2Monitor.HandleInitiateTokenWithdrawalEvent and L2.L2Monitor.HandleEvents: their contracts give the new rows and saves exactly. That these appends preserve the bookkeeping invariant is stated separately by `L2.AppendKeepsCommitted`, not in the methods' own `ensures`.
