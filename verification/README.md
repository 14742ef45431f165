# eth-parser, modelled in Dafny

eth-parser watches an Ethereum node for transfers that touch a set of
subscribed addresses. The engine (`EthParser`) keeps three pieces of state:

- the current block height;
- the last processed height;
- a subscription set.

A background task refreshes the current height from the node's
`eth_blockNumber` reply. A second task runs scan passes. Each pass requests
every block from the last processed height + 1 up to the current height with
`eth_getBlockByNumber` and groups the block's transactions per subscribed
sender and recipient. Each group is stamped with the parsed block number,
then notified and appended to an in-memory store (`MemoryStorage`). At the
end of the pass the last processed height is set to the height captured at
its start. External callers subscribe addresses, read the current height and
read an address's stored transactions.

The Dafny project is split into these files:

- `models.dfy`: the records `Transaction` and `Block`, and `Lookup`, which
  models Go's read of a missing map key as the zero value, an empty list.
- `blocknumber.dfy`: block numbers on the wire.
  - `FormatBlockNumber` models `fmt.Sprintf("0x%x", n)`, including the minus
    sign Go prints for negative ints.
  - `ParseBlockNumber` models `strconv.ParseInt(s[2:], 16, 64)`: optional
    sign, digits of either case, range error outside int64.
  - `Wrap64` models Go's 64-bit int arithmetic.
- `storage.dfy`: `MemoryStorage` is a class whose `data` map is reassigned by
  `SaveTransactions`. Its meaning is given by the functions `Saved` and
  `AppendGroups`.
- `matching.dfy`: the per-block grouping loop. `GroupTransactions` is a
  method with a `for` loop, proved equal to the fold `Groups`. `GroupFor` is
  the per-address reference definition.
- `scan.dfy`: what a whole pass does, as functions of its inputs.
  - `ScanStore`: the store after a pass.
  - `History`: what one address gains.
  - `IsRun` and `PassLog`: the notify and save calls made. The calls for one
    block may come in any order of the block's groups, because Go's map
    iteration order is unspecified.
  - The lemmas state what the pass guarantees.
- `parser.dfy`: the class `EthParser`, with methods for:
  - the constructor and bootstrap;
  - the height refresh;
  - subscribing and reading;
  - the scan pass (`FetchTransactions`, whose loop is in `ScanRange`), and
    per height `ScanHeight` and `DeliverGroups`.

  The node is a parameter:
  - `heightReply: Option<string>` is the `eth_blockNumber` result, or `None`
    when the request failed.
  - `chain: Chain` maps each request parameter to the block the node returns
    for it. A missing key is a failed request.

  Two ghost fields record the calls that leave the engine: `log` holds the
  notify and save calls, and `requested` the requested heights.
- `scenario.dfy`: one worked pass over a two-block chain, as a lemma and
  through the engine.

The heights are Go ints, taken to be 64 bits wide as on a 64-bit target. The
model keeps them in int64 (`EthParser.Valid`)
and writes out the wrap-around of `lastProcessedBlock + 1` and of
`currentBlock - 50`.

The bootstrap steps back 50 blocks with no clamp at 0
(internal/parser/parser.go:151). A current height below 50 gives a negative
last processed height, and the first pass then requests negative heights,
formatted as `0x-…`. `Scenario.TwoBlockEngine` shows such a pass over −47..2.

## Model

| member | source | states |
|---|---|---|
| BlockNumber.Wrap64 | internal/parser/parser.go:192 | the result is an int64 congruent to its argument modulo 2^64, and an int64 argument is unchanged |
| BlockNumber.FormatBlockNumber | internal/parser/parser.go:241 | the request parameter always starts with "0x" followed by at least one character |
| BlockNumber.ParseInt16 | internal/parser/parser.go:172 | a parse succeeds only on a non-empty string, yields an int64, and yields a negative value only after a leading minus sign |
| BlockNumber.ParseBlockNumber | internal/parser/parser.go:205 | a string of at most two characters never parses (Go's `[2:]` panics below two bytes), and every parsed number is an int64 |
| BlockNumber.Magnitude | internal/parser/parser.go:172 | the digits ParseInt reads are the reply after an optional leading sign, never longer than the reply |
| BlockNumber.ParseInt16SyntaxError | internal/parser/parser.go:172-176 | nothing after the sign, or any character that is not a hex digit, is a parse error (ErrSyntax, or ErrRange when the digits before it already overflow) |
| BlockNumber.ParseInt16RangeError | internal/parser/parser.go:172-176 | hex digits whose value exceeds the largest int64, or exceeds 2^63 after a minus sign, are a parse error (Go's ErrRange) |
| BlockNumber.ParseInt16Value | internal/parser/parser.go:172 | a successful parse read non-empty hex digits, and its value is theirs, negated after a minus sign |
| BlockNumber.ParseInt16Accepts | internal/parser/parser.go:172 | non-empty hex digits of either case after an optional sign parse whenever their value fits int64 on the side of the sign |
| BlockNumber.UpperCaseReplyParses | internal/parser/parser.go:172 | a node reply with upper-case digits, "0x4B7", parses as 0x4b7 |
| BlockNumber.SignedReplyParses | internal/parser/parser.go:205 | a plus sign after the dropped two characters is accepted: "0x+ff" parses as 255 |
| BlockNumber.PaddedReplyParses | internal/parser/parser.go:205 | leading zeros are accepted: "0x00ff" parses as 255 |
| BlockNumber.DoublePrefixFails | internal/parser/parser.go:205 | only two characters are dropped, so "0x0x1" is a parse error |
| BlockNumber.HexValueSnoc | internal/parser/parser.go:172 | appending a hex digit multiplies the value by 16 and adds the digit's value |
| BlockNumber.HexDigitsRoundTrip | internal/parser/parser.go:241 | the digits `%x` prints for n are non-empty hex digits whose value is n |
| BlockNumber.NegativeParses | internal/parser/parser.go:172 | a minus sign followed by the `%x` digits of m parses as -m, down to the smallest int64 |
| BlockNumber.FormatParseRoundTrip | internal/parser/parser.go:205 | for every int64 n, parsing the engine's own request parameter for n gives n back |
| BlockNumber.FormatBlockNumberInjective | internal/parser/parser.go:241 | two int64 heights share a request parameter if and only if they are equal |
| Storage.Saved | internal/parser/storage.go:30 | a save adds the address as a key, appends the list to that address's list, and leaves every other address's list as it was |
| Storage.AppendGroups | internal/parser/parser.go:225-229 | saving every group of a block adds their addresses as keys and extends each address's list by its group |
| Storage.AppendGroupsStep | internal/parser/parser.go:225-228 | saving one more group in the range loop extends the groups saved so far by that group, whatever the visiting order |
| Storage.AppendNoGroups | internal/parser/parser.go:225-229 | a block with no groups leaves the store unchanged |
| Storage.SaveEmptyUnobservable | internal/parser/storage.go:30 | saving an empty list changes no address's readable list |
| Storage.SaveTwiceConcatenates | internal/parser/storage.go:30 | two saves to one address leave the two lists concatenated in call order |
| Storage.MemoryStorage.constructor | internal/parser/storage.go:20-24 | a new store is empty |
| Storage.MemoryStorage.SaveTransactions | internal/parser/storage.go:27-31 | the new dictionary is the old one with the list appended to the address's list |
| Storage.MemoryStorage.GetTransactions | internal/parser/storage.go:34-38 | the result is the address's stored list, and the empty list for an address never saved |
| Matching.GroupTransactions | internal/parser/parser.go:211-223 | the loop's dictionary gives each subscribed address its GroupFor list and no list to anyone else; an address is a key exactly when it is subscribed and its list is non-empty |
| Matching.GroupsAt | internal/parser/parser.go:213-223 | the grouping fold gives a subscribed address its GroupFor list, gives every other address none, and has the address as a key exactly when that list is non-empty |
| Matching.AddMatchAt | internal/parser/parser.go:214-221 | one iteration appends the stamped transaction once for each of its sides that is the subscribed address, and adds a key exactly for a subscribed party |
| Matching.GroupForAppend | internal/parser/parser.go:213 | the group of two consecutive runs of transactions is the first run's group followed by the second's, so block order is kept |
| Matching.HitsMembers | internal/parser/parser.go:214-221 | one transaction contributes only its stamped copy, and only when it touches the address |
| Matching.GroupForMembers | internal/parser/parser.go:214-221 | a transaction is in an address's group if and only if it is the stamped copy of a block transaction touching the address, so every member carries the block number |
| Matching.GroupForEmpty | internal/parser/parser.go:214-221 | an address's group is empty if and only if no transaction of the block has it as sender or recipient |
| Matching.SelfTransferTwice | internal/parser/parser.go:216-221 | a self-transfer by a subscribed address appears twice in a row at its place in its group |
| Matching.GroupsKeys | internal/parser/parser.go:211-223 | an address has a group if and only if it is subscribed and some transaction of the block touches it; that group is its non-empty GroupFor list |
| Matching.NoMatchNoGroups | internal/parser/parser.go:214 | a block has no groups if and only if none of its transactions has a subscribed sender or recipient |
| Scan.BlockGroupsSubscribed | internal/parser/parser.go:214-221 | only addresses of the snapshot get a group for a height |
| Scan.HeightRange | internal/parser/parser.go:198 | the heights a pass visits are first, first+1, …, last, one per step, and none when first > last |
| Scan.LoopHeights | internal/parser/parser.go:198 | the heights the loop visits in its first `steps` iterations, with i wrapping as a 64-bit int: it starts at first, each visited height passed the guard `i <= last`, and each next height is the previous one plus one, wrapped |
| Scan.LoopNeverEndsAtMax | internal/parser/parser.go:198 | with `i` a 64-bit int, a loop up to the largest int64 runs every number of steps asked of it, so it does not terminate |
| Scan.LoopRevisitsAfterMax | internal/parser/parser.go:198 | after the largest int64 the loop as written visits the smallest int64 |
| Scan.LoopHeightsBelowMax | internal/parser/parser.go:198 | when the last height is below the largest int64, the loop as written visits exactly HeightRange(first, last) |
| Scan.ScanStoreAt | internal/parser/parser.go:198-229 | after a pass, each address's list is its old list followed by its history over the range |
| Scan.ScanStoreKeys | internal/parser/parser.go:198-229 | a pass keeps every key of the store and adds only subscribed addresses |
| Scan.GatheredSplit | internal/parser/parser.go:198 | gathering one range of heights and then the next is the same as gathering their union |
| Scan.HistoryGathered | internal/parser/parser.go:198-229 | an address's history is what each height of the range adds to it, in height order |
| Scan.HistorySplit | internal/parser/parser.go:198 | a pass's history over a range is its history over a first part followed by the rest, so blocks are saved in ascending height order |
| Scan.HistoryMembers | internal/parser/parser.go:199-221 | everything saved for an address touches it, the address was in the snapshot, and the saved number is one parsed from a block fetched in the range |
| Scan.QuietHistory | internal/parser/parser.go:199-203 | heights whose request fails add nothing to any address's list |
| Scan.HistoryUnsubscribed | internal/parser/parser.go:187-191 | an address outside the set the pass is given gains nothing; FetchTransactions gives it the snapshot taken at the start of the pass (`old(subscriptions)`) |
| Scan.VisitingStep | internal/parser/parser.go:225 | visiting any group not yet visited keeps the range loop's bookkeeping |
| Scan.VisitingDone | internal/parser/parser.go:225 | once no group remains, every group was visited exactly once and the calls made are a run of the block's groups |
| Scan.EffectsStep | internal/parser/parser.go:227-228 | a notify then a save of an unvisited group extend the store by that group and the log by those two calls |
| Scan.OrderStep | internal/parser/parser.go:225 | a group not yet visited can be the next one in a visiting order |
| Scan.RunOfShape | internal/parser/parser.go:225-229 | the calls for a visiting order alternate notify and save, two per visited address, each with that address's group |
| Scan.RunLength | internal/parser/parser.go:225-229 | a block's calls number two per group |
| Scan.RunShape | internal/parser/parser.go:225-229 | in a block's calls, notifies and saves alternate, every save immediately follows the notify of the same address and list, and every call carries that address's group |
| Scan.RunCovers | internal/parser/parser.go:225-229 | every group of the block is notified and then saved |
| Scan.RunOnce | internal/parser/parser.go:225-229 | no address is notified twice for one block |
| Scan.HeightGroupsAt | internal/parser/parser.go:199-223 | the per-height groups function gives each height's BlockGroups |
| Scan.RangeGroups | internal/parser/parser.go:198 | one map of groups per height of the range |
| Scan.RangeGroupsAt | internal/parser/parser.go:198 | the k-th map of groups of a range belongs to its k-th height |
| Scan.ScanStoreAppendAll | internal/parser/parser.go:198-229 | the store after a pass is the range's groups appended height after height |
| Scan.ScannedStep | internal/parser/parser.go:198-229 | one more loop iteration adds one request, appends that height's groups to the store and that height's calls to the log |
| Scan.ScannedEnd | internal/parser/parser.go:198-230 | when the loop stops, the store, the requests and the calls are those of the whole range |
| Scan.RunsNotifyBeforeSave | internal/parser/parser.go:225-229 | across the blocks of a pass, every save immediately follows the notify of the same address and list |
| Scan.PassLogNotifyBeforeSave | internal/parser/parser.go:227-228 | over a whole pass, every save immediately follows the notify of the same address and list |
| Scan.RunsDeliverable | internal/parser/parser.go:225-229 | blocks whose groups are all deliverable give only deliverable calls |
| Scan.PassLogDeliverable | internal/parser/parser.go:213-228 | over a whole pass, every call is for a snapshot address with a non-empty list of transactions that touch it |
| Scan.RangeDeliverable | internal/parser/parser.go:198-223 | every map of groups of a range holds only subscribed addresses with non-empty lists of transactions that touch them |
| Scan.HeightDeliverable | internal/parser/parser.go:199-223 | the groups of any height hold only subscribed addresses with non-empty lists of transactions that touch them |
| Scan.GroupsValues | internal/parser/parser.go:211-223 | each group of a height belongs to a subscribed address and is a non-empty list of transactions that touch it |
| Parser.EthParser.constructor | internal/parser/parser.go:56-64 | a new engine has no subscriptions, reads the node's height once, and sets the last processed height 50 below it with 64-bit wrap-around |
| Parser.EthParser.GetCurrentBlock | internal/parser/parser.go:122-126 | the result is the current block |
| Parser.EthParser.Subscribe | internal/parser/parser.go:129-137 | the result is true exactly when the address was new, and afterwards it is subscribed |
| Parser.EthParser.GetTransactions | internal/parser/parser.go:140-144 | the result is whatever the store holds for the address |
| Parser.EthParser.InitializeCurrentBlock | internal/parser/parser.go:147-154 | while the last processed height is 0, one refresh and then the last processed height 50 below the current one, wrapped to 64 bits; otherwise nothing changes |
| Parser.EthParser.UpdateCurrentBlock | internal/parser/parser.go:157-181 | a failed request or an unparsable reply leaves the current block unchanged; otherwise it becomes the parsed reply |
| Parser.EthParser.Notify | internal/parser/parser.go:303-311 | each notify call is recorded, in call order |
| Parser.EthParser.DeliverGroups | internal/parser/parser.go:225-229 | the store gains exactly the block's groups, and the calls made are a run of them: each group notified then saved, once, in some order |
| Parser.EthParser.ScanHeight | internal/parser/parser.go:199-229 | one height is requested; a failed fetch or an unparsable number skips it; otherwise the store gains the block's groups and the calls are their run |
| Parser.EthParser.ScanRange | internal/parser/parser.go:198-230 | the loop visits the heights first..end in order; the store, the requests and the calls are those of the heights visited |
| Parser.EthParser.FetchTransactions | internal/parser/parser.go:184-237 | a pass requests each height from the wrapped last processed height + 1 to the captured current block, once and in order; the store becomes ScanStore of the snapshot; the calls form PassLog; the last processed height becomes the captured current block |
| Parser.SubscribeTwice | internal/parser/parser_test.go:15-22 | subscribing one address twice succeeds the first time and reports it already present the second time |
| Parser.NewEngineReadsNothing | internal/parser/parser_test.go:27-38 | a new engine over a new store returns no transactions for an address it has just subscribed |
| Scenario.SmallHeights | internal/parser/parser.go:241 | heights 1 and 2 are requested as "0x1" and "0x2", and those parse back as 1 and 2 |
| Scenario.OnlyTwoHeights | internal/parser/parser.go:199-203 | on a node holding blocks 1 and 2 only, every other int64 height is a failed fetch |
| Scenario.TwoBlocksGroups | internal/parser/parser.go:199-223 | heights 1 and 2 are fetched, parsed and grouped with their own numbers |
| Scenario.TwoBlocksHistory | internal/parser/parser.go:198-229 | in any int64 range covering 1..2, an address gets its block-1 group and then its block-2 group |
| Scenario.BlockOneGroups | internal/parser/parser.go:214-221 | a transfer between two subscribers goes into both groups |
| Scenario.BlockTwoGroups | internal/parser/parser.go:214-221 | a transfer to an unsubscribed address goes only into the sender's group |
| Scenario.TwoBlockPass | internal/parser/parser.go:184-237 | after such a pass, the sender of block 1 holds its transfer, the other subscriber holds the transfer it received and then the one it sent, each stamped with its block, and nobody else holds anything |
| Scenario.TwoBlockEngine | internal/parser/parser.go:56-64 | a new engine bootstrapped at height 2, with both addresses subscribed and one pass run, returns those lists and has last processed height 2 |

`RefreshedHeight`, `FetchBlock`, `BlockGroups`, `ScanStore`, `History`,
`Groups`, `AddMatch`, `GroupFor`, `Hits` and `Stamp` define what the members
above are proved against. `FetchBlock` is internal/parser/parser.go:240-270;
`BlockGroups` is internal/parser/parser.go:199-223; `ScanStore` is
internal/parser/parser.go:198-229; `Groups` and `AddMatch` are
internal/parser/parser.go:211-223; `Stamp` is internal/parser/parser.go:215.
`IsRun`, `PassLog` and `Deliverable` state the delivery guarantees
(internal/parser/parser.go:225-229).

## Left out

- The background tasks are not modelled: the goroutines, the tickers, the context cancellation, the WaitGroup and `WaitForShutdown` (internal/parser/parser.go:66-119). Each operation is modelled as one sequential call, so interleavings of a refresh with a pass are not covered.
- The mutexes of `EthParser` and `MemoryStorage` are left out. They only serialise the concurrent callers above.
- The JSON-RPC transport is left out: `sendJSONRPCRequest`, the HTTP client, and JSON encoding and decoding (internal/parser/parser.go:242-299, internal/parser/client.go). The node becomes a parameter: `Chain` holds the block answered for each request parameter, and `heightReply` the height reply. Any transport, JSON-RPC or decoding failure is a missing key or `None`.
- A height reply that is not a string makes Go's type assertion panic (internal/parser/parser.go:171). This is not modelled; the reply is always a string or a failed request.
- BlockNumber.ParseBlockNumber: strings are modelled as sequences of characters, so `s[2..]` drops two characters where Go's `[2:]` drops two bytes. The two agree on replies whose first two characters are ASCII, which includes every "0x…" reply. They disagree on others: for "é1" Go parses "1" while the model fails, and for "xé5" Go fails on the leftover byte while the model parses 5. UTF-8 encoding is not modelled.
- Go's `int` is taken to be 64 bits, as on a 64-bit target. On a 32-bit target `int(blockNumber)` truncates (internal/parser/parser.go:179, 215) and `+ 1`, `- 50` and `i++` wrap modulo 2^32 (range -2^31..2^31-1); this is not modelled.
- A height string shorter than two bytes makes Go's `[2:]` panic. `ParseBlockNumber` treats it as a parse failure instead.
- `notify` only writes log lines, and so do the scan's progress messages. Log output is not modelled. Each notify is recorded as a ghost `Event` in `EthParser.log`.
- `Storage` is a Go interface. Dafny traits are not used here, so the engine holds a `MemoryStorage`.
- Go slices can share a backing array, so a caller that changes the slice `GetTransactions` returns changes the store. The model returns a value, so this aliasing is not modelled.
- The `updateRatePeriod` field only sets the periods of the two tickers (internal/parser/parser.go:81, 98), which are left out with the background tasks. `cmd/main.go`, `notification.go` and the mock node in `mock_test.go` are not part of this model.
- Go's map iteration order is not computed. A block's calls are specified for every possible visiting order (`IsRun`), and `DeliverGroups` picks the next group with `:|`.
- The tests in parser_test.go that need a live node (`TestUpdateCurrentBlock`, `TestFetchTransactions`) become statements about any reply: `UpdateCurrentBlock`, `FetchTransactions`, `NewEngineReadsNothing`.
- Parser.EthParser.FetchTransactions: the loop is modelled with unbounded `i`, so it stops after the captured current block even when that block is the largest int64. The code as written does not stop there (see Findings); below that height both agree (`Scan.LoopHeightsBelowMax`).
- Parser.EthParser.ScanRange: its counter `i` is unbounded, so the loop stops after `end` even when `end` is the largest int64, where the code's 64-bit `i++` wraps and the loop never stops (see Findings). Below that height both visit exactly first..end (`Scan.LoopHeightsBelowMax`).

## Findings

| source | as written | input that shows it | evidently intended | confidence | as-written member | corrected member |
|---|---|---|---|---|---|---|
| internal/parser/parser.go:198 | `for i := startBlock; i <= currentBlock; i++` with `i` a 64-bit int: at `currentBlock` = MaxInt64, `i++` wraps to MinInt64, so `i <= currentBlock` holds forever | an `eth_blockNumber` reply of `"0x7fffffffffffffff"` | the pass visits startBlock..currentBlock once each and then stops | not executed | Scan.LoopNeverEndsAtMax | Parser.EthParser.FetchTransactions |
