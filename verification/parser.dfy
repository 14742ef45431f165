/**
 * The tracking engine (EthParser) run sequentially: its height state, its
 * subscription set and the store it writes to, with the operations the
 * background tasks and the external callers perform on them.
 */
module Parser {
  import opened Models
  import opened BlockNumber
  import opened Storage
  import opened Matching
  import opened Scan

  /** The bootstrap sets the last processed block this many blocks below the current one. */
  const Lookback: int := 50

  /**
   * The current block after a refresh whose eth_blockNumber reply is given:
   * None when the request failed, otherwise the hex string of the result.
   * A failed request or an unparsable reply leaves the height as it was.
   */
  function RefreshedHeight(current: int, reply: Option<string>): int
  {
    match reply
    case None => current
    case Some(hex) =>
      match ParseBlockNumber(hex)
      case None => current
      case Some(n) => n
  }

  class EthParser {
    var currentBlock: int
    var lastProcessedBlock: int
    var subscriptions: set<string>
    const storage: MemoryStorage

    /** The notify and save calls made so far, in call order. */
    ghost var log: seq<Event>
    /** The heights requested with eth_getBlockByNumber so far, in request order. */
    ghost var requested: seq<int>

    /** Both heights are Go ints, 64 bits wide on the 64-bit targets modelled here. */
    ghost predicate Valid()
      reads this
    {
      MinInt64 <= currentBlock <= MaxInt64 && MinInt64 <= lastProcessedBlock <= MaxInt64
    }

    /**
     * NewEthParser: no subscriptions, the last processed block 0, then the
     * bootstrap with the given reply to its eth_blockNumber request.
     */
    constructor (storage: MemoryStorage, heightReply: Option<string>)
      ensures Valid()
      ensures this.storage == storage && storage.data == old(storage.data)
      ensures subscriptions == {} && log == [] && requested == []
      ensures currentBlock == RefreshedHeight(0, heightReply)
      ensures lastProcessedBlock == Wrap64(currentBlock - Lookback)
    {
      this.storage := storage;
      currentBlock := 0;
      lastProcessedBlock := 0;
      subscriptions := {};
      log := [];
      requested := [];
      new;
      InitializeCurrentBlock(heightReply);
    }

    /** The current block as last observed. */
    method GetCurrentBlock() returns (height: int)
      ensures height == currentBlock
    {
      height := currentBlock;
    }

    /** Adds the address; reports whether it was new. Subscribing twice is a no-op the second time. */
    method Subscribe(address: string) returns (added: bool)
      modifies this`subscriptions
      ensures old(Valid()) ==> Valid()
      ensures added <==> address !in old(subscriptions)
      ensures subscriptions == old(subscriptions) + {address}
    {
      if address in subscriptions {
        return false;
      }
      subscriptions := subscriptions + {address};
      return true;
    }

    /** Whatever the store holds for the address, empty when nothing was saved. */
    method GetTransactions(address: string) returns (txs: seq<Transaction>)
      ensures txs == Lookup(storage.data, address)
    {
      txs := storage.GetTransactions(address);
    }

    /**
     * The bootstrap: only while the last processed block is still 0, one
     * refresh, then the last processed block 50 below the current block,
     * with Go's 64-bit wrap-around and no clamp at 0.
     */
    method InitializeCurrentBlock(heightReply: Option<string>)
      requires Valid()
      modifies this`currentBlock, this`lastProcessedBlock
      ensures Valid()
      ensures old(lastProcessedBlock) == 0 ==>
                currentBlock == RefreshedHeight(old(currentBlock), heightReply)
                && lastProcessedBlock == Wrap64(currentBlock - Lookback)
      ensures old(lastProcessedBlock) != 0 ==>
                currentBlock == old(currentBlock) && lastProcessedBlock == old(lastProcessedBlock)
    {
      if lastProcessedBlock == 0 {
        UpdateCurrentBlock(heightReply);
        lastProcessedBlock := Wrap64(currentBlock - Lookback);
      }
    }

    /**
     * The height refresh: the current block becomes the parsed reply; a
     * failed request or a reply that does not parse changes nothing.
     */
    method UpdateCurrentBlock(reply: Option<string>)
      requires Valid()
      modifies this`currentBlock
      ensures Valid()
      ensures reply.None? ==> currentBlock == old(currentBlock)
      ensures reply.Some? && ParseBlockNumber(reply.value).None? ==> currentBlock == old(currentBlock)
      ensures reply.Some? && ParseBlockNumber(reply.value).Some? ==> currentBlock == ParseBlockNumber(reply.value).value
      ensures currentBlock == RefreshedHeight(old(currentBlock), reply)
    {
      if reply.None? {
        return;
      }
      var blockNumber := ParseBlockNumber(reply.value);
      if blockNumber.None? {
        return;
      }
      currentBlock := blockNumber.value;
    }

    /** notify: only logs, so here it records the call. */
    ghost method Notify(address: string, txs: seq<Transaction>)
      modifies this`log
      ensures log == old(log) + [Notified(address, txs)]
    {
      log := log + [Notified(address, txs)];
    }

    /**
     * The range loop over one block's groups: for each group, in any
     * order, notify and then save the same list.
     */
    method DeliverGroups(groups: map<string, seq<Transaction>>) returns (ghost run: seq<Event>)
      modifies this`log, storage
      ensures old(Valid()) ==> Valid()
      ensures storage.data == AppendGroups(old(storage.data), groups)
      ensures log == old(log) + run && IsRun(run, groups)
    {
      ghost var done: map<string, seq<Transaction>> := map[];
      ghost var order: seq<string> := [];
      run := [];
      AppendNoGroups(storage.data);
      var remaining := groups.Keys;
      while remaining != {}
        invariant Visiting(groups, remaining, done, order, run)
        invariant Effects(done, run, old(storage.data), storage.data, old(log), log)
        decreases remaining
      {
        var address :| address in remaining;
        var txs := groups[address];
        ghost var data, log0 := storage.data, log;
        Notify(address, txs);
        storage.SaveTransactions(address, txs);
        log := log + [Stored(address, txs)];
        VisitingStep(groups, remaining, done, order, run, address);
        EffectsStep(done, run, old(storage.data), data, old(log), log0, address, txs);
        run := run + [Notified(address, txs), Stored(address, txs)];
        done := done[address := txs];
        order := order + [address];
        remaining := remaining - {address};
      }
      VisitingDone(groups, done, order, run);
    }

    /**
     * One iteration of the scan loop: request the block at the height, skip
     * it if the request fails or its number does not parse, otherwise group
     * its transactions and deliver the groups.
     */
    method ScanHeight(chain: Chain, subscribed: set<string>, height: int)
      returns (ghost groups: map<string, seq<Transaction>>, ghost run: seq<Event>)
      modifies this`log, this`requested, storage
      ensures old(Valid()) ==> Valid()
      ensures groups == BlockGroups(chain, subscribed, height)
      ensures requested == old(requested) + [height]
      ensures storage.data == AppendGroups(old(storage.data), groups)
      ensures log == old(log) + run && IsRun(run, groups)
    {
      requested := requested + [height];
      groups, run := map[], [];
      var block := FetchBlock(chain, height);
      if block.None? {
        AppendNoGroups(storage.data);
        NoGroupsRun();
        return;
      }
      var blockNumber := ParseBlockNumber(block.value.Number);
      if blockNumber.None? {
        AppendNoGroups(storage.data);
        NoGroupsRun();
        return;
      }
      var blockGroups := GroupTransactions(block.value.Transactions, subscribed, blockNumber.value);
      groups := blockGroups;
      run := DeliverGroups(blockGroups);
    }

    /**
     * One scan pass: snapshot the subscriptions and the range, visit every
     * height from lastProcessedBlock + 1 (64-bit) to the captured current
     * block in ascending order, skip a height whose block cannot be fetched
     * or whose number does not parse, deliver each block's groups, and
     * finally set the last processed block to the captured height. The
     * calls the pass makes are `pass`, appended to the log.
     */
    method FetchTransactions(chain: Chain) returns (ghost pass: seq<Event>)
      requires Valid()
      modifies this`lastProcessedBlock, this`log, this`requested, storage
      ensures Valid()
      ensures lastProcessedBlock == old(currentBlock)
      ensures requested == old(requested) + HeightRange(Wrap64(old(lastProcessedBlock) + 1), old(currentBlock))
      ensures storage.data == ScanStore(old(storage.data), chain, old(subscriptions),
                                        Wrap64(old(lastProcessedBlock) + 1), old(currentBlock))
      ensures log == old(log) + pass
      ensures PassLog(pass, chain, old(subscriptions), Wrap64(old(lastProcessedBlock) + 1), old(currentBlock))
    {
      var subscribed := subscriptions;
      var startBlock := Wrap64(lastProcessedBlock + 1);
      var endBlock := currentBlock;
      ghost var gs, last;
      pass, gs, last := ScanRange(chain, subscribed, startBlock, endBlock);
      ScannedEnd(old(storage.data), storage.data, old(requested), requested, pass, gs,
                 chain, subscribed, startBlock, last, endBlock);
      lastProcessedBlock := endBlock;
    }

    /** The loop of a scan pass over the heights first..end, against a snapshot of the subscriptions. */
    method ScanRange(chain: Chain, subscribed: set<string>, first: int, end: int)
      returns (ghost pass: seq<Event>, ghost gs: seq<map<string, seq<Transaction>>>, ghost last: int)
      modifies this`log, this`requested, storage
      ensures old(Valid()) ==> Valid()
      ensures last == end || (last == first - 1 && end < first)
      ensures Scanned(old(storage.data), storage.data, old(requested), requested, pass, gs,
                      HeightGroups(chain, subscribed), first, last)
      ensures log == old(log) + pass
    {
      pass, gs := [], [];
      ghost var groupsAt := HeightGroups(chain, subscribed);
      ScannedStart(old(storage.data), old(requested), groupsAt, first);

      var i := first;
      while i <= end
        invariant first <= i && (i <= end + 1 || i == first)
        invariant Scanned(old(storage.data), storage.data, old(requested), requested, pass, gs,
                          groupsAt, first, i - 1)
        invariant log == old(log) + pass
        decreases end - i
      {
        ghost var data, req := storage.data, requested;
        var g, run := ScanHeight(chain, subscribed, i);
        HeightGroupsAt(chain, subscribed, i);
        ScannedStep(old(storage.data), data, old(requested), req, pass, gs, g, run, groupsAt, first, i - 1);
        LogExtend(old(log), pass, run);
        pass := pass + run;
        gs := gs + [g];
        i := i + 1;
      }
      last := i - 1;
    }
  }

  /** Subscribing one address twice: the first call adds it, the second reports that it is already there. */
  method SubscribeTwice(p: EthParser, address: string) returns (first: bool, second: bool)
    requires address !in p.subscriptions
    modifies p`subscriptions
    ensures first && !second
    ensures p.subscriptions == old(p.subscriptions) + {address}
  {
    first := p.Subscribe(address);
    second := p.Subscribe(address);
  }

  /** A new engine over a new store has no transactions for an address it has just subscribed. */
  method NewEngineReadsNothing(heightReply: Option<string>, address: string) returns (txs: seq<Transaction>)
    ensures txs == []
  {
    var storage := new MemoryStorage();
    var p := new EthParser(storage, heightReply);
    var _ := p.Subscribe(address);
    txs := p.GetTransactions(address);
  }
}
