/**
 * What one scan pass does, as functions of its inputs: the chain node's
 * answers, the snapshot of the subscriptions and the range of heights.
 * The pass's method in the Parser module is proved against these.
 */
module Scan {
  import opened Models
  import opened BlockNumber
  import opened Storage
  import opened Matching

  /**
   * The chain node as seen by eth_getBlockByNumber: its answer for each
   * request parameter. A parameter that is not a key is a failed request
   * (a transport or JSON-RPC error, a result that is not an object, or a
   * result that does not decode as a Block).
   */
  type Chain = map<string, Block>

  /** getBlockByNumber: the block for a height, requested with the parameter "0x%x". */
  function FetchBlock(chain: Chain, height: int): Option<Block>
  {
    var param := FormatBlockNumber(height);
    if param in chain then Some(chain[param]) else None
  }

  /**
   * The groups a pass delivers for one height: none when the block cannot
   * be fetched or its number does not parse; otherwise the block's groups,
   * stamped with the number parsed from the block (not with the height).
   */
  function BlockGroups(chain: Chain, subscribed: set<string>, height: int): map<string, seq<Transaction>>
  {
    match FetchBlock(chain, height)
    case None => map[]
    case Some(block) =>
      match ParseBlockNumber(block.Number)
      case None => map[]
      case Some(n) => Groups(block.Transactions, subscribed, n)
  }

  /** Only subscribed addresses have groups. */
  lemma BlockGroupsSubscribed(chain: Chain, subscribed: set<string>, height: int, address: string)
    ensures address in BlockGroups(chain, subscribed, height) ==> address in subscribed
    ensures address !in subscribed ==> Lookup(BlockGroups(chain, subscribed, height), address) == []
  {
    match FetchBlock(chain, height)
    case None =>
    case Some(block) =>
      match ParseBlockNumber(block.Number)
      case None =>
      case Some(n) => GroupsAt(block.Transactions, subscribed, n, address);
  }

  /** The heights first..last in ascending order, each once; empty when first > last. */
  function HeightRange(first: int, last: int): (r: seq<int>)
    ensures |r| == if last < first then 0 else last - first + 1
    ensures forall k :: 0 <= k < |r| ==> r[k] == first + k
    decreases last - first
  {
    if last < first then [] else HeightRange(first, last - 1) + [last]
  }

  /**
   * The heights the scan loop `for i := first; i <= last; i++` visits in
   * its first `steps` iterations, with i a 64-bit int as written.
   */
  function LoopHeights(first: int, last: int, steps: nat): (r: seq<int>)
    ensures |r| <= steps
    ensures r != [] ==> r[0] == first
    ensures forall k :: 0 <= k < |r| ==> r[k] <= last
    ensures forall k :: 0 < k < |r| ==> r[k] == Wrap64(r[k - 1] + 1)
    decreases steps
  {
    if steps == 0 || first > last then [] else [first] + LoopHeights(Wrap64(first + 1), last, steps - 1)
  }

  /**
   * As written, the loop never stops when the last height is the largest
   * int: every iteration it runs is followed by another one.
   */
  lemma {:induction false} LoopNeverEndsAtMax(first: int, steps: nat)
    requires MinInt64 <= first <= MaxInt64
    ensures |LoopHeights(first, MaxInt64, steps)| == steps
    decreases steps
  {
    if steps > 0 {
      LoopNeverEndsAtMax(Wrap64(first + 1), steps - 1);
    }
  }

  /** After the largest int the loop visits the smallest one. */
  lemma LoopRevisitsAfterMax()
    ensures LoopHeights(MaxInt64, MaxInt64, 2) == [MaxInt64, MinInt64]
  {
    assert Wrap64(MaxInt64 + 1) == MinInt64;
    assert LoopHeights(MinInt64, MaxInt64, 1) == [MinInt64] + LoopHeights(Wrap64(MinInt64 + 1), MaxInt64, 0);
  }

  /** Below the largest int the loop as written visits exactly first..last, once each, in ascending order. */
  lemma {:induction false} LoopHeightsBelowMax(first: int, last: int, steps: nat)
    requires MinInt64 <= first && last < MaxInt64
    requires last - first < steps
    ensures LoopHeights(first, last, steps) == HeightRange(first, last)
    decreases steps
  {
    if first <= last {
      LoopHeightsBelowMax(first + 1, last, steps - 1);
      var r := HeightRange(first, last);
      assert r == [first] + HeightRange(first + 1, last) by {
        assert forall k :: 0 <= k < |r| ==> r[k] == ([first] + HeightRange(first + 1, last))[k];
      }
    }
  }

  /** The store after the heights first..last have been scanned in ascending order. */
  function ScanStore(data: map<string, seq<Transaction>>, chain: Chain, subscribed: set<string>,
                     first: int, last: int): map<string, seq<Transaction>>
    decreases last - first
  {
    if last < first then data
    else AppendGroups(ScanStore(data, chain, subscribed, first, last - 1), BlockGroups(chain, subscribed, last))
  }

  /** What a pass over first..last saves for one address, block after block. */
  function History(chain: Chain, subscribed: set<string>, address: string, first: int, last: int): seq<Transaction>
    decreases last - first
  {
    if last < first then []
    else History(chain, subscribed, address, first, last - 1) + Lookup(BlockGroups(chain, subscribed, last), address)
  }

  /** A pass leaves each address's list extended by exactly its history over the range. */
  lemma {:induction false} ScanStoreAt(data: map<string, seq<Transaction>>, chain: Chain, subscribed: set<string>,
                                       first: int, last: int, address: string)
    ensures Lookup(ScanStore(data, chain, subscribed, first, last), address)
         == Lookup(data, address) + History(chain, subscribed, address, first, last)
    decreases last - first
  {
    if first <= last {
      ScanStoreAt(data, chain, subscribed, first, last - 1, address);
    }
  }

  /** The store only gains keys that are subscribed addresses. */
  lemma {:induction false} ScanStoreKeys(data: map<string, seq<Transaction>>, chain: Chain, subscribed: set<string>,
                                         first: int, last: int)
    ensures data.Keys <= ScanStore(data, chain, subscribed, first, last).Keys <= data.Keys + subscribed
    decreases last - first
  {
    if first <= last {
      ScanStoreKeys(data, chain, subscribed, first, last - 1);
      forall a | a in BlockGroups(chain, subscribed, last) ensures a in subscribed {
        BlockGroupsSubscribed(chain, subscribed, last, a);
      }
    }
  }

  /** The concatenation of at(first), ..., at(last), in height order. */
  function Gathered(at: int -> seq<Transaction>, first: int, last: int): seq<Transaction>
    decreases last - first
  {
    if last < first then [] else Gathered(at, first, last - 1) + at(last)
  }

  /** What one height adds to an address's history. */
  function HeightHistory(chain: Chain, subscribed: set<string>, address: string): int -> seq<Transaction>
  {
    h => Lookup(BlockGroups(chain, subscribed, h), address)
  }

  /** Gathering one range and then the next gathers their union. */
  lemma {:induction false} GatheredSplit(at: int -> seq<Transaction>, first: int, mid: int, last: int)
    requires first - 1 <= mid <= last
    ensures Gathered(at, first, last) == Gathered(at, first, mid) + Gathered(at, mid + 1, last)
    decreases last - mid
  {
    if mid < last {
      GatheredSplit(at, first, mid, last - 1);
      var a, b, c := Gathered(at, first, mid), Gathered(at, mid + 1, last - 1), at(last);
      assert Gathered(at, mid + 1, last) == b + c;
      assert (a + b) + c == a + (b + c);
    }
  }

  /** An address's history gathers what each height adds to it. */
  lemma {:induction false} HistoryGathered(chain: Chain, subscribed: set<string>, address: string, first: int, last: int)
    ensures History(chain, subscribed, address, first, last)
         == Gathered(HeightHistory(chain, subscribed, address), first, last)
    decreases last - first
  {
    if first <= last {
      HistoryGathered(chain, subscribed, address, first, last - 1);
      assert HeightHistory(chain, subscribed, address)(last) == Lookup(BlockGroups(chain, subscribed, last), address);
    }
  }

  /** The history of one range followed by the next is the history of their union: blocks are saved in height order. */
  lemma HistorySplit(chain: Chain, subscribed: set<string>, address: string, first: int, mid: int, last: int)
    requires first - 1 <= mid <= last
    ensures History(chain, subscribed, address, first, last)
         == History(chain, subscribed, address, first, mid) + History(chain, subscribed, address, mid + 1, last)
  {
    HistoryGathered(chain, subscribed, address, first, last);
    HistoryGathered(chain, subscribed, address, first, mid);
    HistoryGathered(chain, subscribed, address, mid + 1, last);
    GatheredSplit(HeightHistory(chain, subscribed, address), first, mid, last);
  }

  /**
   * Everything a pass saves for an address touches the address, and the
   * address was subscribed in the snapshot; every saved transaction carries
   * the number parsed from a block fetched in the range.
   */
  lemma {:induction false} HistoryMembers(chain: Chain, subscribed: set<string>, address: string,
                                          first: int, last: int, t: Transaction)
    requires t in History(chain, subscribed, address, first, last)
    ensures address in subscribed && Touches(t, address)
    ensures exists h :: first <= h <= last && FetchBlock(chain, h).Some?
                     && ParseBlockNumber(FetchBlock(chain, h).value.Number) == Some(t.BlockNumberInt)
    decreases last - first
  {
    var g := BlockGroups(chain, subscribed, last);
    if t in History(chain, subscribed, address, first, last - 1) {
      HistoryMembers(chain, subscribed, address, first, last - 1, t);
    } else {
      assert t in Lookup(g, address);
      var block := FetchBlock(chain, last).value;
      var n := ParseBlockNumber(block.Number).value;
      GroupsKeys(block.Transactions, subscribed, n, address);
      GroupForMembers(block.Transactions, address, n, t);
    }
  }

  /** Heights whose block cannot be fetched add nothing to any address's history. */
  lemma {:induction false} QuietHistory(chain: Chain, subscribed: set<string>, address: string, first: int, last: int)
    requires forall h :: first <= h <= last ==> FetchBlock(chain, h).None?
    ensures History(chain, subscribed, address, first, last) == []
    decreases last - first
  {
    if first <= last {
      QuietHistory(chain, subscribed, address, first, last - 1);
      assert FetchBlock(chain, last).None?;
    }
  }

  /** An address that is not in the snapshot gains nothing from the pass. */
  lemma {:induction false} HistoryUnsubscribed(chain: Chain, subscribed: set<string>, address: string,
                                               first: int, last: int)
    requires address !in subscribed
    ensures History(chain, subscribed, address, first, last) == []
    decreases last - first
  {
    if first <= last {
      HistoryUnsubscribed(chain, subscribed, address, first, last - 1);
      BlockGroupsSubscribed(chain, subscribed, last, address);
    }
  }

  // ---------------------------------------------------------------------
  // The notification log
  // ---------------------------------------------------------------------

  /** A call the engine makes for a group: notify(address, txs) or storage.SaveTransactions(address, txs). */
  datatype Event = Notified(address: string, txs: seq<Transaction>) | Stored(address: string, txs: seq<Transaction>)

  /** An order in which the groups can be visited: every group exactly once. */
  ghost predicate IsOrder(order: seq<string>, groups: map<string, seq<Transaction>>)
  {
    (forall k :: 0 <= k < |order| ==> order[k] in groups)
    && (forall j, k :: 0 <= j < k < |order| ==> order[j] != order[k])
    && (forall a :: a in groups ==> a in order)
  }

  /** The calls for the groups visited in the given order: a notify then a save of the same list, per group. */
  ghost function RunOf(order: seq<string>, groups: map<string, seq<Transaction>>): seq<Event>
    decreases |order|
  {
    if order == [] then []
    else
      var a := order[|order| - 1];
      RunOf(order[..|order| - 1], groups) + [Notified(a, Lookup(groups, a)), Stored(a, Lookup(groups, a))]
  }

  /**
   * The calls for one block's groups, visited in any order (Go's map
   * iteration order): a notify immediately followed by a save of the same
   * list, once per group.
   */
  ghost predicate IsRun(events: seq<Event>, groups: map<string, seq<Transaction>>)
  {
    exists order :: IsOrder(order, groups) && events == RunOf(order, groups)
  }

  /**
   * Part way through delivering a block's groups: the groups not yet
   * visited are `remaining`, those visited are `done`, in the visiting
   * order `order`, and their calls so far are `run`.
   */
  ghost predicate Visiting(groups: map<string, seq<Transaction>>, remaining: set<string>,
                           done: map<string, seq<Transaction>>, order: seq<string>, run: seq<Event>)
  {
    remaining <= groups.Keys
    && done.Keys == groups.Keys - remaining
    && (forall a :: a in done ==> done[a] == groups[a])
    && IsOrder(order, done)
    && run == RunOf(order, groups)
  }

  /** Visiting a group not yet visited keeps the bookkeeping. */
  lemma VisitingStep(groups: map<string, seq<Transaction>>, remaining: set<string>,
                     done: map<string, seq<Transaction>>, order: seq<string>, run: seq<Event>, address: string)
    requires Visiting(groups, remaining, done, order, run) && address in remaining
    ensures Visiting(groups, remaining - {address}, done[address := groups[address]], order + [address],
                     run + [Notified(address, groups[address]), Stored(address, groups[address])])
  {
    OrderStep(order, done, address, groups[address]);
    RunOfStep(order, groups, address);
  }

  /** Once every group is visited, the calls made are a run of the block's groups. */
  lemma VisitingDone(groups: map<string, seq<Transaction>>, done: map<string, seq<Transaction>>,
                     order: seq<string>, run: seq<Event>)
    requires Visiting(groups, {}, done, order, run)
    ensures done == groups && IsRun(run, groups)
  {
    assert IsOrder(order, groups);
  }

  /** The store holds the visited groups appended, and the log the calls made for them. */
  ghost predicate Effects(done: map<string, seq<Transaction>>, run: seq<Event>,
                          data0: map<string, seq<Transaction>>, data: map<string, seq<Transaction>>,
                          log0: seq<Event>, log: seq<Event>)
  {
    data == AppendGroups(data0, done) && log == log0 + run
  }

  /** Notifying and then saving a group not yet visited. */
  lemma EffectsStep(done: map<string, seq<Transaction>>, run: seq<Event>,
                    data0: map<string, seq<Transaction>>, data: map<string, seq<Transaction>>,
                    log0: seq<Event>, log: seq<Event>, address: string, txs: seq<Transaction>)
    requires Effects(done, run, data0, data, log0, log) && address !in done
    ensures Effects(done[address := txs], run + [Notified(address, txs), Stored(address, txs)],
                    data0, Saved(data, address, txs), log0, log + [Notified(address, txs)] + [Stored(address, txs)])
  {
    AppendGroupsStep(data0, done, address, txs);
    LogStep(log0, run, address, txs);
  }

  /** The log after a notify and then a save of a group, appended call by call, is the log extended by both. */
  lemma LogStep(prefix: seq<Event>, run: seq<Event>, address: string, txs: seq<Transaction>)
    ensures prefix + run + [Notified(address, txs)] + [Stored(address, txs)]
         == prefix + (run + [Notified(address, txs), Stored(address, txs)])
  {
  }

  /** A group not yet visited can be visited next. */
  lemma OrderStep(order: seq<string>, done: map<string, seq<Transaction>>, address: string, txs: seq<Transaction>)
    requires IsOrder(order, done) && address !in done
    ensures IsOrder(order + [address], done[address := txs])
  {
    var o := order + [address];
    forall a | a in done[address := txs] ensures a in o {
      if a != address {
        var k :| 0 <= k < |order| && order[k] == a;
        assert o[k] == a;
      } else {
        assert o[|order|] == a;
      }
    }
  }

  /** Visiting one more group appends its notify and its save. */
  lemma RunOfStep(order: seq<string>, groups: map<string, seq<Transaction>>, address: string)
    ensures RunOf(order + [address], groups)
         == RunOf(order, groups) + [Notified(address, Lookup(groups, address)), Stored(address, Lookup(groups, address))]
  {
    assert (order + [address])[..|order|] == order;
  }

  /** The 2i-th call notifies and the (2i+1)-th call saves the i-th visited group. */
  lemma {:induction false} RunOfShape(order: seq<string>, groups: map<string, seq<Transaction>>)
    ensures |RunOf(order, groups)| == 2 * |order|
    ensures forall k :: 0 <= k < |RunOf(order, groups)| ==>
              RunOf(order, groups)[k].address == order[k / 2]
              && RunOf(order, groups)[k].txs == Lookup(groups, order[k / 2])
              && (RunOf(order, groups)[k].Notified? <==> k % 2 == 0)
    decreases |order|
  {
    if order != [] {
      var m := |order| - 1;
      var init := order[..m];
      RunOfShape(init, groups);
      var r := RunOf(order, groups);
      forall k | 0 <= k < |r|
        ensures r[k].address == order[k / 2] && r[k].txs == Lookup(groups, order[k / 2])
             && (r[k].Notified? <==> k % 2 == 0)
      {
        if k < 2 * m {
          assert r[k] == RunOf(init, groups)[k];
          assert order[k / 2] == init[k / 2];
        }
      }
    }
  }

  /** A sequence without repetitions that lists exactly a set is as long as the set is large. */
  lemma {:induction false} DistinctSize(order: seq<string>, s: set<string>)
    requires forall k :: 0 <= k < |order| ==> order[k] in s
    requires forall j, k :: 0 <= j < k < |order| ==> order[j] != order[k]
    requires forall a :: a in s ==> a in order
    ensures |order| == |s|
    decreases |order|
  {
    if order != [] {
      var m := |order| - 1;
      var init := order[..m];
      var a := order[m];
      forall b | b in s - {a} ensures b in init {
        var k :| 0 <= k < |order| && order[k] == b;
        assert k != m;
        assert init[k] == b;
      }
      forall k | 0 <= k < |init| ensures init[k] in s - {a} {
        assert init[k] == order[k];
      }
      DistinctSize(init, s - {a});
    }
  }

  /** A run holds two calls per group. */
  lemma RunLength(events: seq<Event>, groups: map<string, seq<Transaction>>)
    requires IsRun(events, groups)
    ensures |events| == 2 * |groups|
  {
    var order :| IsOrder(order, groups) && events == RunOf(order, groups);
    RunOfShape(order, groups);
    DistinctSize(order, groups.Keys);
  }

  /**
   * In a run every save is immediately preceded by the notify of the same
   * address and list, and every call is for a group of the block with
   * exactly that group's list.
   */
  lemma RunShape(events: seq<Event>, groups: map<string, seq<Transaction>>)
    requires IsRun(events, groups)
    ensures forall k :: 0 <= k < |events| ==> (events[k].Notified? <==> k % 2 == 0)
    ensures forall k :: 0 <= k < |events| && events[k].Stored? ==>
              0 < k && events[k - 1] == Notified(events[k].address, events[k].txs)
    ensures forall k :: 0 <= k < |events| ==>
              events[k].address in groups && groups[events[k].address] == events[k].txs
  {
    var order :| IsOrder(order, groups) && events == RunOf(order, groups);
    RunOfShape(order, groups);
    forall k | 0 <= k < |events| && events[k].Stored?
      ensures 0 < k && events[k - 1] == Notified(events[k].address, events[k].txs)
    {
      assert (k - 1) / 2 == k / 2;
    }
  }

  /** Every group of the block is notified and saved in a run. */
  lemma RunCovers(events: seq<Event>, groups: map<string, seq<Transaction>>, address: string)
    requires IsRun(events, groups) && address in groups
    ensures exists k :: 0 <= k < |events| - 1
              && events[k] == Notified(address, groups[address]) && events[k + 1] == Stored(address, groups[address])
  {
    var order :| IsOrder(order, groups) && events == RunOf(order, groups);
    RunOfShape(order, groups);
    var i :| 0 <= i < |order| && order[i] == address;
    assert (2 * i) / 2 == i && (2 * i + 1) / 2 == i;
    assert events[2 * i] == Notified(address, groups[address]);
  }

  /** No group is notified twice in a run. */
  lemma RunOnce(events: seq<Event>, groups: map<string, seq<Transaction>>)
    requires IsRun(events, groups)
    ensures forall j, k :: 0 <= j < k < |events| && events[j].Notified? && events[k].Notified? ==>
              events[j].address != events[k].address
  {
    var order :| IsOrder(order, groups) && events == RunOf(order, groups);
    RunOfShape(order, groups);
    forall j, k | 0 <= j < k < |events| && events[j].Notified? && events[k].Notified?
      ensures events[j].address != events[k].address
    {
      assert j / 2 < k / 2;
    }
  }

  /** The groups a pass delivers for each height, as a function of the height. */
  function HeightGroups(chain: Chain, subscribed: set<string>): int -> map<string, seq<Transaction>>
  {
    h => BlockGroups(chain, subscribed, h)
  }

  lemma HeightGroupsAt(chain: Chain, subscribed: set<string>, height: int)
    ensures HeightGroups(chain, subscribed)(height) == BlockGroups(chain, subscribed, height)
  {
  }

  /** The groups of the heights first..last, in ascending height order. */
  function RangeGroups(groupsAt: int -> map<string, seq<Transaction>>, first: int, last: int)
    : (r: seq<map<string, seq<Transaction>>>)
    ensures |r| == if last < first then 0 else last - first + 1
    decreases last - first
  {
    if last < first then [] else RangeGroups(groupsAt, first, last - 1) + [groupsAt(last)]
  }

  /** The store after each map of groups has been appended, in order. */
  function AppendAll(data: map<string, seq<Transaction>>, gs: seq<map<string, seq<Transaction>>>): map<string, seq<Transaction>>
    decreases |gs|
  {
    if gs == [] then data else AppendGroups(AppendAll(data, gs[..|gs| - 1]), gs[|gs| - 1])
  }

  /** The calls for a sequence of maps of groups: one run per map, in order. */
  ghost predicate RunsOf(events: seq<Event>, gs: seq<map<string, seq<Transaction>>>)
    decreases |gs|
  {
    if gs == [] then events == []
    else
      var k := |events| - 2 * |gs[|gs| - 1]|;
      0 <= k && RunsOf(events[..k], gs[..|gs| - 1]) && IsRun(events[k..], gs[|gs| - 1])
  }

  /** The store after a pass is the groups of the range appended height after height. */
  lemma {:induction false} ScanStoreAppendAll(data: map<string, seq<Transaction>>, chain: Chain, subscribed: set<string>,
                                              first: int, last: int)
    ensures ScanStore(data, chain, subscribed, first, last)
         == AppendAll(data, RangeGroups(HeightGroups(chain, subscribed), first, last))
    decreases last - first
  {
    if first <= last {
      var gs := RangeGroups(HeightGroups(chain, subscribed), first, last);
      assert gs[..|gs| - 1] == RangeGroups(HeightGroups(chain, subscribed), first, last - 1);
      ScanStoreAppendAll(data, chain, subscribed, first, last - 1);
    }
  }

  /**
   * The calls of a pass over first..last: the run of each height's groups,
   * in ascending height order; a height with no groups adds no call.
   */
  ghost predicate PassLog(events: seq<Event>, chain: Chain, subscribed: set<string>, first: int, last: int)
  {
    RunsOf(events, RangeGroups(HeightGroups(chain, subscribed), first, last))
  }

  /** The k-th map of groups of a range is that of the k-th height. */
  lemma {:induction false} RangeGroupsAt(groupsAt: int -> map<string, seq<Transaction>>, first: int, last: int, k: int)
    requires 0 <= k < |RangeGroups(groupsAt, first, last)|
    ensures RangeGroups(groupsAt, first, last)[k] == groupsAt(first + k)
    decreases last - first
  {
    if k < last - first {
      RangeGroupsAt(groupsAt, first, last - 1, k);
    }
  }

  /**
   * Part way through a pass over first..: the heights first..last have
   * been scanned, their groups are gs, and the store, the requests made
   * and the calls made are those of the heights first..last.
   */
  ghost predicate Scanned(data0: map<string, seq<Transaction>>, data: map<string, seq<Transaction>>,
                          requested0: seq<int>, requested: seq<int>, pass: seq<Event>,
                          gs: seq<map<string, seq<Transaction>>>,
                          groupsAt: int -> map<string, seq<Transaction>>, first: int, last: int)
  {
    gs == RangeGroups(groupsAt, first, last)
    && data == AppendAll(data0, gs)
    && requested == requested0 + HeightRange(first, last)
    && RunsOf(pass, gs)
  }

  /** Before the first height nothing is scanned. */
  lemma ScannedStart(data0: map<string, seq<Transaction>>, requested0: seq<int>,
                     groupsAt: int -> map<string, seq<Transaction>>, first: int)
    ensures Scanned(data0, data0, requested0, requested0, [], [], groupsAt, first, first - 1)
  {
  }

  /** Scanning the next height: one more request, its groups appended to the store and its run to the calls. */
  lemma ScannedStep(data0: map<string, seq<Transaction>>, data: map<string, seq<Transaction>>,
                    requested0: seq<int>, requested: seq<int>, pass: seq<Event>,
                    gs: seq<map<string, seq<Transaction>>>, g: map<string, seq<Transaction>>, run: seq<Event>,
                    groupsAt: int -> map<string, seq<Transaction>>, first: int, last: int)
    requires first <= last + 1
    requires Scanned(data0, data, requested0, requested, pass, gs, groupsAt, first, last)
    requires g == groupsAt(last + 1) && IsRun(run, g)
    ensures Scanned(data0, AppendGroups(data, g), requested0, requested + [last + 1], pass + run, gs + [g],
                    groupsAt, first, last + 1)
  {
    RunsOfStep(pass, run, gs, g);
    AppendAllStep(data0, gs, g);
    HeightRangeStep(requested0, first, last);
  }

  /** Appending one more map of groups to the store. */
  lemma AppendAllStep(data: map<string, seq<Transaction>>, gs: seq<map<string, seq<Transaction>>>,
                      g: map<string, seq<Transaction>>)
    ensures AppendAll(data, gs + [g]) == AppendGroups(AppendAll(data, gs), g)
  {
    assert (gs + [g])[..|gs|] == gs;
  }

  /** Requesting one more height. */
  lemma HeightRangeStep(requested: seq<int>, first: int, last: int)
    requires first <= last + 1
    ensures requested + HeightRange(first, last + 1) == requested + HeightRange(first, last) + [last + 1]
  {
  }

  /** One more map of groups: its run follows the runs so far. */
  lemma RunsOfStep(events: seq<Event>, run: seq<Event>, gs: seq<map<string, seq<Transaction>>>,
                   g: map<string, seq<Transaction>>)
    requires RunsOf(events, gs) && IsRun(run, g)
    ensures RunsOf(events + run, gs + [g])
  {
    RunLength(run, g);
    var all := events + run;
    assert all[..|events|] == events && all[|events|..] == run;
    assert (gs + [g])[..|gs|] == gs;
  }

  /** When the loop stops, either the range was empty from the start or its last height was scanned. */
  lemma ScannedEnd(data0: map<string, seq<Transaction>>, data: map<string, seq<Transaction>>,
                   requested0: seq<int>, requested: seq<int>, pass: seq<Event>,
                   gs: seq<map<string, seq<Transaction>>>,
                   chain: Chain, subscribed: set<string>, first: int, last: int, end: int)
    requires Scanned(data0, data, requested0, requested, pass, gs, HeightGroups(chain, subscribed), first, last)
    requires last == end || (last == first - 1 && end < first)
    ensures data == ScanStore(data0, chain, subscribed, first, end)
    ensures requested == requested0 + HeightRange(first, end)
    ensures PassLog(pass, chain, subscribed, first, end)
  {
    ScanStoreAppendAll(data0, chain, subscribed, first, end);
  }

  /** Appending a run to the calls of a pass so far, after the calls made before the pass. */
  lemma LogExtend(before: seq<Event>, pass: seq<Event>, run: seq<Event>)
    ensures before + pass + run == before + (pass + run)
  {
  }

  /** A block with no groups gives the empty run. */
  lemma NoGroupsRun()
    ensures IsRun([], map[])
  {
    assert IsOrder([], map[]) && [] == RunOf([], map[]);
  }

  /** A call the pass may make: for a subscribed address, with a non-empty list of transactions that touch it. */
  ghost predicate Deliverable(e: Event, subscribed: set<string>)
  {
    e.address in subscribed && e.txs != [] && forall t :: t in e.txs ==> Touches(t, e.address)
  }

  /** In the runs of a sequence of maps of groups, every save is immediately preceded by the notify of the same address and list. */
  lemma {:induction false} RunsNotifyBeforeSave(events: seq<Event>, gs: seq<map<string, seq<Transaction>>>)
    requires RunsOf(events, gs)
    ensures forall k :: 0 <= k < |events| && events[k].Stored? ==>
              0 < k && events[k - 1] == Notified(events[k].address, events[k].txs)
    decreases |gs|
  {
    if gs != [] {
      var g := gs[|gs| - 1];
      var k := |events| - 2 * |g|;
      var prefix, run := events[..k], events[k..];
      RunsNotifyBeforeSave(prefix, gs[..|gs| - 1]);
      RunShape(run, g);
      forall j | 0 <= j < |events| && events[j].Stored?
        ensures 0 < j && events[j - 1] == Notified(events[j].address, events[j].txs)
      {
        if j < k {
          assert events[j] == prefix[j] && events[j - 1] == prefix[j - 1];
        } else {
          var r := j - k;
          assert events[j] == run[r];
          assert 0 < r;
          assert events[j - 1] == run[r - 1];
        }
      }
    }
  }

  /** Over a whole pass, every save is immediately preceded by the notify of the same address and list. */
  lemma PassLogNotifyBeforeSave(events: seq<Event>, chain: Chain, subscribed: set<string>, first: int, last: int)
    requires PassLog(events, chain, subscribed, first, last)
    ensures forall k :: 0 <= k < |events| && events[k].Stored? ==>
              0 < k && events[k - 1] == Notified(events[k].address, events[k].txs)
  {
    RunsNotifyBeforeSave(events, RangeGroups(HeightGroups(chain, subscribed), first, last));
  }

  /** Every group of the map is for a subscribed address, with a non-empty list of transactions that touch it. */
  ghost predicate AllDeliverable(g: map<string, seq<Transaction>>, subscribed: set<string>)
  {
    forall a :: a in g ==> a in subscribed && g[a] != [] && forall t :: t in g[a] ==> Touches(t, a)
  }

  /** Runs of maps whose groups are all deliverable make only deliverable calls. */
  lemma {:induction false} RunsDeliverable(events: seq<Event>, gs: seq<map<string, seq<Transaction>>>, subscribed: set<string>)
    requires RunsOf(events, gs)
    requires forall k :: 0 <= k < |gs| ==> AllDeliverable(gs[k], subscribed)
    ensures forall k :: 0 <= k < |events| ==> Deliverable(events[k], subscribed)
    decreases |gs|
  {
    if gs != [] {
      var g := gs[|gs| - 1];
      var k := |events| - 2 * |g|;
      var prefix, run := events[..k], events[k..];
      var init := gs[..|gs| - 1];
      assert forall i :: 0 <= i < |init| ==> init[i] == gs[i];
      RunsDeliverable(prefix, init, subscribed);
      RunShape(run, g);
      assert AllDeliverable(g, subscribed);
      forall j | 0 <= j < |events|
        ensures Deliverable(events[j], subscribed)
      {
        if j < k {
          assert events[j] == prefix[j];
        } else {
          assert events[j] == run[j - k];
        }
      }
    }
  }

  /**
   * Over a whole pass, every call is for an address of the snapshot with a
   * non-empty list of transactions that touch it: a transaction touching
   * no subscribed address is never notified or saved.
   */
  lemma PassLogDeliverable(events: seq<Event>, chain: Chain, subscribed: set<string>, first: int, last: int)
    requires PassLog(events, chain, subscribed, first, last)
    ensures forall k :: 0 <= k < |events| ==> Deliverable(events[k], subscribed)
  {
    var gs := RangeGroups(HeightGroups(chain, subscribed), first, last);
    forall k | 0 <= k < |gs| ensures AllDeliverable(gs[k], subscribed) {
      RangeDeliverable(chain, subscribed, first, last, k);
    }
    RunsDeliverable(events, gs, subscribed);
  }

  /** Every map of groups of a range is deliverable. */
  lemma RangeDeliverable(chain: Chain, subscribed: set<string>, first: int, last: int, k: int)
    requires 0 <= k < |RangeGroups(HeightGroups(chain, subscribed), first, last)|
    ensures AllDeliverable(RangeGroups(HeightGroups(chain, subscribed), first, last)[k], subscribed)
  {
    RangeGroupsAt(HeightGroups(chain, subscribed), first, last, k);
    HeightGroupsAt(chain, subscribed, first + k);
    HeightDeliverable(chain, subscribed, first + k);
  }

  /** The groups of any height are deliverable. */
  lemma HeightDeliverable(chain: Chain, subscribed: set<string>, height: int)
    ensures AllDeliverable(BlockGroups(chain, subscribed, height), subscribed)
  {
    var g := BlockGroups(chain, subscribed, height);
    forall a | a in g ensures a in subscribed && g[a] != [] && forall t :: t in g[a] ==> Touches(t, a) {
      GroupsValues(chain, subscribed, height, a);
    }
  }

  /** Each group of a height is a non-empty list of transactions that touch its subscribed address. */
  lemma GroupsValues(chain: Chain, subscribed: set<string>, height: int, address: string)
    requires address in BlockGroups(chain, subscribed, height)
    ensures address in subscribed
    ensures BlockGroups(chain, subscribed, height)[address] != []
    ensures forall t :: t in BlockGroups(chain, subscribed, height)[address] ==> Touches(t, address)
  {
    var block := FetchBlock(chain, height).value;
    var n := ParseBlockNumber(block.Number).value;
    GroupsKeys(block.Transactions, subscribed, n, address);
    forall t | t in BlockGroups(chain, subscribed, height)[address]
      ensures Touches(t, address)
    {
      GroupForMembers(block.Transactions, address, n, t);
    }
  }
}
