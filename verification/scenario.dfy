/**
 * A worked pass of the engine: a new engine whose bootstrap sees height 2,
 * two subscriptions, and a chain holding blocks 1 and 2 only.
 */
module Scenario {
  import opened Models
  import opened BlockNumber
  import opened Storage
  import opened Matching
  import opened Scan
  import opened Parser

  const Tx1: Transaction := Transaction("0xa1", "0x1", "0x2", "100", "0x1", 0)
  const Tx2: Transaction := Transaction("0xa2", "0x2", "0x3", "200", "0x2", 0)

  /** The node answers for heights 1 and 2 only. */
  const TwoBlocks: Chain := map["0x1" := Block("0x1", [Tx1]), "0x2" := Block("0x2", [Tx2])]

  /** The two heights the node knows, as requested and as parsed back. */
  lemma SmallHeights()
    ensures FormatBlockNumber(1) == "0x1" && FormatBlockNumber(2) == "0x2"
    ensures ParseBlockNumber("0x1") == Some(1) && ParseBlockNumber("0x2") == Some(2)
  {
    assert FormatBlockNumber(1) == "0x1" && FormatBlockNumber(2) == "0x2";
    FormatParseRoundTrip(1);
    FormatParseRoundTrip(2);
  }

  /** Every other int64 height is a failed request. */
  lemma OnlyTwoHeights(h: int)
    requires MinInt64 <= h <= MaxInt64 && h != 1 && h != 2
    ensures FetchBlock(TwoBlocks, h).None?
  {
    SmallHeights();
    FormatBlockNumberInjective(h, 1);
    FormatBlockNumberInjective(h, 2);
  }

  /** Block 1 and block 2 as the pass sees them: fetched, parsed, grouped. */
  lemma TwoBlocksGroups(subscribed: set<string>)
    ensures BlockGroups(TwoBlocks, subscribed, 1) == Groups([Tx1], subscribed, 1)
    ensures BlockGroups(TwoBlocks, subscribed, 2) == Groups([Tx2], subscribed, 2)
  {
    SmallHeights();
  }

  /**
   * Of any int64 range covering 1..2 only those two heights contribute: an
   * address gets its group in block 1, then its group in block 2.
   */
  lemma TwoBlocksHistory(subscribed: set<string>, address: string, first: int, last: int)
    requires MinInt64 <= first <= 1 && 2 <= last <= MaxInt64
    ensures History(TwoBlocks, subscribed, address, first, last)
         == Lookup(Groups([Tx1], subscribed, 1), address) + Lookup(Groups([Tx2], subscribed, 2), address)
  {
    HistorySplit(TwoBlocks, subscribed, address, first, 0, last);
    HistorySplit(TwoBlocks, subscribed, address, 1, 2, last);
    forall h | first <= h <= 0 || 3 <= h <= last ensures FetchBlock(TwoBlocks, h).None? {
      OnlyTwoHeights(h);
    }
    QuietHistory(TwoBlocks, subscribed, address, first, 0);
    QuietHistory(TwoBlocks, subscribed, address, 3, last);
    TwoBlocksGroups(subscribed);
    var one, two := Lookup(Groups([Tx1], subscribed, 1), address), Lookup(Groups([Tx2], subscribed, 2), address);
    assert History(TwoBlocks, subscribed, address, 1, 1) == one by {
      assert History(TwoBlocks, subscribed, address, 1, 0) == [];
    }
    assert History(TwoBlocks, subscribed, address, 1, 2) == one + two;
  }

  /** Block 1's transfer from "0x1" to "0x2" goes to both subscribers. */
  lemma BlockOneGroups(address: string)
    ensures Lookup(Groups([Tx1], {"0x1", "0x2"}, 1), address)
         == if address == "0x1" || address == "0x2" then [Stamp(Tx1, 1)] else []
  {
    GroupsAt([Tx1], {"0x1", "0x2"}, 1, address);
    assert GroupFor([Tx1], address, 1) == Hits(Tx1, address, 1) by { assert [Tx1][..0] == []; }
  }

  /** Block 2's transfer from "0x2" to the unsubscribed "0x3" goes to "0x2" only. */
  lemma BlockTwoGroups(address: string)
    ensures Lookup(Groups([Tx2], {"0x1", "0x2"}, 2), address)
         == if address == "0x2" then [Stamp(Tx2, 2)] else []
  {
    GroupsAt([Tx2], {"0x1", "0x2"}, 2, address);
    assert GroupFor([Tx2], address, 2) == Hits(Tx2, address, 2) by { assert [Tx2][..0] == []; }
  }

  /**
   * A pass over any int64 range covering 1..2, such as the -47..2 that the
   * bootstrap leaves for height 2 with the look-back of 50: "0x1" gets the
   * transfer it sent, "0x2" the transfer it received and then the one it
   * sent, each stamped with its block's number; nobody else gets anything.
   */
  lemma TwoBlockPass(first: int, last: int, address: string)
    requires MinInt64 <= first <= 1 && 2 <= last <= MaxInt64
    ensures Lookup(ScanStore(map[], TwoBlocks, {"0x1", "0x2"}, first, last), address)
         == if address == "0x1" then [Stamp(Tx1, 1)]
            else if address == "0x2" then [Stamp(Tx1, 1), Stamp(Tx2, 2)]
            else []
  {
    ScanStoreAt(map[], TwoBlocks, {"0x1", "0x2"}, first, last, address);
    TwoBlocksHistory({"0x1", "0x2"}, address, first, last);
    BlockOneGroups(address);
    BlockTwoGroups(address);
  }

  /**
   * The same pass driven through the engine: construct it with the reply
   * "0x2", subscribe both addresses, run one scan pass, read both lists.
   */
  method TwoBlockEngine() returns (sent: seq<Transaction>, received: seq<Transaction>, last: int)
    ensures sent == [Stamp(Tx1, 1)]
    ensures received == [Stamp(Tx1, 1), Stamp(Tx2, 2)]
    ensures last == 2
  {
    var storage := new MemoryStorage();
    SmallHeights();
    var p := new EthParser(storage, Some("0x2"));
    assert p.lastProcessedBlock == -48;
    var _ := p.Subscribe("0x1");
    var _ := p.Subscribe("0x2");
    assert p.subscriptions == {"0x1", "0x2"};
    ghost var pass := p.FetchTransactions(TwoBlocks);
    ghost var first := Wrap64(-48 + 1);
    assert storage.data == ScanStore(map[], TwoBlocks, {"0x1", "0x2"}, first, 2);
    TwoBlockPass(first, 2, "0x1");
    TwoBlockPass(first, 2, "0x2");
    sent := p.GetTransactions("0x1");
    received := p.GetTransactions("0x2");
    last := p.lastProcessedBlock;
  }
}
