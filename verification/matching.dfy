/**
 * The per-block matching rule of a scan pass: every transaction of the
 * block whose sender is subscribed goes into the sender's group, and
 * independently every transaction whose recipient is subscribed goes into
 * the recipient's group, stamped with the block's parsed number.
 */
module Matching {
  import opened Models

  /** The copy of tx that is saved: BlockNumberInt set to the block's parsed number. */
  function Stamp(tx: Transaction, n: int): Transaction
  {
    tx.(BlockNumberInt := n)
  }

  predicate Touches(tx: Transaction, address: string)
  {
    tx.From == address || tx.To == address
  }

  /** One stamped copy of tx for each side of it that is address (two for a self-transfer). */
  function Hits(tx: Transaction, address: string, n: int): seq<Transaction>
  {
    (if tx.From == address then [Stamp(tx, n)] else [])
    + (if tx.To == address then [Stamp(tx, n)] else [])
  }

  /** The group of a subscribed address for a block with transactions txs and number n. */
  function GroupFor(txs: seq<Transaction>, address: string, n: int): seq<Transaction>
    decreases |txs|
  {
    if txs == [] then []
    else GroupFor(txs[..|txs| - 1], address, n) + Hits(txs[|txs| - 1], address, n)
  }

  /**
   * One iteration of the loop over block.Transactions: a transaction
   * touching a subscribed address is stamped and appended to the sender's
   * group if the sender is subscribed, then to the recipient's group if the
   * recipient is.
   */
  function AddMatch(groups: map<string, seq<Transaction>>, tx: Transaction, subscribed: set<string>, n: int)
    : map<string, seq<Transaction>>
  {
    if tx.From in subscribed || tx.To in subscribed then
      var stamped := Stamp(tx, n);
      var afterFrom := if tx.From in subscribed then groups[tx.From := Lookup(groups, tx.From) + [stamped]] else groups;
      if tx.To in subscribed then afterFrom[tx.To := Lookup(afterFrom, tx.To) + [stamped]] else afterFrom
    else groups
  }

  /** transactionsForAddresses after the loop over the block's transactions txs. */
  function Groups(txs: seq<Transaction>, subscribed: set<string>, n: int): map<string, seq<Transaction>>
    decreases |txs|
  {
    if txs == [] then map[]
    else AddMatch(Groups(txs[..|txs| - 1], subscribed, n), txs[|txs| - 1], subscribed, n)
  }

  /**
   * The loop over block.Transactions that builds transactionsForAddresses
   * by append, against the snapshot of the subscriptions.
   */
  method GroupTransactions(txs: seq<Transaction>, subscribed: set<string>, n: int)
    returns (groups: map<string, seq<Transaction>>)
    ensures groups == Groups(txs, subscribed, n)
    ensures forall a :: Lookup(groups, a) == if a in subscribed then GroupFor(txs, a, n) else []
    ensures forall a :: a in groups <==> a in subscribed && GroupFor(txs, a, n) != []
  {
    groups := map[];
    for j := 0 to |txs|
      invariant groups == Groups(txs[..j], subscribed, n)
    {
      var tx := txs[j];
      if tx.From in subscribed || tx.To in subscribed {
        var stamped := tx.(BlockNumberInt := n);
        if tx.From in subscribed {
          groups := groups[tx.From := Lookup(groups, tx.From) + [stamped]];
        }
        if tx.To in subscribed {
          groups := groups[tx.To := Lookup(groups, tx.To) + [stamped]];
        }
      }
      assert txs[..j + 1][..j] == txs[..j];
    }
    assert txs[..|txs|] == txs;
    forall a ensures Lookup(groups, a) == (if a in subscribed then GroupFor(txs, a, n) else [])
                 && (a in groups <==> a in subscribed && GroupFor(txs, a, n) != [])
    {
      GroupsAt(txs, subscribed, n, a);
    }
  }

  /**
   * The groups built by the loop are the per-address groups: a subscribed
   * address's group is GroupFor, it is present exactly when non-empty, and
   * an unsubscribed address has none.
   */
  lemma {:induction false} GroupsAt(txs: seq<Transaction>, subscribed: set<string>, n: int, address: string)
    ensures Lookup(Groups(txs, subscribed, n), address) == if address in subscribed then GroupFor(txs, address, n) else []
    ensures address in Groups(txs, subscribed, n) <==> address in subscribed && GroupFor(txs, address, n) != []
    decreases |txs|
  {
    if txs != [] {
      var init := txs[..|txs| - 1];
      GroupsAt(init, subscribed, n, address);
      AddMatchAt(Groups(init, subscribed, n), txs[|txs| - 1], subscribed, n, address);
    }
  }

  /** One loop iteration extends a subscribed address's group by the hits of the transaction and touches nothing else. */
  lemma AddMatchAt(groups: map<string, seq<Transaction>>, tx: Transaction, subscribed: set<string>, n: int, address: string)
    ensures Lookup(AddMatch(groups, tx, subscribed, n), address)
         == Lookup(groups, address) + (if address in subscribed then Hits(tx, address, n) else [])
    ensures address in AddMatch(groups, tx, subscribed, n)
        <==> address in groups || (address in subscribed && Touches(tx, address))
  {
  }

  /** Groups keep block order: the group of a concatenation is the concatenation of the groups. */
  lemma {:induction false} GroupForAppend(xs: seq<Transaction>, ys: seq<Transaction>, address: string, n: int)
    ensures GroupFor(xs + ys, address, n) == GroupFor(xs, address, n) + GroupFor(ys, address, n)
    decreases |ys|
  {
    if ys == [] {
      assert xs + ys == xs;
    } else {
      var init, last := ys[..|ys| - 1], ys[|ys| - 1];
      GroupForAppend(xs, init, address, n);
      assert (xs + ys)[..|xs + ys| - 1] == xs + init;
      assert (xs + ys)[|xs + ys| - 1] == last;
      var a, b, c := GroupFor(xs, address, n), GroupFor(init, address, n), Hits(last, address, n);
      assert GroupFor(xs + ys, address, n) == (a + b) + c;
      assert GroupFor(ys, address, n) == b + c;
      assert (a + b) + c == a + (b + c);
    }
  }

  /** The hits of a transaction are its stamped copy, present when it touches the address. */
  lemma HitsMembers(tx: Transaction, address: string, n: int, t: Transaction)
    ensures t in Hits(tx, address, n) <==> Touches(tx, address) && t == Stamp(tx, n)
  {
  }

  /**
   * A transaction is in an address's group exactly when it is the stamped
   * copy of a block transaction touching the address; so every member is
   * stamped with n and has the address as sender or recipient.
   */
  lemma {:induction false} GroupForMembers(txs: seq<Transaction>, address: string, n: int, t: Transaction)
    ensures t in GroupFor(txs, address, n)
        <==> exists j :: 0 <= j < |txs| && Touches(txs[j], address) && t == Stamp(txs[j], n)
    ensures t in GroupFor(txs, address, n) ==> t.BlockNumberInt == n && Touches(t, address)
    decreases |txs|
  {
    if txs != [] {
      var k := |txs| - 1;
      var init := txs[..k];
      GroupForMembers(init, address, n, t);
      HitsMembers(txs[k], address, n, t);
      assert GroupFor(txs, address, n) == GroupFor(init, address, n) + Hits(txs[k], address, n);
      if t in GroupFor(txs, address, n) {
        if t in GroupFor(init, address, n) {
          var j :| 0 <= j < |init| && Touches(init[j], address) && t == Stamp(init[j], n);
          assert txs[j] == init[j];
        } else {
          assert Touches(txs[k], address) && t == Stamp(txs[k], n);
        }
      }
      if exists j :: 0 <= j < |txs| && Touches(txs[j], address) && t == Stamp(txs[j], n) {
        var j :| 0 <= j < |txs| && Touches(txs[j], address) && t == Stamp(txs[j], n);
        if j < k {
          assert init[j] == txs[j];
        } else {
          assert t in Hits(txs[k], address, n);
        }
      }
    }
  }

  /**
   * An address's group is empty exactly when no transaction of the block
   * touches it, that is, when it is not one of the block's parties.
   */
  lemma {:induction false} GroupForEmpty(txs: seq<Transaction>, address: string, n: int)
    ensures GroupFor(txs, address, n) == [] <==> forall j :: 0 <= j < |txs| ==> !Touches(txs[j], address)
    decreases |txs|
  {
    if txs != [] {
      var k := |txs| - 1;
      var init := txs[..k];
      GroupForEmpty(init, address, n);
      assert forall j :: 0 <= j < k ==> init[j] == txs[j];
    }
  }

  /**
   * A self-transfer by a subscribed address is put into its group twice,
   * once as sender and once as recipient, at the transfer's place in block order.
   */
  lemma SelfTransferTwice(txs: seq<Transaction>, j: nat, address: string, n: int)
    requires j < |txs| && txs[j].From == address && txs[j].To == address
    ensures GroupFor(txs, address, n)
         == GroupFor(txs[..j], address, n) + [Stamp(txs[j], n), Stamp(txs[j], n)] + GroupFor(txs[j + 1..], address, n)
  {
    assert txs == txs[..j] + [txs[j]] + txs[j + 1..];
    GroupForAppend(txs[..j] + [txs[j]], txs[j + 1..], address, n);
    GroupForAppend(txs[..j], [txs[j]], address, n);
    assert GroupFor([txs[j]], address, n) == Hits(txs[j], address, n);
  }

  /**
   * An address has a group exactly when it is subscribed and some
   * transaction of the block has it as sender or recipient.
   */
  lemma GroupsKeys(txs: seq<Transaction>, subscribed: set<string>, n: int, address: string)
    ensures address in Groups(txs, subscribed, n)
        <==> address in subscribed && exists j :: 0 <= j < |txs| && Touches(txs[j], address)
    ensures address in Groups(txs, subscribed, n) ==> Groups(txs, subscribed, n)[address] == GroupFor(txs, address, n) != []
  {
    GroupForEmpty(txs, address, n);
    GroupsAt(txs, subscribed, n, address);
  }

  /** A block none of whose transactions touches a subscribed address has no group at all. */
  lemma NoMatchNoGroups(txs: seq<Transaction>, subscribed: set<string>, n: int)
    ensures Groups(txs, subscribed, n) == map[]
        <==> forall j :: 0 <= j < |txs| ==> txs[j].From !in subscribed && txs[j].To !in subscribed
  {
    if Groups(txs, subscribed, n) == map[] {
      forall j | 0 <= j < |txs|
        ensures txs[j].From !in subscribed && txs[j].To !in subscribed
      {
        GroupsKeys(txs, subscribed, n, txs[j].From);
        GroupsKeys(txs, subscribed, n, txs[j].To);
      }
    } else {
      var a :| a in Groups(txs, subscribed, n);
      GroupsKeys(txs, subscribed, n, a);
    }
  }
}
