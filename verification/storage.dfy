/**
 * The in-memory transaction store: a dictionary from address to the list
 * of transactions saved for it, appended to on save and read back as is.
 */
module Storage {
  import opened Models

  /**
   * The dictionary after data[address] = append(data[address], txs...):
   * the address's list is extended by txs and every other list is as it was.
   */
  function Saved(data: map<string, seq<Transaction>>, address: string, txs: seq<Transaction>)
    : (r: map<string, seq<Transaction>>)
    ensures r.Keys == data.Keys + {address}
    ensures Lookup(r, address) == Lookup(data, address) + txs
    ensures forall other :: other != address ==> Lookup(r, other) == Lookup(data, other)
  {
    data[address := Lookup(data, address) + txs]
  }

  /**
   * The dictionary after one save per entry of groups, in any order: every
   * address's list is extended by its group. Saves to distinct addresses
   * commute, so the result does not depend on the order of the saves.
   */
  function AppendGroups(data: map<string, seq<Transaction>>, groups: map<string, seq<Transaction>>)
    : (r: map<string, seq<Transaction>>)
    ensures r.Keys == data.Keys + groups.Keys
    ensures forall a :: Lookup(r, a) == Lookup(data, a) + Lookup(groups, a)
  {
    map a | a in data.Keys + groups.Keys :: Lookup(data, a) + Lookup(groups, a)
  }

  /** Saving one more group extends AppendGroups by that group. */
  lemma AppendGroupsStep(data: map<string, seq<Transaction>>, done: map<string, seq<Transaction>>,
                         address: string, txs: seq<Transaction>)
    requires address !in done
    ensures Saved(AppendGroups(data, done), address, txs) == AppendGroups(data, done[address := txs])
  {
    forall a ensures Lookup(Saved(AppendGroups(data, done), address, txs), a)
                  == Lookup(AppendGroups(data, done[address := txs]), a) {
      AppendGroupsStepAt(data, done, address, txs, a);
    }
    AppendGroupsStepKeys(data, done, address, txs);
    LookupExtensional(Saved(AppendGroups(data, done), address, txs), AppendGroups(data, done[address := txs]));
  }

  lemma AppendGroupsStepAt(data: map<string, seq<Transaction>>, done: map<string, seq<Transaction>>,
                           address: string, txs: seq<Transaction>, a: string)
    requires address !in done
    ensures Lookup(Saved(AppendGroups(data, done), address, txs), a) == Lookup(AppendGroups(data, done[address := txs]), a)
  {
    if a == address {
      assert Lookup(done[address := txs], a) == txs;
    } else {
      assert Lookup(done[address := txs], a) == Lookup(done, a);
    }
  }

  lemma AppendGroupsStepKeys(data: map<string, seq<Transaction>>, done: map<string, seq<Transaction>>,
                             address: string, txs: seq<Transaction>)
    ensures Saved(AppendGroups(data, done), address, txs).Keys == AppendGroups(data, done[address := txs]).Keys
  {
  }

  /** Two dictionaries with the same keys and the same list for every address are equal. */
  lemma LookupExtensional(l: map<string, seq<Transaction>>, r: map<string, seq<Transaction>>)
    requires l.Keys == r.Keys
    requires forall a :: Lookup(l, a) == Lookup(r, a)
    ensures l == r
  {
    forall a | a in l ensures l[a] == r[a] {
      assert Lookup(l, a) == Lookup(r, a);
    }
  }

  /** With no groups nothing is saved. */
  lemma AppendNoGroups(data: map<string, seq<Transaction>>)
    ensures AppendGroups(data, map[]) == data
  {
    var r := AppendGroups(data, map[]);
    forall a | a in r ensures r[a] == data[a] {
      assert Lookup(r, a) == Lookup(data, a);
    }
  }

  /** Saving an empty list changes no address's list. */
  lemma SaveEmptyUnobservable(data: map<string, seq<Transaction>>, address: string)
    ensures forall a :: Lookup(Saved(data, address, []), a) == Lookup(data, a)
  {
  }

  /** Two saves to one address leave their lists concatenated in call order. */
  lemma SaveTwiceConcatenates(data: map<string, seq<Transaction>>, address: string,
                              first: seq<Transaction>, second: seq<Transaction>)
    ensures Lookup(Saved(Saved(data, address, first), address, second), address)
         == Lookup(data, address) + first + second
  {
  }

  /** MemoryStorage: the dictionary lives in one field that saves reassign. */
  class MemoryStorage {
    var data: map<string, seq<Transaction>>

    /** NewMemoryStorage: an empty dictionary. */
    constructor ()
      ensures data == map[]
    {
      data := map[];
    }

    /** Appends txs to the address's list. */
    method SaveTransactions(address: string, transactions: seq<Transaction>)
      modifies this
      ensures data == Saved(old(data), address, transactions)
    {
      data := data[address := Lookup(data, address) + transactions];
    }

    /** The address's list, empty when nothing was ever saved for it. */
    method GetTransactions(address: string) returns (r: seq<Transaction>)
      ensures r == Lookup(data, address)
      ensures address !in data ==> r == []
    {
      if address in data {
        r := data[address];
      } else {
        r := [];
      }
    }
  }
}
