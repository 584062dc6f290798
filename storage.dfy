// The node's key-value store: one dictionary whose keys are namespaced
// strings, rewritten to disk after every change.

module Store {
  import opened Wrappers
  import opened Json
  import opened Transactions

  /** `Account.to_dict()`: the record stored under `account.<address>`. */
  datatype AccountRecord = AccountRecord(address: string, balance: int)

  /**
   * What the store holds under each namespace: the genesis address, account
   * records, transaction records (`Transaction.to_dict()`), per-source
   * histories newest first, and the pool of pending transactions.
   */
  datatype Value =
    | Address(address: string)
    | AccountEntry(account: AccountRecord)
    | Record(envelope: Envelope)
    | Records(entries: seq<Envelope>)
    | Pool(pending: seq<Tx>)

  const GenesisKey := "genesis"
  const PoolKey := "pool"
  const HistoryPrefix := "transactions."

  /** `'account.%s' % address`. */
  function AccountKey(address: string): string {
    "account." + address
  }

  /** `'transaction.%s' % id`. */
  function TxKey(id: Scalar): string {
    "transaction." + PyStr(id)
  }

  /** `'transactions.%s' % address`. */
  function HistoryKey(address: Scalar): string {
    HistoryPrefix + PyStr(address)
  }

  predicate HasPrefix(k: string, p: string) {
    |p| <= |k| && k[..|p|] == p
  }

  /** Histories live under `transactions.` and the pool under `pool`. */
  predicate Fits(k: string, v: Value) {
    (HasPrefix(k, HistoryPrefix) ==> v.Records?) && (k == PoolKey ==> v.Pool?)
  }

  predicate ValidData(data: map<string, Value>) {
    forall k :: k in data ==> Fits(k, data[k])
  }

  /** `dict.get(k)`. */
  function Lookup(data: map<string, Value>, k: string): Option<Value> {
    if k in data then Some(data[k]) else None
  }

  /** `get_transactions(address)`: the history, or an empty one. */
  function HistoryIn(data: map<string, Value>, address: Scalar): seq<Envelope>
    requires ValidData(data)
  {
    var k := HistoryKey(address);
    if k in data then data[k].entries else []
  }

  /** The pending transactions, or none when the pool was never created. */
  function PoolIn(data: map<string, Value>): seq<Tx>
    requires ValidData(data)
  {
    if PoolKey in data then data[PoolKey].pending else []
  }

  /** The dictionary after `set_transaction(id, v)`. */
  function Committed(data: map<string, Value>, id: Scalar, v: Envelope): map<string, Value>
    requires ValidData(data)
  {
    data[TxKey(id) := Record(v)][HistoryKey(v.sourceAddress) := Records([v] + HistoryIn(data, v.sourceAddress))]
  }

  /** The dictionary after `add_transaction_to_pool(tx)`. */
  function Pooled(data: map<string, Value>, tx: Tx): map<string, Value>
    requires ValidData(data)
  {
    data[PoolKey := Pool([tx] + PoolIn(data))]
  }

  /**
   * The namespaces never meet: an account or transaction key is never a
   * history key or one of the two fixed keys, and a history key always is
   * one.
   */
  lemma KeysDisjoint(a: string, id: Scalar, h: Scalar)
    ensures HasPrefix(HistoryKey(h), HistoryPrefix)
    ensures !HasPrefix(AccountKey(a), HistoryPrefix) && !HasPrefix(TxKey(id), HistoryPrefix)
    ensures AccountKey(a) != TxKey(id)
    ensures AccountKey(a) !in {GenesisKey, PoolKey} && TxKey(id) !in {GenesisKey, PoolKey}
    ensures HistoryKey(h) !in {GenesisKey, PoolKey}
  {
    assert HistoryKey(h)[..|HistoryPrefix|] == HistoryPrefix;
    assert AccountKey(a)[0] == 'a' && TxKey(id)[0] == 't' && HistoryKey(h)[0] == 't';
    assert TxKey(id)[11] == '.' && HistoryPrefix[11] == 's';
  }

  /**
   * Committing a record stores it under its id, puts it at the front of its
   * source's history, and changes no other key.
   */
  lemma CommittedEffects(data: map<string, Value>, id: Scalar, v: Envelope)
    requires ValidData(data)
    ensures var r := Committed(data, id, v);
      && ValidData(r)
      && Lookup(r, TxKey(id)) == Some(Record(v))
      && HistoryIn(r, v.sourceAddress) == [v] + HistoryIn(data, v.sourceAddress)
      && r.Keys == data.Keys + {TxKey(id), HistoryKey(v.sourceAddress)}
      && (forall k :: k != TxKey(id) && k != HistoryKey(v.sourceAddress) ==> Lookup(r, k) == Lookup(data, k))
  {
    KeysDisjoint("", id, v.sourceAddress);
    var r := Committed(data, id, v);
    forall k | k in r
      ensures Fits(k, r[k])
    {
      if k == TxKey(id) {
        assert !HasPrefix(k, HistoryPrefix) && k != PoolKey;
      }
    }
  }

  /**
   * The ledger is append-only: after a commit every history still holds
   * what it held, behind at most one new record, and every key stays.
   */
  lemma CommittedAppendOnly(data: map<string, Value>, id: Scalar, v: Envelope, a: Scalar)
    requires ValidData(data)
    ensures ValidData(Committed(data, id, v))
    ensures data.Keys <= Committed(data, id, v).Keys
    ensures var before, after := HistoryIn(data, a), HistoryIn(Committed(data, id, v), a);
      after == before || after == [v] + before
  {
    CommittedEffects(data, id, v);
    KeysDisjoint("", id, a);
  }

  /** Pooling puts the transaction at the front of the pool and nothing else changes. */
  lemma PooledEffects(data: map<string, Value>, tx: Tx)
    requires ValidData(data)
    ensures var r := Pooled(data, tx);
      && ValidData(r)
      && PoolIn(r) == [tx] + PoolIn(data)
      && (forall k :: k != PoolKey ==> Lookup(r, k) == Lookup(data, k))
      && (forall a :: HistoryIn(r, a) == HistoryIn(data, a))
  {
    forall a
      ensures HistoryKey(a) != PoolKey
    {
      KeysDisjoint("", Null, a);
    }
  }

  /** `Storage`: the dictionary and the name of the file it is saved to. */
  class Storage {
    const name: string
    var data: map<string, Value>

    ghost predicate Valid()
      reads this
    {
      ValidData(data)
    }

    constructor (name: string)
      ensures this.name == name && data == map[] && Valid()
    {
      this.name := name;
      data := map[];
    }

    /** `initialize`: starts over with an empty dictionary. */
    method Initialize()
      modifies this
      ensures data == map[] && Valid()
    {
      data := map[];
    }

    /** `get(k)`. */
    function Get(k: string): Option<Value>
      reads this
    {
      Lookup(data, k)
    }

    /** `set(k, v)`: overwrites `k` and nothing else. */
    method Set(k: string, v: Value)
      requires Valid() && Fits(k, v)
      modifies this
      ensures data == old(data)[k := v] && Valid()
      ensures Get(k) == Some(v)
      ensures forall k' :: k' != k ==> Get(k') == old(Get(k'))
    {
      data := data[k := v];
    }

    /** `get_account(address)`. */
    function GetAccount(address: string): Option<Value>
      reads this
    {
      Get(AccountKey(address))
    }

    /** `set_account(address, v)`. */
    method SetAccount(address: string, v: AccountRecord)
      requires Valid()
      modifies this
      ensures data == old(data)[AccountKey(address) := AccountEntry(v)] && Valid()
      ensures GetAccount(address) == Some(AccountEntry(v))
    {
      KeysDisjoint(address, Null, Null);
      Set(AccountKey(address), AccountEntry(v));
    }

    /** `get_transaction(id)`. */
    function GetTransaction(id: Scalar): Option<Value>
      reads this
    {
      Get(TxKey(id))
    }

    /** `get_transactions(address)`. */
    function GetTransactions(address: Scalar): seq<Envelope>
      requires Valid()
      reads this
    {
      HistoryIn(data, address)
    }

    /**
     * `set_transaction(id, v)`: stores the record, then re-reads the
     * history of its source and stores it with the record in front.
     */
    method SetTransaction(id: Scalar, v: Envelope)
      requires Valid()
      modifies this
      ensures data == Committed(old(data), id, v) && Valid()
      ensures GetTransaction(id) == Some(Record(v))
      ensures GetTransactions(v.sourceAddress) == [v] + old(GetTransactions(v.sourceAddress))
    {
      KeysDisjoint("", id, v.sourceAddress);
      CommittedEffects(data, id, v);
      Set(TxKey(id), Record(v));
      var txs := GetTransactions(v.sourceAddress);
      txs := [v] + txs;
      Set(HistoryKey(v.sourceAddress), Records(txs));
    }

    /** `add_transaction_to_pool(tx)`: creates the pool if needed, then prepends. */
    method AddTransactionToPool(tx: Tx)
      requires Valid()
      modifies this
      ensures data == Pooled(old(data), tx) && Valid()
      ensures PoolIn(data) == [tx] + PoolIn(old(data)) && |PoolIn(data)| == |PoolIn(old(data))| + 1
    {
      PooledEffects(data, tx);
      if PoolKey !in data {
        data := data[PoolKey := Pool([])];
      }
      data := data[PoolKey := Pool([tx] + data[PoolKey].pending)];
    }
  }
}
