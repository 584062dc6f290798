// Accounts and the genesis bootstrap: the first account, funded with the
// whole supply by a transaction it sends to itself.

module Accounts {
  import opened Wrappers
  import opened Json
  import opened Keypairs
  import opened Transactions
  import opened Store

  /** `Account`: an address and its balance. */
  datatype Account = Account(address: string, balance: int) {
    /** `to_dict`. */
    function ToDict(): AccountRecord {
      AccountRecord(address, balance)
    }
  }

  /** `10 * 10`: the genesis balance. */
  const GenesisBalance := 10 * 10

  /** The seed of the genesis key pair: the given one, or a random one. */
  function GenesisSeed(secretSeed: Option<string>, randomSeed: string): string {
    if secretSeed.Some? then secretSeed.value else randomSeed
  }

  /**
   * The genesis transaction: no previous id, from the genesis address to
   * itself, the whole balance, signed with the genesis seed.
   */
  function GenesisTx(c: Scheme, seed: string, freshId: string): Tx {
    var address := Str(c.addressOf(seed));
    var body := Body(Str(freshId), Null, address, address, GenesisBalance);
    Tx(Str(freshId), Null, address, address, GenesisBalance, Str(c.sign(seed, BodyText(body))))
  }

  /** The dictionary after `create_genesis`. */
  function GenesisData(data: map<string, Value>, c: Scheme, seed: string, freshId: string): map<string, Value>
    requires ValidData(data)
  {
    var address := c.addressOf(seed);
    var funded := data[GenesisKey := Address(address)][AccountKey(address) := AccountEntry(AccountRecord(address, GenesisBalance))];
    KeysDisjoint(address, Null, Null);
    var t := GenesisTx(c, seed, freshId);
    Committed(funded, t.id, ToDict(t))
  }

  /**
   * `create_genesis(storage, secret_seed)`: records the genesis address and
   * account, then builds, signs and commits the genesis transaction.
   * `randomSeed` stands for `Keypair.random()` and `freshId` for the
   * transaction's generated id.
   */
  method CreateGenesis(storage: Storage, c: Scheme, secretSeed: Option<string>, randomSeed: string, freshId: string)
    requires storage.Valid()
    modifies storage
    ensures storage.Valid()
    ensures storage.data == GenesisData(old(storage.data), c, GenesisSeed(secretSeed, randomSeed), freshId)
  {
    var seed := if secretSeed.Some? then secretSeed.value else randomSeed;
    var address := c.addressOf(seed);
    storage.Set(GenesisKey, Address(address));
    storage.SetAccount(address, Account(address, GenesisBalance).ToDict());
    var tx := new Transaction(c, Null, Str(address), GenesisBalance, Null, freshId, Some(seed), Null, Null);
    var signed := tx.Sign(c);
    storage.SetTransaction(tx.id, ToDict(tx.View()));
  }

  /**
   * On an empty store, genesis leaves exactly four keys: the genesis
   * address, its account holding the whole balance, the genesis record,
   * and a history of that one record.
   */
  lemma GenesisOnFreshStore(c: Scheme, seed: string, freshId: string)
    ensures var d, t, a := GenesisData(map[], c, seed, freshId), GenesisTx(c, seed, freshId), c.addressOf(seed);
      && ValidData(d)
      && d.Keys == {GenesisKey, AccountKey(a), TxKey(Str(freshId)), HistoryKey(Str(a))}
      && d[GenesisKey] == Address(a)
      && d[AccountKey(a)] == AccountEntry(AccountRecord(a, 100))
      && Lookup(d, TxKey(t.id)) == Some(Record(ToDict(t)))
      && HistoryIn(d, Str(a)) == [ToDict(t)]
  {
    var a := c.addressOf(seed);
    var t := GenesisTx(c, seed, freshId);
    var funded := map[][GenesisKey := Address(a)][AccountKey(a) := AccountEntry(AccountRecord(a, GenesisBalance))];
    KeysDisjoint(a, t.id, Str(a));
    assert HistoryIn(funded, Str(a)) == [];
    CommittedEffects(funded, t.id, ToDict(t));
  }

  /**
   * The genesis transaction has no predecessor, moves the whole balance
   * from the genesis address to itself, and passes validation whenever the
   * signature scheme is sound.
   */
  lemma GenesisTxValidates(c: Scheme, seed: string, freshId: string)
    requires Sound(c)
    ensures var t := GenesisTx(c, seed, freshId);
      && t.previousId == Null
      && t.sourceAddress == t.receiverAddress == Str(c.addressOf(seed))
      && t.amount == 100
      && Validate(c, ToJson(t)) == Valid(t)
  {
    var t := GenesisTx(c, seed, freshId);
    assert BodyOf(t) == Body(Str(freshId), Null, t.sourceAddress, t.sourceAddress, GenesisBalance);
    ValidateSigned(c, t, seed);
  }
}
