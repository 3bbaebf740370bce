/** The OVM ETH state surgery: `Migrate` of op-chain-ops, from the slot lists to the committed state.

    Tries are finite maps, and iterating a trie or a Go map visits each key once in an arbitrary order.
    The Keccak storage hash is a parameter. `log.Crit` and panics end the run with a `Failed` outcome. */
module Surgery {
  import opened Common

  type Address = x: nat | x < 0x1_00000000_00000000_00000000_00000000_00000000
  type Hash = x: nat | x < 0x1_00000000_00000000_00000000_00000000_00000000_00000000_00000000_00000000
  type StorageHash = (nat, nat) -> Hash
  type Storage = map<Hash, Hash>

  const OVM_ETH: Address := 0xDeadDeAddeAddEAddeadDEaDDEAdDeaDDeAD0000
  const MAX_SLOT: nat := 256
  const SUPPLY_SLOT: Hash := 2

  datatype Account = Account(balance: nat, code: seq<bv8>, nonce: nat, storage: Storage)
  type World = map<Address, Account>

  datatype Params = Params(knownMissing: set<Hash>, expectedDelta: int)

  /** Everything `Migrate` reads. `params` is `None` for a chain without parameters. */
  datatype Input = Input(
    hash: StorageHash,
    listed: seq<Address>,
    allowances: seq<(Address, Address)>,
    preimages: seq<Address>,
    mints: seq<Address>,
    trie: World,
    genesis: World,
    params: Option<Params>)

  datatype SlotKind = Balance | Allowance

  datatype Failure = NoOvmEth | NoParams | MissedKey | SupplyMismatch | NonZeroBalance | TotalMismatch
  datatype Outcome = Committed(world: World) | Failed(reason: Failure)

  // ----- storage keys and state reads -----

  function BalanceKey(h: StorageHash, a: Address): Hash { h(a, 0) }

  function AllowanceKey(h: StorageHash, owner: Address, spender: Address): Hash { h(spender, h(owner, 1)) }

  /** Reading a slot that is not in the trie gives zero. */
  function Read(storage: Storage, k: Hash): Hash { if k in storage then storage[k] else 0 }

  /** Writing zero deletes the slot. */
  function Write(storage: Storage, k: Hash, v: Hash): Storage { if v == 0 then storage - {k} else storage[k := v] }

  function OvmStorage(inp: Input): Storage { if OVM_ETH in inp.trie then inp.trie[OVM_ETH].storage else map[] }

  function OvmBalance(inp: Input, a: Address): nat { Read(OvmStorage(inp), BalanceKey(inp.hash, a)) }

  function Supply(inp: Input): nat { Read(OvmStorage(inp), SUPPLY_SLOT) }

  // ----- what the run is about, without iteration -----

  function Elements(s: seq<Address>): set<Address> { set a | a in s }

  function Owners(s: seq<(Address, Address)>): set<Address> { set i | 0 <= i < |s| :: s[i].0 }

  function Collected(inp: Input): set<Address> {
    Elements(inp.listed) + Owners(inp.allowances) + Elements(inp.preimages) + Elements(inp.mints)
  }

  ghost predicate IsBalanceKeyOf(h: StorageHash, addrs: set<Address>, k: Hash) {
    exists a :: a in addrs && BalanceKey(h, a) == k
  }

  ghost predicate IsAllowanceKeyOf(h: StorageHash, pairs: seq<(Address, Address)>, k: Hash) {
    exists i :: 0 <= i < |pairs| && AllowanceKey(h, pairs[i].0, pairs[i].1) == k
  }

  /** How a slot is classified: later sources override earlier ones. */
  ghost function KindOf(inp: Input, k: Hash): Option<SlotKind> {
    if IsBalanceKeyOf(inp.hash, Elements(inp.preimages) + Elements(inp.mints), k) then Some(Balance)
    else if IsAllowanceKeyOf(inp.hash, inp.allowances, k) then Some(Allowance)
    else if IsBalanceKeyOf(inp.hash, Elements(inp.listed), k) then Some(Balance)
    else None
  }

  ghost predicate Missed(inp: Input, k: Hash)
    requires inp.params.Some?
  {
    k in OvmStorage(inp) && KindOf(inp, k) == None && k > MAX_SLOT && k !in inp.params.value.knownMissing
  }

  ghost function BalanceSlots(inp: Input): set<Hash> {
    set k | k in OvmStorage(inp) && KindOf(inp, k) == Some(Balance)
  }

  ghost function ReadFn(storage: Storage): Hash -> int { (k: Hash) => Read(storage, k) }

  ghost function OvmBalanceFn(inp: Input): Address -> int { (a: Address) => OvmBalance(inp, a) }

  ghost function BalanceFn(w: World): Address -> int { (a: Address) => if a in w then w[a].balance else 0 }

  /** The sum over slots. */
  ghost function TotalFound(inp: Input): int { Sum(BalanceSlots(inp), ReadFn(OvmStorage(inp))) }

  function FromTrie(inp: Input): set<Address> { inp.trie.Keys - inp.genesis.Keys - {OVM_ETH} }

  function FromLists(inp: Input): set<Address> { Collected(inp) - inp.trie.Keys }

  /** Trie accounts that the migration passes over. */
  function Skipped(inp: Input): set<Address> { inp.trie.Keys - FromTrie(inp) }

  /** The sum over accounts. */
  ghost function TotalMigrated(inp: Input): int { Sum<Address>(FromTrie(inp) + FromLists(inp), OvmBalanceFn(inp)) }

  function Normal(storage: Storage): Storage { map k | k in storage && storage[k] != 0 :: storage[k] }

  function Imported(a: Account): Account { a.(storage := Normal(a.storage)) }

  function TrieAccount(inp: Input, a: Address): Account
    requires a in inp.trie
  {
    Account(OvmBalance(inp, a), inp.trie[a].code, inp.trie[a].nonce, Normal(inp.trie[a].storage))
  }

  /** The output once the genesis and the accounts `moved` have been written. */
  function AfterTrie(inp: Input, moved: set<Address>): World
    requires moved <= inp.trie.Keys
  {
    map a | a in inp.genesis.Keys + moved :: if a in moved then TrieAccount(inp, a) else Imported(inp.genesis[a])
  }

  function TopUp(inp: Input, w: World, a: Address): Account {
    var account := if a in w then w[a] else Account(0, [], 0, map[]);
    account.(balance := account.balance + OvmBalance(inp, a))
  }

  /** The output `w` once the collected addresses `added` have been topped up. */
  function ToppedUp(inp: Input, w: World, added: set<Address>): World {
    map a | a in w.Keys + added :: if a in added then TopUp(inp, w, a) else w[a]
  }

  function FinalWorld(inp: Input): World { ToppedUp(inp, AfterTrie(inp, FromTrie(inp)), FromLists(inp)) }

  ghost predicate AccountWithBalance(inp: Input) { exists a :: a in FromTrie(inp) && inp.trie[a].balance > 0 }

  ghost function Result(inp: Input): Outcome {
    if OVM_ETH !in inp.trie then Failed(NoOvmEth)
    else if inp.params.None? then Failed(NoParams)
    else if exists k :: Missed(inp, k) then Failed(MissedKey)
    else if Supply(inp) - TotalFound(inp) != inp.params.value.expectedDelta then Failed(SupplyMismatch)
    else if AccountWithBalance(inp) then Failed(NonZeroBalance)
    else if TotalMigrated(inp) != TotalFound(inp) then Failed(TotalMismatch)
    else Committed(FinalWorld(inp))
  }

  // ----- the program -----

  method AddBalanceSlots(h: StorageHash, addrs: seq<Address>, addresses: set<Address>, slots: map<Hash, SlotKind>)
    returns (addresses': set<Address>, slots': map<Hash, SlotKind>)
    ensures addresses' == addresses + Elements(addrs)
    ensures forall k :: k in slots' <==> k in slots || IsBalanceKeyOf(h, Elements(addrs), k)
    ensures forall k | k in slots' ::
      slots'[k] == if IsBalanceKeyOf(h, Elements(addrs), k) then Balance else slots[k]
  {
    addresses', slots' := addresses, slots;
    for i := 0 to |addrs|
      invariant addresses' == addresses + Elements(addrs[..i])
      invariant forall k :: k in slots' <==> k in slots || IsBalanceKeyOf(h, Elements(addrs[..i]), k)
      invariant forall k | k in slots' ::
        slots'[k] == if IsBalanceKeyOf(h, Elements(addrs[..i]), k) then Balance else slots[k]
    {
      addresses' := addresses' + {addrs[i]};
      slots' := slots'[BalanceKey(h, addrs[i]) := Balance];
      assert addrs[..i + 1] == addrs[..i] + [addrs[i]];
      assert Elements(addrs[..i + 1]) == Elements(addrs[..i]) + {addrs[i]};
      assert addrs[i] in Elements(addrs[..i + 1]);
    }
    assert addrs[..|addrs|] == addrs;
  }

  method AddAllowanceSlots(h: StorageHash, pairs: seq<(Address, Address)>, addresses: set<Address>,
                           slots: map<Hash, SlotKind>)
    returns (addresses': set<Address>, slots': map<Hash, SlotKind>)
    ensures addresses' == addresses + Owners(pairs)
    ensures forall k :: k in slots' <==> k in slots || IsAllowanceKeyOf(h, pairs, k)
    ensures forall k | k in slots' ::
      slots'[k] == if IsAllowanceKeyOf(h, pairs, k) then Allowance else slots[k]
  {
    addresses', slots' := addresses, slots;
    for i := 0 to |pairs|
      invariant addresses' == addresses + Owners(pairs[..i])
      invariant forall k :: k in slots' <==> k in slots || IsAllowanceKeyOf(h, pairs[..i], k)
      invariant forall k | k in slots' ::
        slots'[k] == if IsAllowanceKeyOf(h, pairs[..i], k) then Allowance else slots[k]
    {
      ghost var key := AllowanceKey(h, pairs[i].0, pairs[i].1);
      ghost var before := slots';
      addresses' := addresses' + {pairs[i].0};
      slots' := slots'[AllowanceKey(h, pairs[i].0, pairs[i].1) := Allowance];
      assert forall j | 0 <= j < i :: pairs[..i + 1][j] == pairs[..i][j];
      assert pairs[..i + 1][i] == pairs[i];
      assert Owners(pairs[..i + 1]) == Owners(pairs[..i]) + {pairs[i].0};
      forall k: Hash ensures IsAllowanceKeyOf(h, pairs[..i + 1], k) <==> IsAllowanceKeyOf(h, pairs[..i], k) || k == key {
        if IsAllowanceKeyOf(h, pairs[..i], k) {
          var j :| 0 <= j < i && AllowanceKey(h, pairs[..i][j].0, pairs[..i][j].1) == k;
          assert AllowanceKey(h, pairs[..i + 1][j].0, pairs[..i + 1][j].1) == k;
        }
        if k == key {
          assert AllowanceKey(h, pairs[..i + 1][i].0, pairs[..i + 1][i].1) == k;
        }
      }
    }
    assert pairs[..|pairs|] == pairs;
  }

  /** Steps 1 of the migration: the expected addresses and slots. */
  method Collect(inp: Input) returns (addresses: set<Address>, slots: map<Hash, SlotKind>)
    ensures addresses == Collected(inp)
    ensures forall k :: KindOf(inp, k) == if k in slots then Some(slots[k]) else None
  {
    addresses, slots := AddBalanceSlots(inp.hash, inp.listed, {}, map[]);
    addresses, slots := AddAllowanceSlots(inp.hash, inp.allowances, addresses, slots);
    ghost var before := slots;
    addresses, slots := AddBalanceSlots(inp.hash, inp.preimages, addresses, slots);
    addresses, slots := AddBalanceSlots(inp.hash, inp.mints, addresses, slots);
    forall k: Hash
      ensures IsBalanceKeyOf(inp.hash, Elements(inp.preimages) + Elements(inp.mints), k) <==>
              IsBalanceKeyOf(inp.hash, Elements(inp.preimages), k) || IsBalanceKeyOf(inp.hash, Elements(inp.mints), k)
    {
    }
  }

  function Counted(storage: Storage, slots: map<Hash, SlotKind>): set<Hash> {
    set k | k in storage && k in slots && slots[k] == Balance
  }

  /** Neither expected, nor a variable, nor known to be missing. */
  predicate Unaccounted(storage: Storage, slots: map<Hash, SlotKind>, p: Params, k: Hash) {
    k in storage && k !in slots && k > MAX_SLOT && k !in p.knownMissing
  }

  /** Step 2: visit every slot of OVM ETH, add up the balances, stop at a slot nobody accounts for. */
  method SumSlots(storage: Storage, slots: map<Hash, SlotKind>, params: Option<Params>)
    returns (failure: Option<Failure>, totalFound: int)
    ensures params.None? ==> failure == Some(NoParams)
    ensures params.Some? ==> (failure == None || failure == Some(MissedKey))
    ensures params.Some? ==> (failure == Some(MissedKey) <==> exists k :: Unaccounted(storage, slots, params.value, k))
    ensures failure.None? ==> totalFound == Sum<Hash>(Counted(storage, slots), ReadFn(storage))
  {
    var todo := storage.Keys;
    totalFound := 0;
    while todo != {}
      invariant todo <= storage.Keys
      invariant totalFound == Sum<Hash>(Counted(storage, slots) - todo, ReadFn(storage))
      invariant params.Some? ==> forall k | k in storage.Keys && k !in todo :: !Unaccounted(storage, slots, params.value, k)
      decreases todo
    {
      var k :| k in todo;
      ghost var before := todo;
      todo := todo - {k};
      if k in slots && slots[k] == Balance {
        assert Counted(storage, slots) - todo == Counted(storage, slots) - before + {k};
        SumInsert<Hash>(Counted(storage, slots) - before, k, ReadFn(storage));
        totalFound := totalFound + storage[k];
      } else {
        assert Counted(storage, slots) - todo == Counted(storage, slots) - before;
        if k !in slots && k > MAX_SLOT {
          if params.None? {
            return Some(NoParams), totalFound;
          }
          if k !in params.value.knownMissing {
            assert Unaccounted(storage, slots, params.value, k);
            return Some(MissedKey), totalFound;
          }
        }
      }
    }
    assert Counted(storage, slots) - todo == Counted(storage, slots);
    failure := if params.None? then Some(NoParams) else None;
  }

  /** The `SetState` loop over one account's storage. */
  method ImportStorage(w: World, a: Address, storage: Storage) returns (w': World)
    requires a in w && w[a].storage == map[]
    ensures w' == w[a := w[a].(storage := Normal(storage))]
  {
    w' := w;
    var todo := storage.Keys;
    while todo != {}
      invariant todo <= storage.Keys && a in w'
      invariant w' == w[a := w[a].(storage := w'[a].storage)]
      invariant w'[a].storage == Normal(storage) - todo
      decreases todo
    {
      var k :| k in todo;
      w' := w'[a := w'[a].(storage := Write(w'[a].storage, k, storage[k]))];
      todo := todo - {k};
    }
    assert Normal(storage) - todo == Normal(storage);
  }

  /** Step 4: the genesis allocation. */
  method ImportGenesis(genesis: World) returns (w: World)
    ensures w == map a | a in genesis :: Imported(genesis[a])
  {
    w := map[];
    var todo := genesis.Keys;
    while todo != {}
      invariant todo <= genesis.Keys
      invariant w == map a | a in genesis.Keys - todo :: Imported(genesis[a])
      decreases todo
    {
      var a :| a in todo;
      w := w[a := Account(genesis[a].balance, genesis[a].code, genesis[a].nonce, map[])];
      w := ImportStorage(w, a, genesis[a].storage);
      todo := todo - {a};
    }
  }

  /** Step 3, first half: every account of the old trie. */
  method ImportTrie(inp: Input, genesis: World)
    returns (failure: Option<Failure>, w: World, total: int, migrated: set<Address>)
    requires genesis == map a | a in inp.genesis :: Imported(inp.genesis[a])
    ensures failure == if AccountWithBalance(inp) then Some(NonZeroBalance) else None
    ensures failure.None? ==> migrated == inp.trie.Keys
    ensures failure.None? ==> total == Sum<Address>(FromTrie(inp), OvmBalanceFn(inp))
    ensures failure.None? ==> w == AfterTrie(inp, FromTrie(inp))
  {
    w, total, migrated := genesis, 0, {};
    var todo := inp.trie.Keys;
    ghost var moved: set<Address> := {};
    while todo != {}
      invariant todo <= inp.trie.Keys && migrated == inp.trie.Keys - todo
      invariant moved == FromTrie(inp) - todo
      invariant forall a | a in moved :: inp.trie[a].balance == 0
      invariant total == Sum<Address>(moved, OvmBalanceFn(inp))
      invariant w == AfterTrie(inp, moved)
      decreases todo
    {
      var a :| a in todo;
      migrated := migrated + {a};
      todo := todo - {a};
      if a in inp.genesis || a == OVM_ETH {
        continue;
      }
      if inp.trie[a].balance > 0 {
        return Some(NonZeroBalance), w, total, migrated;
      }
      w := ImportAccount(inp, w, moved, a);
      SumInsert<Address>(moved, a, OvmBalanceFn(inp));
      total := total + OvmBalance(inp, a);
      moved := moved + {a};
    }
    assert moved == FromTrie(inp);
    failure := None;
  }

  /** One account: balance, code, nonce, then its storage. */
  method ImportAccount(inp: Input, w: World, ghost moved: set<Address>, a: Address) returns (w': World)
    requires a in inp.trie && a !in inp.genesis && a !in moved && moved <= inp.trie.Keys
    requires w == AfterTrie(inp, moved)
    ensures w' == AfterTrie(inp, moved + {a})
  {
    var data := inp.trie[a];
    w' := w[a := Account(OvmBalance(inp, a), data.code, data.nonce, map[])];
    w' := ImportStorage(w', a, data.storage);
  }

  lemma TopUpOneMore(inp: Input, w: World, added: set<Address>, a: Address)
    requires a !in added
    ensures ToppedUp(inp, w, added)[a := TopUp(inp, ToppedUp(inp, w, added), a)] == ToppedUp(inp, w, added + {a})
  {
  }

  /** Step 3, second half: collected addresses that are not in the trie. */
  method ImportZeroNonce(inp: Input, w: World, total: int, ghost moved: set<Address>,
                         addresses: set<Address>, migrated: set<Address>)
    returns (w': World, total': int)
    requires moved <= migrated
    requires total == Sum<Address>(moved, OvmBalanceFn(inp))
    ensures w' == ToppedUp(inp, w, addresses - migrated)
    ensures total' == Sum<Address>(moved + (addresses - migrated), OvmBalanceFn(inp))
  {
    w', total' := w, total;
    var todo := addresses;
    ghost var added: set<Address> := {};
    assert moved + added == moved;
    while todo != {}
      invariant todo <= addresses
      invariant added == addresses - migrated - todo
      invariant total' == Sum<Address>(moved + added, OvmBalanceFn(inp))
      invariant w' == ToppedUp(inp, w, added)
      decreases todo
    {
      var a :| a in todo;
      todo := todo - {a};
      if a !in migrated {
        assert moved + (added + {a}) == moved + added + {a};
        SumInsert<Address>(moved + added, a, OvmBalanceFn(inp));
        total' := total' + OvmBalance(inp, a);
        TopUpOneMore(inp, w, added, a);
        w' := w'[a := TopUp(inp, w', a)];
        added := added + {a};
      }
    }
    assert added == addresses - migrated;
  }

  lemma SlotsClassified(inp: Input, slots: map<Hash, SlotKind>)
    requires forall k :: KindOf(inp, k) == if k in slots then Some(slots[k]) else None
    ensures Counted(OvmStorage(inp), slots) == BalanceSlots(inp)
    ensures inp.params.Some? ==>
      forall k :: Missed(inp, k) <==> Unaccounted(OvmStorage(inp), slots, inp.params.value, k)
  {
  }

  /** The whole migration, for every iteration order. */
  method Migrate(inp: Input) returns (r: Outcome)
    ensures r == Result(inp)
  {
    var addresses, slots := Collect(inp);
    if OVM_ETH !in inp.trie {
      return Failed(NoOvmEth);
    }
    var failure, totalFound := SumSlots(OvmStorage(inp), slots, inp.params);
    SlotsClassified(inp, slots);
    if failure.Some? {
      return Failed(failure.value);
    }
    if Supply(inp) - totalFound != inp.params.value.expectedDelta {
      return Failed(SupplyMismatch);
    }
    var genesis := ImportGenesis(inp.genesis);
    var failure', w, total, migrated := ImportTrie(inp, genesis);
    if failure'.Some? {
      return Failed(failure'.value);
    }
    var w', totalMigrated := ImportZeroNonce(inp, w, total, FromTrie(inp), addresses, migrated);
    if totalMigrated != totalFound {
      return Failed(TotalMismatch);
    }
    r := Committed(w');
  }

  // ----- what the migration promises -----

  /** What a committed run has checked. */
  lemma CommittedMeans(inp: Input)
    requires Result(inp).Committed?
    ensures Result(inp).world == FinalWorld(inp) && inp.params.Some?
    ensures TotalMigrated(inp) == TotalFound(inp) == Supply(inp) - inp.params.value.expectedDelta
  {
  }

  /** A final balance is the genesis allocation plus what was moved to the address. */
  lemma FinalBalance(inp: Input, a: Address)
    requires a in FinalWorld(inp)
    ensures FinalWorld(inp)[a].balance ==
            BalanceFn(inp.genesis)(a) + if a in FromTrie(inp) + FromLists(inp) then OvmBalance(inp, a) else 0
  {
  }

  lemma FinalKeys(inp: Input)
    ensures FinalWorld(inp).Keys == inp.genesis.Keys + (FromTrie(inp) + FromLists(inp))
  {
  }

  lemma FinalSum(inp: Input)
    ensures Sum(FinalWorld(inp).Keys, BalanceFn(FinalWorld(inp))) ==
            Sum(inp.genesis.Keys, BalanceFn(inp.genesis)) + TotalMigrated(inp)
  {
    var w := FinalWorld(inp);
    var moved := FromTrie(inp) + FromLists(inp);
    var g := BalanceFn(inp.genesis);
    var m := (a: Address) => if a in moved then OvmBalance(inp, a) else 0;
    FinalKeys(inp);
    forall a: Address | a in w.Keys ensures BalanceFn(w)(a) == g(a) + m(a) { FinalBalance(inp, a); }
    SumPlus(w.Keys, g, m, BalanceFn(w));
    SumWiden(inp.genesis.Keys, w.Keys, g);
    SumWiden(moved, w.Keys, m);
    SumSame(moved, m, OvmBalanceFn(inp));
  }

  /** Conservation: nothing is minted or lost beyond the accepted delta. */
  lemma Conservation(inp: Input)
    requires Result(inp).Committed?
    ensures Sum(Result(inp).world.Keys, BalanceFn(Result(inp).world)) ==
            Sum(inp.genesis.Keys, BalanceFn(inp.genesis)) + Supply(inp) - inp.params.value.expectedDelta
  {
    CommittedMeans(inp);
    FinalSum(inp);
  }

  /** What became of each account. */
  lemma AccountsPreserved(inp: Input, a: Address)
    requires Result(inp).Committed? && a in inp.trie
    ensures a !in inp.genesis && a != OVM_ETH ==>
      && a in Result(inp).world
      && Result(inp).world[a].balance == OvmBalance(inp, a)
      && Result(inp).world[a].code == inp.trie[a].code
      && Result(inp).world[a].nonce == inp.trie[a].nonce
      && (forall k: Hash :: Read(Result(inp).world[a].storage, k) == Read(inp.trie[a].storage, k))
    ensures a in inp.genesis ==>
      && a in Result(inp).world
      && Result(inp).world[a].(storage := map[]) == inp.genesis[a].(storage := map[])
      && (forall k: Hash :: Read(Result(inp).world[a].storage, k) == Read(inp.genesis[a].storage, k))
    ensures a == OVM_ETH && a !in inp.genesis ==> a !in Result(inp).world
  {
  }

  /** Which accounts there are. */
  lemma WorldIs(inp: Input, a: Address)
    requires Result(inp).Committed?
    ensures a in Result(inp).world <==>
            a in inp.genesis || (a in inp.trie && a != OVM_ETH) || (a in Collected(inp) && a !in inp.trie)
  {
  }

  /** An account that was not in the trie gets its OVM ETH on top of its allocation, and nothing else. */
  lemma OutsidersKept(inp: Input, a: Address)
    requires Result(inp).Committed? && a !in inp.trie && a in Result(inp).world
    ensures a in inp.genesis ==>
      && Result(inp).world[a].code == inp.genesis[a].code
      && Result(inp).world[a].nonce == inp.genesis[a].nonce
      && (forall k: Hash :: Read(Result(inp).world[a].storage, k) == Read(inp.genesis[a].storage, k))
      && Result(inp).world[a].balance ==
           inp.genesis[a].balance + if a in Collected(inp) then OvmBalance(inp, a) else 0
    ensures a !in inp.genesis ==>
      && Result(inp).world[a].code == []
      && Result(inp).world[a].nonce == 0
      && (forall k: Hash :: Read(Result(inp).world[a].storage, k) == 0)
      && Result(inp).world[a].balance == OvmBalance(inp, a)
  {
  }

  /** The storage hash behaves as a hash: distinct balance keys, clear of the variables and of allowance keys. */
  ghost predicate KeysDistinct(h: StorageHash) {
    && (forall a: Address, b: Address :: BalanceKey(h, a) == BalanceKey(h, b) ==> a == b)
    && (forall a: Address :: BalanceKey(h, a) > MAX_SLOT)
    && (forall a: Address, o: Address, s: Address :: BalanceKey(h, a) != AllowanceKey(h, o, s))
  }

  function Everyone(inp: Input): set<Address> { inp.trie.Keys + Collected(inp) }

  /** Known addresses whose balance slot the run does not count as a balance. */
  ghost function Unlisted(inp: Input): set<Address> {
    set a | a in Everyone(inp) && BalanceKey(inp.hash, a) in OvmStorage(inp) - BalanceSlots(inp)
  }

  /** A slot counted as a balance belongs to a collected address. */
  lemma CountedSlotHasOwner(inp: Input, k: Hash)
    requires KindOf(inp, k) == Some(Balance)
    ensures exists a :: a in Collected(inp) && BalanceKey(inp.hash, a) == k
  {
  }

  ghost function Listed(inp: Input): set<Address> {
    set a | a in Everyone(inp) && BalanceKey(inp.hash, a) in BalanceSlots(inp)
  }

  /** Counting slots is counting the addresses they belong to. */
  lemma FoundIsListed(inp: Input)
    requires KeysDistinct(inp.hash)
    ensures Sum(Listed(inp), OvmBalanceFn(inp)) == TotalFound(inp)
  {
    var key := (a: Address) => BalanceKey(inp.hash, a);
    forall k | k in BalanceSlots(inp) ensures exists a :: a in Listed(inp) && key(a) == k {
      CountedSlotHasOwner(inp, k);
      var a :| a in Collected(inp) && BalanceKey(inp.hash, a) == k;
      assert a in Listed(inp) && key(a) == k;
    }
    SumReindex(Listed(inp), BalanceSlots(inp), key, OvmBalanceFn(inp), ReadFn(OvmStorage(inp)));
  }

  /** The two totals, over all known addresses. */
  lemma FoundIsEveryoneListed(inp: Input)
    requires KeysDistinct(inp.hash)
    ensures Sum(Everyone(inp), OvmBalanceFn(inp)) == TotalFound(inp) + Sum(Unlisted(inp), OvmBalanceFn(inp))
  {
    FoundIsListed(inp);
    SumDisjoint(Listed(inp), Unlisted(inp), OvmBalanceFn(inp));
    SumWiden(Listed(inp) + Unlisted(inp), Everyone(inp), OvmBalanceFn(inp));
  }

  lemma EveryoneIsMigratedOrSkipped(inp: Input)
    ensures Sum(Everyone(inp), OvmBalanceFn(inp)) == TotalMigrated(inp) + Sum(Skipped(inp), OvmBalanceFn(inp))
  {
    SumDisjoint(FromTrie(inp) + FromLists(inp), Skipped(inp), OvmBalanceFn(inp));
    assert FromTrie(inp) + FromLists(inp) + Skipped(inp) == Everyone(inp);
  }

  /** The difference of the totals, exactly: what skipped accounts hold against what unlisted slots hold. */
  lemma TotalsDifference(inp: Input)
    requires KeysDistinct(inp.hash)
    ensures TotalMigrated(inp) + Sum(Skipped(inp), OvmBalanceFn(inp)) ==
            TotalFound(inp) + Sum(Unlisted(inp), OvmBalanceFn(inp))
  {
    FoundIsEveryoneListed(inp);
    EveryoneIsMigratedOrSkipped(inp);
  }

  /** A run that passes the missed-key check leaves only known-missing slots uncounted. */
  lemma UnlistedIsKnownMissing(inp: Input, a: Address)
    requires KeysDistinct(inp.hash) && inp.params.Some?
    requires !exists k :: Missed(inp, k)
    requires a in Unlisted(inp)
    ensures BalanceKey(inp.hash, a) in inp.params.value.knownMissing
  {
    var k := BalanceKey(inp.hash, a);
    assert !Missed(inp, k);
  }

  lemma {:induction false} SumZeroIff(s: set<Address>, inp: Input)
    ensures Sum(s, OvmBalanceFn(inp)) >= 0
    ensures Sum(s, OvmBalanceFn(inp)) == 0 <==> forall a | a in s :: OvmBalance(inp, a) == 0
    decreases s
  {
    if s != {} {
      var a :| a in s;
      SumRemove(s, a, OvmBalanceFn(inp));
      SumZeroIff(s - {a}, inp);
      assert forall b | b in s :: b == a || b in s - {a};
    }
  }

  lemma NothingUnlisted(inp: Input)
    requires KeysDistinct(inp.hash) && inp.params.Some? && !exists k :: Missed(inp, k)
    requires forall a | a in Everyone(inp) :: BalanceKey(inp.hash, a) !in inp.params.value.knownMissing
    ensures Unlisted(inp) == {}
  {
    if a :| a in Unlisted(inp) { UnlistedIsKnownMissing(inp, a); }
  }

  /** What a run that reaches the final check has passed. */
  lemma FinalCheckMeans(inp: Input)
    requires Result(inp).Committed? || Result(inp) == Failed(TotalMismatch)
    ensures inp.params.Some? && !exists k :: Missed(inp, k)
    ensures Result(inp) == Failed(TotalMismatch) <==> TotalMigrated(inp) != TotalFound(inp)
  {
  }

  /** The final check fails exactly when a skipped account holds OVM ETH, once the earlier checks passed
      and no known-missing slot is a known address's balance. */
  lemma FinalCheckFailsIffSkippedHolds(inp: Input)
    requires KeysDistinct(inp.hash) && OVM_ETH in inp.trie && inp.params.Some?
    requires forall a | a in Everyone(inp) :: BalanceKey(inp.hash, a) !in inp.params.value.knownMissing
    requires Result(inp).Committed? || Result(inp) == Failed(TotalMismatch)
    ensures Result(inp) == Failed(TotalMismatch) <==> exists a :: a in Skipped(inp) && OvmBalance(inp, a) > 0
  {
    FinalCheckMeans(inp);
    NothingUnlisted(inp);
    TotalsDifference(inp);
    SumZeroIff(Skipped(inp), inp);
  }

  // ----- against the token the contract implements -----

  /** An ERC-20 token: what everyone holds, which owner-spender pairs were ever approved, the total supply. */
  datatype Token = Token(balances: map<Address, Hash>, approved: set<(Address, Address)>, supply: Hash)

  function Held(token: Token, a: Address): nat { if a in token.balances then token.balances[a] else 0 }

  ghost function HeldFn(token: Token): Address -> int { (a: Address) => Held(token, a) }

  /** Solidity's storage layout of the token: balances at slot 0, allowances at slot 1, the supply in slot 2, and
      nothing but variables up to slot 256. */
  ghost predicate Implements(h: StorageHash, storage: Storage, token: Token) {
    && (forall a: Address :: Read(storage, h(a, 0)) == Held(token, a))
    && Read(storage, 2) == token.supply
    && (forall k: Hash | k in storage && k > 256 :: IsHolderSlot(h, token, k) || IsApprovalSlot(h, token, k))
  }

  ghost predicate IsHolderSlot(h: StorageHash, token: Token, k: Hash) {
    exists a :: a in token.balances && h(a, 0) == k
  }

  ghost predicate IsApprovalSlot(h: StorageHash, token: Token, k: Hash) {
    exists p :: p in token.approved && h(p.1, h(p.0, 1)) == k
  }

  /** Every holder is in a list, among the preimages or among the mints, and every approval is in a list. */
  predicate Covers(inp: Input, token: Token) {
    && (forall a | a in token.balances :: a in inp.listed || a in inp.preimages || a in inp.mints)
    && (forall p | p in token.approved :: p in inp.allowances)
  }

  /** A migration input for this token. */
  ghost predicate Migrates(inp: Input, token: Token) {
    && KeysDistinct(inp.hash) && OVM_ETH in inp.trie && inp.params.Some?
    && Implements(inp.hash, inp.trie[OVM_ETH].storage, token) && Covers(inp, token)
  }

  /** The balance slot of a listed address counts as a balance. */
  lemma ListedIsBalance(inp: Input, a: Address)
    requires KeysDistinct(inp.hash) && (a in inp.listed || a in inp.preimages || a in inp.mints)
    ensures KindOf(inp, inp.hash(a, 0)) == Some(Balance)
  {
    var k := BalanceKey(inp.hash, a);
    assert a in Elements(inp.listed) || a in Elements(inp.preimages) + Elements(inp.mints);
    assert !IsAllowanceKeyOf(inp.hash, inp.allowances, k);
  }

  lemma ListedIsAllowance(inp: Input, p: (Address, Address))
    requires p in inp.allowances
    ensures KindOf(inp, inp.hash(p.1, inp.hash(p.0, 1))) != None
  {
    var i :| 0 <= i < |inp.allowances| && inp.allowances[i] == p;
    assert IsAllowanceKeyOf(inp.hash, inp.allowances, AllowanceKey(inp.hash, p.0, p.1));
  }

  /** Covering the token covers its slots. */
  lemma NothingMissed(inp: Input, token: Token, k: Hash)
    requires Migrates(inp, token)
    ensures !Missed(inp, k)
  {
    if k in OvmStorage(inp) && k > 256 {
      if IsHolderSlot(inp.hash, token, k) {
        var a :| a in token.balances && inp.hash(a, 0) == k;
        ListedIsBalance(inp, a);
      } else {
        var p :| p in token.approved && inp.hash(p.1, inp.hash(p.0, 1)) == k;
        ListedIsAllowance(inp, p);
      }
    }
  }

  lemma HoldersListed(inp: Input, token: Token, a: Address)
    requires Migrates(inp, token) && a in token.balances && a !in Listed(inp)
    ensures Held(token, a) == 0
  {
    ListedIsBalance(inp, a);
    assert a in Everyone(inp);
  }

  lemma TokenUnlisted(inp: Input, token: Token)
    requires Migrates(inp, token)
    ensures Unlisted(inp) == {}
  {
    if a :| a in Unlisted(inp) {
      var k := BalanceKey(inp.hash, a);
      assert !IsApprovalSlot(inp.hash, token, k);
      var b :| b in token.balances && inp.hash(b, 0) == k;
      ListedIsBalance(inp, b);
    }
  }

  /** The run finds exactly what the token's holders have. */
  lemma FoundIsHeld(inp: Input, token: Token)
    requires Migrates(inp, token)
    ensures TotalFound(inp) == Sum(token.balances.Keys, HeldFn(token))
  {
    var f, all := HeldFn(token), Listed(inp) + token.balances.Keys;
    FoundIsListed(inp);
    SumSame(Listed(inp), OvmBalanceFn(inp), f);
    forall a | a in all - Listed(inp) ensures f(a) == 0 { HoldersListed(inp, token, a); }
    SumWiden(Listed(inp), all, f);
    SumWiden(token.balances.Keys, all, f);
  }

  lemma SkippedAre(inp: Input, token: Token)
    requires Migrates(inp, token)
    ensures (forall a | a in Skipped(inp) :: OvmBalance(inp, a) == 0) <==>
            (forall a | a in inp.trie && (a in inp.genesis || a == OVM_ETH) :: Held(token, a) == 0)
  {
    assert forall a: Address :: a in Skipped(inp) <==> a in inp.trie && (a in inp.genesis || a == OVM_ETH);
    assert forall a: Address :: OvmBalance(inp, a) == Held(token, a);
  }

  lemma TotalsAgreeIff(inp: Input, token: Token)
    requires Migrates(inp, token)
    ensures TotalMigrated(inp) == TotalFound(inp) <==>
            forall a | a in inp.trie && (a in inp.genesis || a == OVM_ETH) :: Held(token, a) == 0
  {
    TokenUnlisted(inp, token);
    TotalsDifference(inp);
    SumZeroIff(Skipped(inp), inp);
    SkippedAre(inp, token);
  }

  /** A slot is missed exactly when it is above the variables, not known to be missing, and neither the balance slot of
      an address in the lists, preimages or mints nor the allowance slot of a listed pair. */
  lemma MissedIff(inp: Input, k: Hash)
    requires inp.params.Some? && OVM_ETH in inp.trie
    ensures Missed(inp, k) <==>
            && k in inp.trie[OVM_ETH].storage && k > 256 && k !in inp.params.value.knownMissing
            && (forall a: Address | a in inp.listed || a in inp.preimages || a in inp.mints :: inp.hash(a, 0) != k)
            && (forall p | p in inp.allowances :: inp.hash(p.1, inp.hash(p.0, 1)) != k)
  {
    if exists a: Address :: (a in inp.listed || a in inp.preimages || a in inp.mints) && inp.hash(a, 0) == k {
      var a: Address :| (a in inp.listed || a in inp.preimages || a in inp.mints) && inp.hash(a, 0) == k;
      assert a in Elements(inp.listed) || a in Elements(inp.preimages) + Elements(inp.mints);
      assert BalanceKey(inp.hash, a) == k;
    } else if exists p :: p in inp.allowances && inp.hash(p.1, inp.hash(p.0, 1)) == k {
      var p :| p in inp.allowances && inp.hash(p.1, inp.hash(p.0, 1)) == k;
      ListedIsAllowance(inp, p);
    } else {
      assert forall i | 0 <= i < |inp.allowances| :: inp.allowances[i] in inp.allowances;
    }
  }

  /** Every failure names its own cause. */
  lemma FailsBecause(inp: Input)
    requires Result(inp).Failed?
    ensures match Result(inp).reason
            case NoOvmEth => OVM_ETH !in inp.trie
            case NoParams => inp.params.None?
            case MissedKey => exists k: Hash :: Missed(inp, k)
            case SupplyMismatch => Supply(inp) - TotalFound(inp) != inp.params.value.expectedDelta
            case NonZeroBalance =>
              exists a :: a in inp.trie && a !in inp.genesis && a != OVM_ETH && inp.trie[a].balance > 0
            case TotalMismatch => TotalMigrated(inp) != TotalFound(inp)
  {
  }

  /** The checks a run has to pass. */
  lemma CommitsIff(inp: Input)
    requires OVM_ETH in inp.trie && inp.params.Some? && forall k: Hash :: !Missed(inp, k)
    ensures Result(inp).Committed? <==>
            && Supply(inp) - TotalFound(inp) == inp.params.value.expectedDelta
            && (forall a | a in inp.trie && a !in inp.genesis && a != OVM_ETH :: inp.trie[a].balance == 0)
            && TotalMigrated(inp) == TotalFound(inp)
  {
  }

  /** The migration of a covered token commits exactly when the supply differs from the holdings by the expected delta,
      no migrated account has a balance in state, and no holder is an account the migration passes over. */
  lemma TokenCommitsIff(inp: Input, token: Token)
    requires Migrates(inp, token)
    ensures Result(inp).Committed? <==>
            && token.supply - Sum(token.balances.Keys, HeldFn(token)) == inp.params.value.expectedDelta
            && (forall a | a in inp.trie && a !in inp.genesis && a != OVM_ETH :: inp.trie[a].balance == 0)
            && (forall a | a in inp.trie && (a in inp.genesis || a == OVM_ETH) :: Held(token, a) == 0)
  {
    forall k: Hash ensures !Missed(inp, k) { NothingMissed(inp, token, k); }
    CommitsIff(inp);
    FoundIsHeld(inp, token);
    TotalsAgreeIff(inp, token);
    assert Supply(inp) == token.supply;
  }

  /** And then every holder has in ether, on top of an allocation, exactly what it held. */
  lemma HoldersPaid(inp: Input, token: Token, a: Address)
    requires Migrates(inp, token) && Result(inp).Committed? && Held(token, a) > 0
    ensures a in Result(inp).world
    ensures Result(inp).world[a].balance == (if a in inp.genesis then inp.genesis[a].balance else 0) + Held(token, a)
  {
    TokenCommitsIff(inp, token);
    WorldIs(inp, a);
    assert OvmBalance(inp, a) == Held(token, a);
    if a in inp.trie { AccountsPreserved(inp, a); } else { OutsidersKept(inp, a); }
  }
}
