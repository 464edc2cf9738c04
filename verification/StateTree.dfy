/**
 * Account objects and their tree (state_tree.go), the execution of transactions on them
 * (block_chain.go) and the miner's loop (miner/miner.go). A copy of the state shares the account
 * objects; only the tree handle and the table of objects are new.
 */
module StateTree {
  import opened Options
  import opened Ledger

  /** A handle on the account tree, seen as the map it stores. */
  class TreeHandle {
    var entries: Accounts
    constructor (e: Accounts) ensures entries == e { entries := e; }
  }

  class StateObj {
    const address: Address
    const tree: TreeHandle
    var balance: Option<int>
    var nonce: nat

    constructor (address: Address, tree: TreeHandle, balance: Option<int>, nonce: nat)
      ensures this.address == address && this.tree == tree && this.balance == balance && this.nonce == nonce
    {
      this.address, this.tree, this.balance, this.nonce := address, tree, balance, nonce;
    }

    function Account(): (r: Account)
      reads this`balance, this`nonce
    {
      Ledger.Account(balance, nonce)
    }

    method Update()
      modifies tree`entries
      ensures tree.entries == old(tree.entries)[address := Account()]
    {
      tree.entries := tree.entries[address := Ledger.Account(balance, nonce)];
    }
  }

  lemma RestrictStep(e: Accounts, l: Accounts, keys: set<Address>, rest: set<Address>, a: Address)
    requires a in l && a in rest
    ensures e + Restrict(l, keys - (rest - {a})) ==
            if a in keys then (e + Restrict(l, keys - rest))[a := l[a]] else e + Restrict(l, keys - rest)
  {
    assert Restrict(l, keys - (rest - {a})) ==
           if a in keys then Restrict(l, keys - rest)[a := l[a]] else Restrict(l, keys - rest);
  }

  lemma RestrictEnds(e: Accounts, l: Accounts, keys: set<Address>, all: set<Address>)
    requires keys <= all
    ensures e + Restrict(l, keys - all) == e && e + Restrict(l, keys - {}) == e + Restrict(l, keys)
  {
    assert keys - {} == keys;
  }

  lemma MergedBack(e: Accounts, held: Accounts, keys: set<Address>, all: set<Address>)
    requires keys <= all == held.Keys
    ensures (e + Restrict(held, keys)) + held == e + held && Restrict(held, keys) == Restrict(e + held, keys)
  {}

  ghost function ObjectsOf(objs: map<Address, StateObj>): set<StateObj>
  {
    set a | a in objs :: objs[a]
  }

  ghost function HandlesOf(objs: map<Address, StateObj>): set<TreeHandle>
  {
    set a | a in objs :: objs[a].tree
  }

  /** The objects that write to another tree. */
  ghost function Detached(objs: map<Address, StateObj>, tree: TreeHandle): set<Address>
  {
    set a | a in objs && objs[a].tree != tree
  }

  /** The objects hold what they held. */
  twostate predicate Untouched(objs: map<Address, StateObj>)
    reads ObjectsOf(objs)
  {
    forall o :: o in ObjectsOf(objs) ==> o.balance == old(o.balance) && o.nonce == old(o.nonce)
  }

  lemma DetachedNew(objs: map<Address, StateObj>, a: Address, o: StateObj, tree: TreeHandle)
    requires a !in objs && o.tree == tree
    ensures Detached(objs[a := o], tree) == Detached(objs, tree)
  {}

  lemma OpenIs(entries: Accounts, held: Accounts, a: Address, x: Account)
    requires a !in held && x == if a in entries then entries[a] else Account(None, 0)
    ensures entries + held[a := x] == Open(entries + held, a)
  {}

  method WriteAll(objs: map<Address, StateObj>, ghost tree: TreeHandle, ghost e: Accounts, ghost held: Accounts,
                  ghost attached: set<Address>)
    requires forall a :: a in objs ==> objs[a].address == a && a in held && held[a] == objs[a].Account()
    requires forall a :: a in objs ==> (a in attached <==> objs[a].tree == tree)
    requires tree.entries == e + Restrict(held, attached - objs.Keys)
    modifies HandlesOf(objs)`entries
    ensures tree.entries == e + Restrict(held, attached - {})
  {
    hide Restrict;
    var rest := objs.Keys;
    while rest != {}
      invariant rest <= objs.Keys && tree.entries == e + Restrict(held, attached - rest)
      decreases |rest|
    {
      var a :| a in rest;
      RestrictStep(e, held, attached, rest, a);
      objs[a].Update();
      rest := rest - {a};
    }
  }

  class State<W> {
    var tree: TreeHandle
    var objs: map<Address, StateObj>
    var world: W

    ghost predicate Valid()
      reads this`objs
    {
      forall a :: a in objs ==> objs[a].address == a
    }

    /** The accounts the objects hold. */
    function Held(): (l: Accounts)
      reads this`objs, ObjectsOf(objs)`balance, ObjectsOf(objs)`nonce
      ensures l.Keys == objs.Keys
    {
      map a | a in objs :: objs[a].Account()
    }

    /** What GetStateObj would answer for each address. */
    function View(): (l: Accounts)
      reads this`tree, this`objs, tree`entries, ObjectsOf(objs)`balance, ObjectsOf(objs)`nonce
      ensures l.Keys == tree.entries.Keys + objs.Keys
    {
      tree.entries + Held()
    }

    ghost function BooksNow(): Books
      reads this`tree, this`objs, tree`entries
    {
      Books(tree.entries, objs.Keys, Detached(objs, tree))
    }

    constructor (tree: TreeHandle, objs: map<Address, StateObj>, world: W)
      ensures this.tree == tree && this.objs == objs && this.world == world
    {
      this.tree, this.objs, this.world := tree, objs, world;
    }

    method GetOrNewStateObj(a: Address) returns (o: StateObj)
      requires Valid()
      modifies this`objs
      ensures Valid() && (a in old(objs) ==> o == old(objs)[a]) && (a !in old(objs) ==> fresh(o) && o.tree == tree)
      ensures o.address == a && objs == old(objs)[a := o] && View() == Open(old(View()), a)
      ensures BooksNow() == Load(old(BooksNow()), {a})
    {
      if a in objs {
        o := objs[a];
        assert objs[a := o] == objs && BooksNow() == Load(BooksNow(), {a});
        return;
      }
      o := LoadObject(a);
      ghost var held := Held();
      DetachedNew(objs, a, o, tree);
      objs := objs[a := o];
      assert held == old(Held()) && Held() == held[a := o.Account()];
      OpenIs(tree.entries, held, a, o.Account());
      hide Held, Open, Detached;
    }

    /** An object for an account that is not in the table. */
    method LoadObject(a: Address) returns (o: StateObj)
      ensures fresh(o) && o.tree == tree && o.address == a
      ensures o.Account() == if a in tree.entries then tree.entries[a] else Ledger.Account(None, 0)
    {
      if a in tree.entries {
        o := new StateObj(a, tree, tree.entries[a].balance, tree.entries[a].nonce);
      } else {
        o := new StateObj(a, tree, None, 0);
      }
    }

    method AddBalance(o: StateObj, v: int)
      requires Valid() && o.address in objs && objs[o.address] == o
      modifies o`balance
      ensures View() == Credit(old(View()), o.address, v)
    {
      if v > 0 {
        o.balance := Some(Amount(o.balance) + v);
      }
      assert View() == Credit(old(View()), o.address, v);
    }

    /** A balance never set stays unset. */
    method SubBalance(o: StateObj, v: int)
      requires Valid() && o.address in objs && objs[o.address] == o
      modifies o`balance
      ensures View() == Debit(old(View()), o.address, v) && o.balance.Some? == old(o.balance.Some?)
    {
      if v > 0 && o.balance.Some? {
        o.balance := Some(o.balance.value - v);
      }
      assert View() == Debit(old(View()), o.address, v);
    }

    /** Objects are only added, each new one writing to the current tree. */
    twostate predicate Grows(was: map<Address, StateObj>)
      reads this
    {
      && (forall a :: a in was ==> a in objs && objs[a] == was[a])
      && (forall a :: a in objs && a !in was ==> fresh(objs[a]) && objs[a].tree == tree)
    }

    method AddNonce(a: Address, n: nat)
      requires Valid()
      modifies this`objs, ObjectsOf(objs)`nonce
      ensures Valid() && Grows(old(objs)) && (a in old(objs) ==> objs == old(objs))
      ensures View() == Raise(old(View()), a, n) && BooksNow() == Load(old(BooksNow()), {a})
    {
      hide View, BooksNow, Load;
      var o := GetOrNewStateObj(a);
      RaiseNonce(o, n);
    }

    twostate lemma GrownObjects(was: map<Address, StateObj>)
      requires Grows(was)
      ensures forall a :: a in was ==> a in objs && objs[a] == was[a]
      ensures forall o :: o in ObjectsOf(objs) ==> fresh(o) || o in ObjectsOf(was)
      ensures forall t :: t in HandlesOf(objs) ==> t == tree || t in HandlesOf(was)
    {}

    /** Every object and handle in use is an old one or was made since. */
    twostate predicate Framed(was: map<Address, StateObj>, t0: TreeHandle)
      reads this
    {
      && (tree == t0 || fresh(tree))
      && (forall o :: o in ObjectsOf(objs) ==> fresh(o) || o in ObjectsOf(was))
      && (forall t :: t in HandlesOf(objs) ==> fresh(t) || t == t0 || t in HandlesOf(was))
    }

    /** The same table of unchanged objects over a new handle on the same entries. */
    twostate lemma Restored()
      requires objs == old(objs) && fresh(tree) && tree.entries == old(tree.entries)
      requires Untouched(objs)
      ensures View() == old(View()) && BooksNow() == Abandon(old(BooksNow()))
    {
      assert Detached(objs, tree) == objs.Keys;
    }

    method RaiseNonce(o: StateObj, n: nat)
      requires Valid() && o.address in objs && objs[o.address] == o
      modifies o`nonce
      ensures View() == Raise(old(View()), o.address, n)
    {
      o.nonce := o.nonce + n;
      assert View() == Raise(old(View()), o.address, n);
    }

    /** The loop of UpdateAll. */
    method WriteObjects()
      requires Valid()
      modifies tree`entries, HandlesOf(objs)`entries
      ensures tree.entries == old(tree.entries) + Restrict(old(Held()), objs.Keys - Detached(objs, tree))
    {
      ghost var e, held, attached := tree.entries, Held(), objs.Keys - Detached(objs, tree);
      RestrictEnds(e, held, attached, objs.Keys);
      WriteAll(objs, tree, e, held, attached);
    }

    /** Writes every object to the tree it was loaded from; what accounts hold is not affected. */
    method UpdateAll()
      requires Valid()
      modifies tree`entries, HandlesOf(objs)`entries
      ensures View() == old(View()) && BooksNow() == Written(old(BooksNow()), View(), {})
    {
      assert objs.Keys + {} == objs.Keys;
      ghost var e, held, keys := tree.entries, Held(), objs.Keys - Detached(objs, tree);
      WriteObjects();
      assert Held() == held;
      hide Held, Detached;
      MergedBack(e, held, keys, objs.Keys);
    }

    /** Copy: a new handle on the tree, the same objects. */
    method Copy() returns (c: State<W>)
      requires Valid()
      ensures fresh(c) && fresh(c.tree) && c.objs == objs && c.world == world && c.tree.entries == tree.entries
      ensures View() == old(View()) && BooksNow() == old(BooksNow()) && c.View() == View()
    {
      var t := new TreeHandle(tree.entries);
      c := new State(t, objs, world);
    }

    /** Set: back to the copy's tree and table. */
    method Set(snap: State<W>)
      modifies this`tree, this`objs
      ensures tree == snap.tree && objs == snap.objs
    {
      tree, objs := snap.tree, snap.objs;
    }
  }

  /** Writing back leaves the current tree in agreement with the accounts exactly when the accounts that write to
      another tree hold what was stored before. */
  lemma StoredExactly(b: Books, l: Accounts, loads: set<Address>)
    requires l.Keys == b.stored.Keys + b.loaded + loads && b.detached <= b.loaded + loads
    requires forall a :: a in b.stored && a !in b.loaded + loads ==> l[a] == b.stored[a]
    ensures Written(b, l, loads).stored == l <==> Kept(b, l)
  {
    var m := Written(b, l, loads).stored;
    if m == l {
      forall a | a in b.detached ensures a in b.stored && b.stored[a] == l[a] {
        assert a in l && a in m && m[a] == l[a];
      }
    }
  }

  datatype Outcome = Success(receipt: Receipt) | Failure(error: Error)

  /** The same outcome and the same environment. */
  ghost predicate Matches<W>(r: Result<W>, outcome: Outcome, env: Env<W>)
  {
    && r.env == env
    && (r.Applied? ==> outcome == Success(r.receipt)) && (r.Failed? ==> outcome == Failure(r.error))
  }

  /** transfer: the receiver's account is opened even if the funds do not suffice. */
  method Transfer<W>(st: State<W>, sender: StateObj, to: Address, amount: int) returns (ok: bool)
    requires st.Valid() && sender.address in st.objs && st.objs[sender.address] == sender && sender.balance.Some?
    modifies st`objs, ObjectsOf(st.objs)`balance
    ensures st.Valid() && st.Grows(old(st.objs)) && sender.balance.Some?
    ensures st.BooksNow() == Load(old(st.BooksNow()), {to})
    ensures var l := Open(old(st.View()), to);
            && ok == (amount <= Amount(l[sender.address].balance))
            && st.View() == if ok then Credit(Debit(l, sender.address, amount), to, amount) else l
  {
    assert sender.Account() == st.View()[sender.address];
    hide State.View, State.BooksNow, Load;
    var toObj := st.GetOrNewStateObj(to);
    ok := sender.balance.value >= amount;
    if ok {
      st.SubBalance(sender, amount);
      st.AddBalance(toObj, amount);
    }
  }

  /** Runs the contract and touches the accounts it names. */
  method RunContract<W>(st: State<W>, tx: Tx, vm: Vm<W>) returns (v: VmResult<W>)
    requires st.Valid()
    modifies st`objs, st`world, ObjectsOf(st.objs)`nonce
    ensures st.Valid() && st.Grows(old(st.objs)) && st.BooksNow() == Load(old(st.BooksNow()), Addresses(v.touched))
    ensures v == vm(old(st.world), old(st.View()), tx) && st.world == v.world
    ensures st.View() == Touch(old(st.View()), v.touched)
  {
    hide State.View, State.BooksNow, State.Valid, Touch, Load, Addresses;
    v := vm(st.world, st.View(), tx);
    st.world := v.world;
    TouchAccounts(st, v.touched);
  }

  method TouchAccounts<W>(st: State<W>, touched: seq<(Address, nat)>)
    requires st.Valid()
    modifies st`objs, ObjectsOf(st.objs)`nonce
    ensures st.Valid() && st.Grows(old(st.objs)) && st.BooksNow() == Load(old(st.BooksNow()), Addresses(touched))
    ensures st.View() == Touch(old(st.View()), touched)
    decreases touched
  {
    hide State.View, State.BooksNow, State.Valid, Raise, Load, Addresses, ObjectsOf;
    if touched == [] {
      LoadNone(st.BooksNow());
      return;
    }
    LoadOne(st.BooksNow(), touched);
    st.AddNonce(touched[0].0, touched[0].1);
    st.GrownObjects(old(st.objs));
    TouchAccounts(st, touched[1..]);
  }

  lemma LoadNone(b: Books)
    ensures Load(b, Addresses([])) == b
  {}

  lemma LoadOne(b: Books, touched: seq<(Address, nat)>)
    requires touched != []
    ensures Load(Load(b, {touched[0].0}), Addresses(touched[1..])) == Load(b, Addresses(touched))
  {
    var a := touched[0].0;
    forall x | x in {a} + Addresses(touched[1..]) ensures x in Addresses(touched) {
      if x in Addresses(touched[1..]) {
        var k :| 0 <= k < |touched[1..]| && touched[1..][k].0 == x;
        assert touched[k + 1].0 == x;
      }
    }
    forall x | x in Addresses(touched) ensures x in {a} + Addresses(touched[1..]) {
      var k :| 0 <= k < |touched| && touched[k].0 == x;
      if k > 0 { assert touched[1..][k - 1].0 == x; }
    }
    assert Addresses(touched) == {a} + Addresses(touched[1..]);
    assert (b.loaded + {a}) + Addresses(touched[1..]) == b.loaded + Addresses(touched);
  }

  /** Nonce and refund. */
  method Refund<W>(st: State<W>, sender: StateObj, amount: int)
    requires st.Valid() && sender.address in st.objs && st.objs[sender.address] == sender
    modifies st`objs, ObjectsOf(st.objs)
    ensures st.Valid() && st.objs == old(st.objs) && st.BooksNow() == old(st.BooksNow())
    ensures st.View() == Credit(Raise(old(st.View()), sender.address, 1), sender.address, amount)
  {
    hide State.View, State.BooksNow, Raise, Credit;
    st.AddNonce(sender.address, 1);
    st.AddBalance(sender, amount);
  }

  /** Nonce and refund, then the write-back of every object. */
  method Settle<W>(st: State<W>, sender: StateObj, amount: int)
    requires st.Valid() && sender.address in st.objs && st.objs[sender.address] == sender
    modifies st`objs, ObjectsOf(st.objs), st.tree`entries, HandlesOf(st.objs)`entries
    ensures st.Valid() && st.objs == old(st.objs) && st.BooksNow() == Written(old(st.BooksNow()), st.View(), {})
    ensures st.View() == Credit(Raise(old(st.View()), sender.address, 1), sender.address, amount)
  {
    hide State.View, State.BooksNow, Raise, Credit, Written;
    Refund(st, sender, amount);
    st.UpdateAll();
  }

  /** The gas pool and the running total are passed in and handed back. */
  method FinishTx<W>(st: State<W>, sender: StateObj, tx: Tx, pool: int, total: int, vm: Vm<W>)
    returns (outcome: Outcome, pool': int, total': int)
    requires st.Valid() && sender.address == tx.from && tx.from in st.objs && st.objs[tx.from] == sender
    modifies st`objs, st`world, ObjectsOf(st.objs), st.tree`entries, HandlesOf(st.objs)`entries
    ensures st.Valid() && st.Grows(old(st.objs))
    ensures Matches(Finish(vm, Env(old(st.View()), old(st.world), pool, total), tx), outcome,
                    Env(st.View(), st.world, pool', total'))
    ensures st.BooksNow() == Written(old(st.BooksNow()), st.View(),
                                     FinishLoads(vm, Env(old(st.View()), old(st.world), pool, total), tx))
  {
    hide State.View, State.BooksNow, State.Valid, State.Grows, Credit, Raise, Touch, Finish, ObjectsOf, HandlesOf,
         Written, Load, Addresses;
    ghost var e := Env(st.View(), st.world, pool, total);
    var gas := tx.limit - TX_GAS;
    var v := RunContract(st, tx, vm);
    st.GrownObjects(old(st.objs));
    Settle(st, sender, gas * tx.price);
    pool', total' := pool + gas, total + TX_GAS;
    outcome := Success(Receipt(tx.hash, tx.version, v.status, TX_GAS, v.logs));
    FinishIs(vm, e, tx, v);
    WrittenAfterLoad(old(st.BooksNow()), Addresses(v.touched), st.View(), {});
    assert Addresses(v.touched) + {} == Addresses(v.touched);
  }

  lemma FinishIs<W>(vm: Vm<W>, e: Env<W>, tx: Tx, v: VmResult<W>)
    requires tx.from in e.accounts && v == vm(e.world, e.accounts, tx)
    ensures Finish(vm, e, tx) ==
            Applied(Env(Credit(Raise(Touch(e.accounts, v.touched), tx.from, 1), tx.from, (tx.limit - TX_GAS) * tx.price),
                        v.world, e.pool + (tx.limit - TX_GAS), e.total + TX_GAS),
                    Receipt(tx.hash, tx.version, v.status, TX_GAS, v.logs))
  {}

  /** From the intrinsic cost on. */
  method ExecuteTx<W>(st: State<W>, sender: StateObj, tx: Tx, pool: int, total: int, vm: Vm<W>)
    returns (outcome: Outcome, pool': int, total': int)
    requires st.Valid() && sender.address == tx.from && tx.from in st.objs && st.objs[tx.from] == sender && sender.balance.Some?
    modifies st`objs, st`world, ObjectsOf(st.objs), st.tree`entries, HandlesOf(st.objs)`entries
    ensures st.Valid() && st.Grows(old(st.objs))
    ensures Matches(Execute(vm, Env(old(st.View()), old(st.world), pool, total), tx), outcome,
                    Env(st.View(), st.world, pool', total'))
    ensures outcome.Success? ==>
              st.BooksNow() == Written(old(st.BooksNow()), st.View(),
                                       ExecuteLoads(vm, Env(old(st.View()), old(st.world), pool, total), tx))
  {
    hide State.View, State.BooksNow, State.Valid, Credit, Debit, Finish, ObjectsOf, HandlesOf, Written, Load, FinishLoads;
    pool', total' := pool, total;
    if tx.limit < TX_GAS {
      return Failure(OutOfGas), pool, total;
    }
    if tx.to.Some? {
      var ok := Transfer(st, sender, tx.to.value, tx.value);
      st.GrownObjects(old(st.objs));
      if !ok {
        return Failure(LowFunds), pool, total;
      }
    }
    ghost var b, loads := st.BooksNow(), FinishLoads(vm, Env(st.View(), st.world, pool, total), tx);
    outcome, pool', total' := FinishTx(st, sender, tx, pool, total, vm);
    if tx.to.Some? { WrittenAfterLoad(old(st.BooksNow()), {tx.to.value}, st.View(), loads); }
  }

  /** txPreCheck and buyGas: the pool is asked before anything is debited. */
  method BuyGas<W>(st: State<W>, sender: StateObj, tx: Tx, pool: int) returns (error: Option<Error>)
    requires st.Valid() && sender.address == tx.from && tx.from in st.objs && st.objs[tx.from] == sender
    modifies sender`balance
    ensures st.Valid() && (error.Some? ==> sender.balance == old(sender.balance)) && (error.None? ==> sender.balance.Some?)
    ensures error == Refusal(old(st.View()), pool, tx)
    ensures st.View() == if error.None? then Debit(old(st.View()), tx.from, tx.price * tx.limit) else old(st.View())
  {
    assert sender.Account() == st.View()[tx.from];
    hide State.View, Debit;
    if sender.nonce != tx.nonce { return Some(BadNonce); }
    if sender.balance.None? { return Some(NilBalance); }
    if sender.balance.value < tx.price * tx.limit { return Some(LowBalance); }
    if pool < tx.limit { return Some(GasPoolOut); }
    st.SubBalance(sender, tx.price * tx.limit);
    error := None;
  }

  method PreCheck<W>(st: State<W>, tx: Tx, pool: int) returns (sender: StateObj, error: Option<Error>)
    requires st.Valid()
    modifies st`objs, ObjectsOf(st.objs)
    ensures st.Valid() && st.Grows(old(st.objs)) && (error.None? ==> sender.balance.Some?)
    ensures st.BooksNow() == Load(old(st.BooksNow()), {tx.from})
    ensures sender.address == tx.from && tx.from in st.objs && st.objs[tx.from] == sender
    ensures error.Some? ==> Untouched(old(st.objs))
    ensures var l := Open(old(st.View()), tx.from);
            && error == Refusal(l, pool, tx)
            && st.View() == if error.None? then Debit(l, tx.from, tx.price * tx.limit) else l
  {
    hide State.View, State.BooksNow, Load, Debit, Refusal;
    sender := st.GetOrNewStateObj(tx.from);
    error := BuyGas(st, sender, tx, pool);
  }

  method ApplyTransaction<W>(st: State<W>, tx: Tx, pool: int, total: int, vm: Vm<W>)
    returns (outcome: Outcome, pool': int, total': int)
    requires st.Valid()
    modifies st`objs, st`world, ObjectsOf(st.objs), st.tree`entries, HandlesOf(st.objs)`entries
    ensures st.Valid() && st.Grows(old(st.objs))
    ensures Matches(Ledger.ApplyTransaction(vm, Env(old(st.View()), old(st.world), pool, total), tx), outcome,
                    Env(st.View(), st.world, pool', total'))
    ensures outcome == Failure(GasPoolOut) ==> Untouched(old(st.objs))
    ensures outcome.Success? ==>
              st.BooksNow() == Written(old(st.BooksNow()), st.View(),
                                       Loads(vm, Env(old(st.View()), old(st.world), pool, total), tx))
  {
    hide State.View, State.BooksNow, State.Valid, Debit, Execute, ExecuteLoads, ObjectsOf, HandlesOf, Written, Load, Refusal, Untouched;
    pool', total' := pool, total;
    if !tx.valid {
      return Failure(BadSignature), pool, total;
    }
    var sender, error := PreCheck(st, tx, pool);
    if error.Some? {
      return Failure(error.value), pool, total;
    }
    st.GrownObjects(old(st.objs));
    ExecuteError(vm, Env(st.View(), st.world, pool - tx.limit, total), tx);
    ghost var loads := ExecuteLoads(vm, Env(st.View(), st.world, pool - tx.limit, total), tx);
    outcome, pool', total' := ExecuteTx(st, sender, tx, pool - tx.limit, total, vm);
    WrittenAfterLoad(old(st.BooksNow()), {tx.from}, st.View(), loads);
  }

  lemma ExecuteError<W>(vm: Vm<W>, e: Env<W>, tx: Tx)
    requires tx.from in e.accounts
    ensures Execute(vm, e, tx).Failed? ==> Execute(vm, e, tx).error != GasPoolOut
  {}

  /** A failure is the specified one; an exhausted pool leaves world, pool and total alone. */
  lemma FailedAs<W>(vm: Vm<W>, e: Env<W>, tx: Tx, outcome: Outcome, done: Env<W>)
    requires Matches(Ledger.ApplyTransaction(vm, e, tx), outcome, done) && outcome.Failure?
    ensures var r := Ledger.ApplyTransaction(vm, e, tx); r.Failed? && r.error == outcome.error
    ensures outcome.error == GasPoolOut ==> done.world == e.world && done.pool == e.pool && done.total == e.total
  {
    hide Ledger.ApplyTransaction;
    if outcome.error == GasPoolOut { ExhaustedPool(vm, e, tx); }
  }

  /** A transaction between Copy and, should it fail, Set. One that found the pool exhausted leaves no trace. */
  method TryTransaction<W>(st: State<W>, tx: Tx, pool: int, total: int, vm: Vm<W>)
    returns (outcome: Outcome, pool': int, total': int)
    requires st.Valid()
    modifies st, ObjectsOf(st.objs), st.tree`entries, HandlesOf(st.objs)`entries
    ensures st.Valid() && st.Framed(old(st.objs), old(st.tree))
    ensures var r := Ledger.ApplyTransaction(vm, Env(old(st.View()), old(st.world), pool, total), tx);
            && (outcome.Success? ==> Matches(r, outcome, Env(st.View(), st.world, pool', total')))
            && (outcome.Failure? ==> r.Failed? && r.error == outcome.error)
    ensures outcome == Failure(GasPoolOut) ==>
              Env(st.View(), st.world, pool', total') == Env(old(st.View()), old(st.world), pool, total)
    ensures outcome.Success? ==>
              st.BooksNow() == Written(old(st.BooksNow()), st.View(),
                                       Loads(vm, Env(old(st.View()), old(st.world), pool, total), tx))
    ensures outcome == Failure(GasPoolOut) ==> st.BooksNow() == Abandon(old(st.BooksNow()))
  {
    hide Ledger.ApplyTransaction, State.View, State.BooksNow, Written, Loads, Abandon, Matches;
    ghost var e := Env(st.View(), st.world, pool, total);
    var snap := st.Copy();
    outcome, pool', total' := ApplyTransaction(st, tx, pool, total, vm);
    if outcome.Failure? {
      FailedAs(vm, e, tx, outcome, Env(st.View(), st.world, pool', total'));
      st.Set(snap);
      if outcome.error == GasPoolOut { st.Restored(); }
    } else {
      st.GrownObjects(old(st.objs));
    }
  }

  datatype Validated = Accepted(gas: int, receipts: seq<Receipt>) | Refused(error: Error)

  /** ApplyTransactions: the gas pool starts at the block's limit. */
  method ApplyTransactions<W>(st: State<W>, limit: int, txs: seq<Tx>, vm: Vm<W>) returns (v: Validated)
    requires st.Valid()
    modifies st, ObjectsOf(st.objs), st.tree`entries, HandlesOf(st.objs)`entries
    ensures match Validate(vm, Env(old(st.View()), old(st.world), limit, 0), txs)
            case Rejected(error) => v == Refused(error)
            case Done(e, receipts) => v == Accepted(e.total, receipts) && st.View() == e.accounts && st.world == e.world
    ensures st.Valid() && (v.Accepted? ==> st.BooksNow().detached == old(st.BooksNow()).detached)
  {
    hide State.View, State.BooksNow, State.Valid, ObjectsOf, HandlesOf, Ledger.ApplyTransaction, Loads;
    ghost var e0 := Env(st.View(), st.world, limit, 0);
    var receipts, pool, total, i := [], limit, 0, 0;
    assert txs[0..] == txs;
    while i < |txs|
      invariant 0 <= i <= |txs| && st.Valid() && st.Framed(old(st.objs), old(st.tree))
      invariant st.BooksNow().detached == old(st.BooksNow()).detached
      invariant Validate(vm, e0, txs) == Prepend(receipts, Validate(vm, Env(st.View(), st.world, pool, total), txs[i..]))
    {
      ghost var e := Env(st.View(), st.world, pool, total);
      assert txs[i..] == [txs[i]] + txs[i + 1..];
      PrependStep(vm, receipts, e, txs[i..]);
      var outcome;
      outcome, pool, total := TryTransaction(st, txs[i], pool, total, vm);
      if outcome.Failure? {
        return Refused(outcome.error);
      }
      receipts := receipts + [outcome.receipt];
      i := i + 1;
    }
    assert txs[i..] == [] && receipts + [] == receipts;
    v := Accepted(total, receipts);
  }

  ghost function Prepend<W>(receipts: seq<Receipt>, r: BlockResult<W>): BlockResult<W>
  {
    if r.Rejected? then r else Done(r.env, receipts + r.receipts)
  }

  lemma PrependStep<W>(vm: Vm<W>, receipts: seq<Receipt>, e: Env<W>, txs: seq<Tx>)
    requires txs != []
    ensures var r := Ledger.ApplyTransaction(vm, e, txs[0]);
            Prepend(receipts, Validate(vm, e, txs)) ==
            if r.Failed? then Rejected(r.error) else Prepend(receipts + [r.receipt], Validate(vm, r.env, txs[1..]))
  {
    hide Ledger.ApplyTransaction;
    var r := Ledger.ApplyTransaction(vm, e, txs[0]);
    if r.Applied? {
      var rest := Validate(vm, r.env, txs[1..]);
      if rest.Done? { assert receipts + ([r.receipt] + rest.receipts) == (receipts + [r.receipt]) + rest.receipts; }
    }
  }

  datatype Packed = Packed(gas: int, receipts: seq<Receipt>, commit: seq<Tx>) | Abandoned(error: Error)

  /** The miner's applyTransactions. */
  method MinerApply<W>(st: State<W>, limit: int, txs: seq<Tx>, vm: Vm<W>) returns (p: Packed)
    requires st.Valid()
    modifies st, ObjectsOf(st.objs), st.tree`entries, HandlesOf(st.objs)`entries
    ensures match Mine(vm, Env(old(st.View()), old(st.world), limit, 0), txs, {})
            case Aborted(error) => p == Abandoned(error)
            case Mined(e, receipts, commit) =>
              p == Packed(e.total, receipts, commit) && st.View() == e.accounts && st.world == e.world
    ensures st.Valid() && (st.tree == old(st.tree) || fresh(st.tree))
    ensures forall o :: o in ObjectsOf(st.objs) ==> fresh(o) || o in ObjectsOf(old(st.objs))
    ensures forall t :: t in HandlesOf(st.objs) ==> fresh(t) || t == old(st.tree) || t in HandlesOf(old(st.objs))
    ensures p.Packed? ==>
              st.BooksNow() == Track(vm, Env(old(st.View()), old(st.world), limit, 0), txs, {}, old(st.BooksNow()))
  {
    hide State.View, State.BooksNow, State.Valid, ObjectsOf, HandlesOf, Ledger.ApplyTransaction, Loads, Written, Abandon,
         Mine, Track, Joined;
    ghost var e0, b0 := Env(st.View(), st.world, limit, 0), st.BooksNow();
    var receipts, commit, pool, total, i := [], [], limit, 0, 0;
    var ignored: set<Address> := {};
    assert txs[0..] == txs;
    JoinedNone(Mine(vm, e0, txs, {}));
    while i < |txs|
      invariant 0 <= i <= |txs| && st.Valid() && st.Framed(old(st.objs), old(st.tree))
      invariant Track(vm, e0, txs, {}, b0) ==
                Track(vm, Env(st.View(), st.world, pool, total), txs[i..], ignored, st.BooksNow())
      invariant Mine(vm, e0, txs, {}) ==
                Joined(receipts, commit, Mine(vm, Env(st.View(), st.world, pool, total), txs[i..], ignored))
    {
      ghost var e := Env(st.View(), st.world, pool, total);
      var tx := txs[i];
      assert txs[i..] == [tx] + txs[i + 1..];
      JoinedStep(vm, receipts, commit, e, txs[i..], ignored);
      TrackStep(vm, e, txs[i..], ignored, st.BooksNow());
      i := i + 1;
      if tx.from in ignored {
        continue;
      }
      var outcome;
      outcome, pool, total := TryTransaction(st, tx, pool, total, vm);
      if outcome.Success? {
        receipts, commit := receipts + [outcome.receipt], commit + [tx];
      } else if outcome.error == GasPoolOut {
        ignored := ignored + {tx.from};
      } else {
        return Abandoned(outcome.error);
      }
    }
    assert txs[i..] == [];
    MineNone(vm, Env(st.View(), st.world, pool, total), ignored, receipts, commit, st.BooksNow());
    p := Packed(total, receipts, commit);
  }

  lemma JoinedNone<W>(r: Mined<W>)
    ensures Joined([], [], r) == r
  {
    if r.Mined? { assert [] + r.receipts == r.receipts && [] + r.commit == r.commit; }
  }

  lemma MineNone<W>(vm: Vm<W>, e: Env<W>, ignored: set<Address>, receipts: seq<Receipt>, commit: seq<Tx>, b: Books)
    ensures Joined(receipts, commit, Mine(vm, e, [], ignored)) == Mined(e, receipts, commit)
    ensures Track(vm, e, [], ignored, b) == b
  {
    assert receipts + [] == receipts && commit + [] == commit;
  }

  ghost function Joined<W>(receipts: seq<Receipt>, commit: seq<Tx>, r: Mined<W>): Mined<W>
  {
    if r.Aborted? then r else Mined(r.env, receipts + r.receipts, commit + r.commit)
  }

  lemma TrackStep<W>(vm: Vm<W>, e: Env<W>, txs: seq<Tx>, ignored: set<Address>, b: Books)
    requires txs != []
    ensures var r := Ledger.ApplyTransaction(vm, e, txs[0]);
            Track(vm, e, txs, ignored, b) ==
            if txs[0].from in ignored then Track(vm, e, txs[1..], ignored, b)
            else if r.Applied? then Track(vm, r.env, txs[1..], ignored, Written(b, r.env.accounts, Loads(vm, e, txs[0])))
            else Track(vm, e, txs[1..], ignored + {txs[0].from}, Abandon(b))
  {
    hide Ledger.ApplyTransaction, Written, Loads, Abandon;
  }

  lemma JoinedStep<W>(vm: Vm<W>, receipts: seq<Receipt>, commit: seq<Tx>, e: Env<W>, txs: seq<Tx>, ignored: set<Address>)
    requires txs != []
    ensures var r := Ledger.ApplyTransaction(vm, e, txs[0]);
            Joined(receipts, commit, Mine(vm, e, txs, ignored)) ==
            if txs[0].from in ignored then Joined(receipts, commit, Mine(vm, e, txs[1..], ignored))
            else if r.Applied? then Joined(receipts + [r.receipt], commit + [txs[0]], Mine(vm, r.env, txs[1..], ignored))
            else if r.error == GasPoolOut then Joined(receipts, commit, Mine(vm, e, txs[1..], ignored + {txs[0].from}))
            else Aborted(r.error)
  {
    hide Ledger.ApplyTransaction;
    var r := Ledger.ApplyTransaction(vm, e, txs[0]);
    if txs[0].from !in ignored && r.Applied? {
      var rest := Mine(vm, r.env, txs[1..], ignored);
      if rest.Mined? {
        assert receipts + ([r.receipt] + rest.receipts) == (receipts + [r.receipt]) + rest.receipts;
        assert commit + ([txs[0]] + rest.commit) == (commit + [txs[0]]) + rest.commit;
      }
    }
  }

  /** The reward and the final write-back. The tree, whose root goes into the header and which is committed, then
      holds what the accounts hold exactly when the accounts that write to another tree hold what was stored. */
  method Seal<W>(st: State<W>, coinbase: Address, testNet: bool, height: nat)
    requires st.Valid()
    modifies st`objs, ObjectsOf(st.objs), st.tree`entries, HandlesOf(st.objs)`entries
    ensures st.Valid() && st.View() == Credit(Open(old(st.View()), coinbase), coinbase, BlockSubsidy(testNet, height))
    ensures st.BooksNow() == Written(old(st.BooksNow()), st.View(), {coinbase})
    ensures st.tree.entries == st.View() <==> Kept(old(st.BooksNow()), st.View())
  {
    hide State.View, State.BooksNow, State.Valid, Credit, Written, Load, Kept, Open, ObjectsOf, HandlesOf, BlockSubsidy;
    ghost var b := st.BooksNow();
    AccumulateRewards(st, coinbase, testNet, height);
    st.GrownObjects(old(st.objs));
    hide State.Grows;
    SealedBooks(st, b, coinbase);
    st.UpdateAll();
    BooksStored(st);
  }

  lemma SealedBooks<W>(st: State<W>, b: Books, c: Address)
    requires st.BooksNow() == Load(b, {c})
    ensures Written(st.BooksNow(), st.View(), {}) == Written(b, st.View(), {c})
    ensures Written(b, st.View(), {c}).stored == st.View() <==> Kept(b, st.View())
  {
    LoadedView(st, b, c);
    WrittenAfterLoad(b, {c}, st.View(), {});
    assert {c} + {} == {c};
    hide State.View, State.BooksNow, Load;
    StoredExactly(b, st.View(), {c});
  }

  method AccumulateRewards<W>(st: State<W>, coinbase: Address, testNet: bool, height: nat)
    requires st.Valid()
    modifies st`objs, ObjectsOf(st.objs)`balance
    ensures st.Valid() && st.Grows(old(st.objs)) && st.BooksNow() == Load(old(st.BooksNow()), {coinbase})
    ensures st.View() == Credit(Open(old(st.View()), coinbase), coinbase, BlockSubsidy(testNet, height))
  {
    hide State.View, State.BooksNow, Load, Credit, BlockSubsidy;
    var subsidy := BlockSubsidy(testNet, height);
    var o := st.GetOrNewStateObj(coinbase);
    st.AddBalance(o, subsidy);
  }

  lemma BooksStored<W>(st: State<W>)
    ensures st.BooksNow().stored == st.tree.entries
  {}

  lemma LoadedView<W>(st: State<W>, b: Books, c: Address)
    requires st.BooksNow() == Load(b, {c})
    ensures st.View().Keys == b.stored.Keys + b.loaded + {c} && b.detached <= b.loaded + {c}
    ensures forall a :: a in b.stored && a !in b.loaded + {c} ==> st.View()[a] == b.stored[a]
  {}

  /** mimeBlockWithParent up to the proof of work: apply, reward, write back. The root that goes into the header is
      that of the accounts exactly when every account cut off from the tree by a skipped transaction is unchanged. */
  method MineBlock<W>(st: State<W>, limit: int, txs: seq<Tx>, vm: Vm<W>, coinbase: Address,
                      testNet: bool, height: nat)
    returns (p: Packed)
    requires st.Valid()
    modifies st, ObjectsOf(st.objs), st.tree`entries, HandlesOf(st.objs)`entries
    ensures match Mine(vm, Env(old(st.View()), old(st.world), limit, 0), txs, {})
            case Aborted(error) => p == Abandoned(error)
            case Mined(e, receipts, commit) =>
              && p == Packed(e.total, receipts, commit)
              && st.View() == Credit(Open(e.accounts, coinbase), coinbase, BlockSubsidy(testNet, height))
    ensures st.Valid()
    ensures p.Packed? ==>
              var b := Track(vm, Env(old(st.View()), old(st.world), limit, 0), txs, {}, old(st.BooksNow()));
              && st.BooksNow() == Written(b, st.View(), {coinbase})
              && (st.tree.entries == st.View() <==> Kept(b, st.View()))
  {
    hide *;
    p := MinerApply(st, limit, txs, vm);
    if p.Packed? {
      Seal(st, coinbase, testNet, height);
    }
  }

  /** A transaction of `from` that pays nothing and runs no contract. */
  function Plain(from: Address, nonce: nat, limit: int): (r: Tx)
  {
    Tx([], 0, true, from, None, 0, limit, nonce, 0, [])
  }

  function LossyTxs(a: Address, b: Address, limit: int): (r: seq<Tx>)
    ensures |r| == 3
  {
    [Plain(a, 0, TX_GAS), Plain(b, 0, limit), Plain(a, 1, TX_GAS)]
  }

  function Idle<W>(w: W, l: Accounts, tx: Tx): (r: VmResult<W>)
  {
    VmResult(w, [], 1, [])
  }

  lemma PlainApplies<W>(e: Env<W>, from: Address, nonce: nat)
    requires from in e.accounts && e.accounts[from] == Account(Some(0), nonce) && e.pool >= TX_GAS
    ensures var r, tx := Ledger.ApplyTransaction(Idle, e, Plain(from, nonce, TX_GAS)), Plain(from, nonce, TX_GAS);
            && r.Applied? && r.env.accounts == e.accounts[from := Account(Some(0), nonce + 1)]
            && r.env.pool == e.pool - TX_GAS && Loads(Idle, e, tx) == {from}
  {}

  lemma PlainSkipped<W>(e: Env<W>, from: Address, limit: int)
    requires from in e.accounts && e.accounts[from] == Account(Some(0), 0) && e.pool < limit
    ensures Ledger.ApplyTransaction(Idle, e, Plain(from, 0, limit)) == Failed(e, GasPoolOut)
  {}

  lemma MineSteps<W>(e: Env<W>, e1: Env<W>, e2: Env<W>, txs: seq<Tx>)
    requires |txs| == 3 && txs[2].from != txs[1].from
    requires Ledger.ApplyTransaction(Idle, e, txs[0]).Applied? && Ledger.ApplyTransaction(Idle, e, txs[0]).env == e1
    requires Ledger.ApplyTransaction(Idle, e1, txs[1]).Failed? && Ledger.ApplyTransaction(Idle, e1, txs[1]).error == GasPoolOut
    requires Ledger.ApplyTransaction(Idle, e1, txs[2]).Applied? && Ledger.ApplyTransaction(Idle, e1, txs[2]).env == e2
    ensures var m := Mine(Idle, e, txs, {}); m.Mined? && m.env == e2 && m.commit == [txs[0], txs[2]]
  {
    hide Ledger.ApplyTransaction, Idle;
    assert txs[1..] == [txs[1], txs[2]] && txs[1..][1..] == [txs[2]] && txs[1..][1..][1..] == [];
    var m3 := Mine(Idle, e2, txs[1..][1..][1..], {} + {txs[1].from});
    var m2 := Mine(Idle, e1, txs[1..][1..], {} + {txs[1].from});
    assert m2.Mined? && m2.commit == [txs[2]] + [] == [txs[2]] && m2.env == e2;
    var m1 := Mine(Idle, e1, txs[1..], {});
    assert m1 == m2;
  }

  /** The miner applies a transaction of a, skips one of b that does not fit, and applies a second one of a. */
  lemma LossyBlock<W>(a: Address, b: Address, e: Env<W>, limit: int)
    requires a != b && e.accounts == map[a := Account(Some(0), 0), b := Account(Some(0), 0)]
    requires e.pool == limit >= 2 * TX_GAS
    ensures var txs := LossyTxs(a, b, limit);
            var m, k := Mine(Idle, e, txs, {}), Track(Idle, e, txs, {}, Books(e.accounts, {}, {}));
            && m.Mined? && m.commit == [txs[0], txs[2]] && m.env.accounts == e.accounts[a := Account(Some(0), 2)]
            && a in k.stored && k.stored[a] == Account(Some(0), 1) && k.detached == {a}
  {
    var txs := LossyTxs(a, b, limit);
    PlainApplies(e, a, 0);
    var e1 := Ledger.ApplyTransaction(Idle, e, txs[0]).env;
    PlainSkipped(e1, b, limit);
    PlainApplies(e1, a, 1);
    var e2 := Ledger.ApplyTransaction(Idle, e1, txs[2]).env;
    hide Ledger.ApplyTransaction, Plain, Idle, Loads;
    assert txs[1..] == [txs[1], txs[2]] && txs[1..][1..] == [txs[2]] && txs[1..][1..][1..] == [];
    var b0 := Books(e.accounts, {}, {});
    var b1 := Written(b0, e1.accounts, {a});
    var b2 := Written(Abandon(b1), e2.accounts, {a});
    TrackStep(Idle, e, txs, {}, b0);
    TrackStep(Idle, e1, txs[1..], {}, b1);
    TrackStep(Idle, e1, txs[1..][1..], {} + {txs[1].from}, Abandon(b1));
    MineSteps(e, e1, e2, txs);
  }

  /** The block above, mined and sealed: the second transaction of a is in the block and in the accounts, and not in
      the tree whose root the header carries. */
  method SkipLosesUpdates<W>(a: Address, b: Address, coinbase: Address, limit: int, height: nat, w: W)
    returns (st: State<W>, p: Packed)
    requires a != b && a != coinbase && limit >= 2 * TX_GAS
    ensures p.Packed? && p.commit == [LossyTxs(a, b, limit)[0], LossyTxs(a, b, limit)[2]]
    ensures st.Valid() && a in st.View() && st.View()[a] == Ledger.Account(Some(0), 2)
    ensures a in st.tree.entries && st.tree.entries[a] == Ledger.Account(Some(0), 1)
  {
    var l: Accounts := map[a := Ledger.Account(Some(0), 0), b := Ledger.Account(Some(0), 0)];
    var t := new TreeHandle(l);
    st := new State(t, map[], w);
    FreshState(st, l);
    assert ObjectsOf(st.objs) == {} && HandlesOf(st.objs) == {};
    var txs := LossyTxs(a, b, limit);
    LossyBlock(a, b, Env(l, w, limit, 0), limit);
    hide *;
    p := MineBlock(st, limit, txs, Idle, coinbase, false, height);
    ghost var k := Track(Idle, Env(l, w, limit, 0), txs, {}, Books(l, {}, {}));
    OthersKept(Mine(Idle, Env(l, w, limit, 0), txs, {}).env.accounts, coinbase, BlockSubsidy(false, height), a);
    StoredDetached(k, st.View(), {coinbase}, a);
    BooksStored(st);
  }

  lemma FreshState<W>(st: State<W>, l: Accounts)
    requires st.objs == map[] && st.tree.entries == l
    ensures st.Valid() && st.View() == l && st.BooksNow() == Books(l, {}, {})
  {
    assert st.Held() == map[];
  }

  lemma OthersKept(l: Accounts, c: Address, v: int, a: Address)
    requires a in l && a != c
    ensures a in Credit(Open(l, c), c, v) && Credit(Open(l, c), c, v)[a] == l[a]
  {}

  lemma StoredDetached(b: Books, l: Accounts, loads: set<Address>, a: Address)
    requires a in b.detached && a in b.stored
    ensures a in Written(b, l, loads).stored && Written(b, l, loads).stored[a] == b.stored[a]
  {}
}
