/** Transaction execution of block_chain.go and miner/miner.go on account contents. */
module Ledger {
  import opened Bytes
  import opened Options
  import opened Arithmetic

  type Address = seq<byte>
  type Hash = seq<byte>

  const TX_GAS: int := 25000

  /** An account that never received anything has no balance set. */
  datatype Account = Account(balance: Option<int>, nonce: nat)

  type Accounts = map<Address, Account>

  /** A transaction; `valid` says whether its signature verifies, and `from` is the address it recovers to. */
  datatype Tx = Tx(hash: Hash, version: nat, valid: bool, from: Address, to: Option<Address>,
                   price: int, limit: int, nonce: nat, value: int, data: seq<byte>)

  datatype Receipt = Receipt(txHash: Hash, version: nat, status: nat, gasUsed: int, logs: seq<Hash>)

  /** What running a contract does: it may open accounts and raise their nonces, and changes storage and code
      (`world`), but never a balance. */
  datatype VmResult<W> = VmResult(world: W, touched: seq<(Address, nat)>, status: nat, logs: seq<Hash>)
  type Vm<!W> = (W, Accounts, Tx) -> VmResult<W>

  /** NilBalance stands for the nil dereference of a balance never set; the others are error returns. */
  datatype Error = BadSignature | BadNonce | NilBalance | LowBalance | GasPoolOut | OutOfGas | LowFunds

  /** Accounts and contract storage, the gas left in the block, and the gas used so far. */
  datatype Env<W> = Env(accounts: Accounts, world: W, pool: int, total: int)

  /** A failed transaction also leaves an environment behind: what its steps had changed before it failed. */
  datatype Result<W> = Applied(env: Env<W>, receipt: Receipt) | Failed(env: Env<W>, error: Error)

  function Open(l: Accounts, a: Address): (r: Accounts)
    ensures a in r
  {
    if a in l then l else l[a := Account(None, 0)]
  }

  function Amount(b: Option<int>): (r: int)
  {
    if b.None? then 0 else b.value
  }

  /** AddBalance: amounts that are not positive are ignored. */
  function Credit(l: Accounts, a: Address, v: int): (r: Accounts)
    requires a in l
    ensures r.Keys == l.Keys
  {
    if v <= 0 then l else l[a := l[a].(balance := Some(Amount(l[a].balance) + v))]
  }

  /** SubBalance: a balance never set stays unset. */
  function Debit(l: Accounts, a: Address, v: int): (r: Accounts)
    requires a in l
    ensures r.Keys == l.Keys
  {
    if v <= 0 || l[a].balance.None? then l else l[a := l[a].(balance := Some(Amount(l[a].balance) - v))]
  }

  /** AddNonce. */
  function Raise(l: Accounts, a: Address, n: nat): (r: Accounts)
    ensures r.Keys == l.Keys + {a}
  {
    var m := Open(l, a);
    m[a := m[a].(nonce := m[a].nonce + n)]
  }

  function Touch(l: Accounts, touched: seq<(Address, nat)>): (r: Accounts)
    ensures l.Keys <= r.Keys
    decreases touched
  {
    if touched == [] then l else Touch(Raise(l, touched[0].0, touched[0].1), touched[1..])
  }

  /** The accounts with sender and receiver open and the value moved. */
  function Moved<W>(e: Env<W>, tx: Tx, to: Address): (r: Env<W>)
    requires tx.from in e.accounts
    ensures tx.from in r.accounts
  {
    e.(accounts := Credit(Debit(Open(e.accounts, to), tx.from, tx.value), to, tx.value))
  }

  /** From the purchase of gas on: intrinsic cost, transfer, contract, nonce and refund. */
  function Execute<W>(vm: Vm<W>, e: Env<W>, tx: Tx): (r: Result<W>)
    requires tx.from in e.accounts
  {
    if tx.limit < TX_GAS then Failed(e, OutOfGas)
    else
      match tx.to
      case None => Finish(vm, e, tx)
      case Some(to) =>
        var l := Open(e.accounts, to);
        if Amount(l[tx.from].balance) < tx.value then Failed(e.(accounts := l), LowFunds)
        else Finish(vm, Moved(e, tx, to), tx)
  }

  function Finish<W>(vm: Vm<W>, e: Env<W>, tx: Tx): (r: Result<W>)
    requires tx.from in e.accounts
  {
    var v := vm(e.world, e.accounts, tx);
    var l := Raise(Touch(e.accounts, v.touched), tx.from, 1);
    var gas := tx.limit - TX_GAS;
    Applied(Env(Credit(l, tx.from, gas * tx.price), v.world, e.pool + gas, e.total + TX_GAS),
            Receipt(tx.hash, tx.version, v.status, TX_GAS, v.logs))
  }

  /** The environment once the gas is paid for and taken from the pool. */
  function Bought<W>(e: Env<W>, tx: Tx): (r: Env<W>)
    ensures tx.from in r.accounts
  {
    e.(accounts := Debit(Open(e.accounts, tx.from), tx.from, tx.price * tx.limit), pool := e.pool - tx.limit)
  }

  /** txPreCheck and buyGas: nonce, balance and gas pool, in this order. */
  function Refusal(l: Accounts, pool: int, tx: Tx): (r: Option<Error>)
    requires tx.from in l
  {
    if l[tx.from].nonce != tx.nonce then Some(BadNonce)
    else if l[tx.from].balance.None? then Some(NilBalance)
    else if l[tx.from].balance.value < tx.price * tx.limit then Some(LowBalance)
    else if pool < tx.limit then Some(GasPoolOut)
    else None
  }

  function ApplyTransaction<W>(vm: Vm<W>, e: Env<W>, tx: Tx): (r: Result<W>)
  {
    if !tx.valid then Failed(e, BadSignature)
    else
      var l := Open(e.accounts, tx.from);
      match Refusal(l, e.pool, tx)
      case Some(error) => Failed(e.(accounts := l), error)
      case None => Execute(vm, Bought(e, tx), tx)
  }

  /** A transaction that found the gas pool exhausted has opened its sender's account and done nothing else. */
  lemma ExhaustedPool<W>(vm: Vm<W>, e: Env<W>, tx: Tx)
    requires ApplyTransaction(vm, e, tx).Failed? && ApplyTransaction(vm, e, tx).error == GasPoolOut
    ensures ApplyTransaction(vm, e, tx).env == e.(accounts := Open(e.accounts, tx.from))
  {}

  lemma GasKept<W>(vm: Vm<W>, e: Env<W>, tx: Tx)
    requires ApplyTransaction(vm, e, tx).Applied?
    ensures var e' := ApplyTransaction(vm, e, tx).env; e'.pool + e'.total == e.pool + e.total && e'.total == e.total + TX_GAS
  {}

  // ---- coins ----

  /** All balances together. */
  ghost function Coins(l: Accounts): int
    decreases |l|
  {
    if l == map[] then 0
    else
      var a :| a in l;
      Amount(l[a].balance) + Coins(l - {a})
  }

  lemma {:induction false} CoinsWithout(l: Accounts, a: Address)
    requires a in l
    ensures Coins(l) == Amount(l[a].balance) + Coins(l - {a})
    decreases |l|
  {
    assert l != map[];
    var b :| b in l && Coins(l) == Amount(l[b].balance) + Coins(l - {b});
    if a != b {
      CoinsWithout(l - {b}, a);
      assert l - {b} - {a} == l - {a} - {b};
      CoinsWithout(l - {a}, b);
    }
  }

  lemma CoinsUpdate(l: Accounts, a: Address, x: Account)
    ensures Coins(l[a := x]) == Coins(l) + Amount(x.balance) - (if a in l then Amount(l[a].balance) else 0)
  {
    CoinsWithout(l[a := x], a);
    if a in l {
      CoinsWithout(l, a);
      assert l[a := x] - {a} == l - {a};
    } else {
      assert l[a := x] - {a} == l;
    }
  }

  lemma CoinsOpen(l: Accounts, a: Address)
    ensures Coins(Open(l, a)) == Coins(l)
  {
    if a !in l { CoinsUpdate(l, a, Account(None, 0)); }
  }

  lemma CoinsCredit(l: Accounts, a: Address, v: int)
    requires a in l
    ensures Coins(Credit(l, a, v)) == Coins(l) + if v > 0 then v else 0
  {
    hide Coins;
    if v > 0 { CoinsUpdate(l, a, l[a].(balance := Some(Amount(l[a].balance) + v))); }
  }

  lemma CoinsDebit(l: Accounts, a: Address, v: int)
    requires a in l && (v > 0 ==> l[a].balance.Some?)
    ensures Coins(Debit(l, a, v)) == Coins(l) - if v > 0 then v else 0
  {
    hide Coins;
    if v > 0 { CoinsUpdate(l, a, l[a].(balance := Some(Amount(l[a].balance) - v))); }
  }

  lemma CoinsRaise(l: Accounts, a: Address, n: nat)
    ensures Coins(Raise(l, a, n)) == Coins(l)
  {
    hide Coins;
    var m := Open(l, a);
    CoinsOpen(l, a);
    CoinsUpdate(m, a, m[a].(nonce := m[a].nonce + n));
  }

  lemma {:induction false} CoinsTouch(l: Accounts, touched: seq<(Address, nat)>)
    ensures Coins(Touch(l, touched)) == Coins(l)
    decreases touched
  {
    hide Coins, Raise;
    if touched != [] {
      CoinsRaise(l, touched[0].0, touched[0].1);
      CoinsTouch(Raise(l, touched[0].0, touched[0].1), touched[1..]);
    }
  }

  function Positive(v: int): (r: int) { if v > 0 then v else 0 }

  lemma CoinsTransfer(l: Accounts, a: Address, b: Address, v: int)
    requires a in l && b in l && (v > 0 ==> l[a].balance.Some?)
    ensures Coins(Credit(Debit(l, a, v), b, v)) == Coins(l)
  {
    hide Coins, Credit, Debit;
    CoinsDebit(l, a, v);
    CoinsCredit(Debit(l, a, v), b, v);
  }

  lemma CoinsFinish<W>(vm: Vm<W>, e: Env<W>, tx: Tx)
    requires tx.from in e.accounts
    ensures Coins(Finish(vm, e, tx).env.accounts) == Coins(e.accounts) + Positive((tx.limit - TX_GAS) * tx.price)
  {
    hide Coins, Raise, Touch;
    var v := vm(e.world, e.accounts, tx);
    var l := Touch(e.accounts, v.touched);
    CoinsTouch(e.accounts, v.touched);
    CoinsRaise(l, tx.from, 1);
    CoinsCredit(Raise(l, tx.from, 1), tx.from, (tx.limit - TX_GAS) * tx.price);
  }

  lemma CoinsExecute<W>(vm: Vm<W>, e: Env<W>, tx: Tx)
    requires tx.from in e.accounts && Execute(vm, e, tx).Applied?
    ensures tx.limit >= TX_GAS
    ensures Coins(Execute(vm, e, tx).env.accounts) == Coins(e.accounts) + Positive((tx.limit - TX_GAS) * tx.price)
  {
    hide Coins, Finish, Credit, Debit;
    if tx.to.None? {
      CoinsFinish(vm, e, tx);
    } else {
      var l := Open(e.accounts, tx.to.value);
      CoinsOpen(e.accounts, tx.to.value);
      CoinsTransfer(l, tx.from, tx.to.value, tx.value);
      CoinsFinish(vm, Moved(e, tx, tx.to.value), tx);
    }
  }

  lemma Fee(price: int, limit: int)
    requires limit >= TX_GAS
    ensures Positive(price * limit) - Positive((limit - TX_GAS) * price) == TX_GAS * Positive(price)
  {
    assert (limit - TX_GAS) * price == price * limit - TX_GAS * price;
    if price > 0 {
      assert price * limit > 0 && (limit - TX_GAS) * price >= 0;
    } else {
      assert price * limit <= 0 && (limit - TX_GAS) * price <= 0;
    }
  }

  /** An applied transaction destroys exactly the gas it used, at its price, and moves everything else. */
  lemma CoinsApply<W>(vm: Vm<W>, e: Env<W>, tx: Tx)
    requires ApplyTransaction(vm, e, tx).Applied?
    ensures Coins(ApplyTransaction(vm, e, tx).env.accounts) == Coins(e.accounts) - TX_GAS * Positive(tx.price)
  {
    var l, cost := Open(e.accounts, tx.from), tx.price * tx.limit;
    hide Coins, Execute, Debit;
    CoinsOpen(e.accounts, tx.from);
    CoinsDebit(l, tx.from, cost);
    CoinsExecute(vm, Bought(e, tx), tx);
    Fee(tx.price, tx.limit);
  }

  // ---- no account is overdrawn ----

  ghost predicate Solvent(l: Accounts)
  {
    forall a :: a in l ==> Amount(l[a].balance) >= 0
  }

  lemma {:induction false} SolventTouch(l: Accounts, touched: seq<(Address, nat)>)
    requires Solvent(l)
    ensures Solvent(Touch(l, touched))
    decreases touched
  {
    if touched != [] { SolventTouch(Raise(l, touched[0].0, touched[0].1), touched[1..]); }
  }

  lemma SolventFinish<W>(vm: Vm<W>, e: Env<W>, tx: Tx)
    requires tx.from in e.accounts && Solvent(e.accounts)
    ensures Solvent(Finish(vm, e, tx).env.accounts)
  {
    SolventTouch(e.accounts, vm(e.world, e.accounts, tx).touched);
    hide Touch;
  }

  lemma SolventDebit(l: Accounts, a: Address, v: int)
    requires a in l && Solvent(l) && v <= Amount(l[a].balance)
    ensures Solvent(Debit(l, a, v))
  {}

  lemma SolventCredit(l: Accounts, a: Address, v: int)
    requires a in l && Solvent(l)
    ensures Solvent(Credit(l, a, v))
  {}

  lemma SolventExecute<W>(vm: Vm<W>, e: Env<W>, tx: Tx)
    requires tx.from in e.accounts && Solvent(e.accounts)
    ensures Solvent(Execute(vm, e, tx).env.accounts)
  {
    if tx.limit >= TX_GAS {
      if tx.to.None? {
        SolventFinish(vm, e, tx);
      } else {
        var l := Open(e.accounts, tx.to.value);
        assert Solvent(l);
        if tx.value <= Amount(l[tx.from].balance) {
          SolventDebit(l, tx.from, tx.value);
          SolventCredit(Debit(l, tx.from, tx.value), tx.to.value, tx.value);
          hide Finish, Solvent, Credit, Debit;
          SolventFinish(vm, Moved(e, tx, tx.to.value), tx);
        }
      }
    }
  }

  /** Whether or not it succeeds, a transaction overdraws nobody. */
  lemma SolventApply<W>(vm: Vm<W>, e: Env<W>, tx: Tx)
    requires Solvent(e.accounts)
    ensures Solvent(ApplyTransaction(vm, e, tx).env.accounts)
  {
    var l, cost := Open(e.accounts, tx.from), tx.price * tx.limit;
    assert Solvent(l);
    hide Execute, Solvent;
    if cost <= Amount(l[tx.from].balance) {
      SolventDebit(l, tx.from, cost);
      SolventExecute(vm, Bought(e, tx), tx);
    }
  }

  // ---- blocks: the validator and the miner ----

  datatype BlockResult<W> = Done(env: Env<W>, receipts: seq<Receipt>) | Rejected(error: Error)

  /** ApplyTransactions: the first failure rejects the block. */
  function Validate<W>(vm: Vm<W>, e: Env<W>, txs: seq<Tx>): (r: BlockResult<W>)
    decreases txs
  {
    if txs == [] then Done(e, [])
    else
      match ApplyTransaction(vm, e, txs[0])
      case Failed(_, err) => Rejected(err)
      case Applied(e1, receipt) =>
        match Validate(vm, e1, txs[1..])
        case Rejected(err) => Rejected(err)
        case Done(e2, receipts) => Done(e2, [receipt] + receipts)
  }

  datatype Mined<W> = Mined(env: Env<W>, receipts: seq<Receipt>, commit: seq<Tx>) | Aborted(error: Error)

  /** The miner's applyTransactions: a sender whose transaction does not fit the pool is skipped from then on. */
  function Mine<W>(vm: Vm<W>, e: Env<W>, txs: seq<Tx>, ignored: set<Address>): (r: Mined<W>)
    decreases txs
  {
    if txs == [] then Mined(e, [], [])
    else if txs[0].from in ignored then Mine(vm, e, txs[1..], ignored)
    else
      match ApplyTransaction(vm, e, txs[0])
      case Failed(_, err) =>
        if err == GasPoolOut then Mine(vm, e, txs[1..], ignored + {txs[0].from}) else Aborted(err)
      case Applied(e1, receipt) =>
        match Mine(vm, e1, txs[1..], ignored)
        case Aborted(err) => Aborted(err)
        case Mined(e2, receipts, commit) => Mined(e2, [receipt] + receipts, [txs[0]] + commit)
  }

  /** What the miner commits, replayed by a validator from the same accounts, gives the same receipts, gas and accounts. */
  lemma {:induction false} ReplayAgrees<W>(vm: Vm<W>, e: Env<W>, txs: seq<Tx>, ignored: set<Address>)
    requires Mine(vm, e, txs, ignored).Mined?
    ensures var m := Mine(vm, e, txs, ignored); Validate(vm, e, m.commit) == Done(m.env, m.receipts)
    decreases txs
  {
    hide ApplyTransaction;
    if txs != [] {
      if txs[0].from in ignored {
        ReplayAgrees(vm, e, txs[1..], ignored);
      } else {
        var r := ApplyTransaction(vm, e, txs[0]);
        if r.Failed? {
          ReplayAgrees(vm, e, txs[1..], ignored + {txs[0].from});
        } else {
          ReplayAgrees(vm, r.env, txs[1..], ignored);
          var commit := Mine(vm, e, txs, ignored).commit;
          assert commit[1..] == Mine(vm, r.env, txs[1..], ignored).commit;
        }
      }
    }
  }

  // ---- what the miner leaves in the tree ----

  ghost function Restrict(l: Accounts, keys: set<Address>): Accounts
  {
    map a | a in l && a in keys :: l[a]
  }

  ghost function Addresses(touched: seq<(Address, nat)>): set<Address>
  {
    set i | 0 <= i < |touched| :: touched[i].0
  }

  /** The accounts that an applied transaction loads. */
  ghost function Loads<W>(vm: Vm<W>, e: Env<W>, tx: Tx): set<Address>
  {
    {tx.from} + ExecuteLoads(vm, Bought(e, tx), tx)
  }

  ghost function ExecuteLoads<W>(vm: Vm<W>, e: Env<W>, tx: Tx): set<Address>
    requires tx.from in e.accounts
  {
    if tx.to.None? then FinishLoads(vm, e, tx) else {tx.to.value} + FinishLoads(vm, Moved(e, tx, tx.to.value), tx)
  }

  ghost function FinishLoads<W>(vm: Vm<W>, e: Env<W>, tx: Tx): set<Address>
  {
    Addresses(vm(e.world, e.accounts, tx).touched)
  }

  /** What the current tree stores, which accounts are loaded, and which of those write to an older tree. */
  datatype Books = Books(stored: Accounts, loaded: set<Address>, detached: set<Address>)

  ghost function Load(b: Books, loads: set<Address>): Books
  {
    b.(loaded := b.loaded + loads)
  }

  lemma WrittenAfterLoad(b: Books, x: set<Address>, l: Accounts, y: set<Address>)
    ensures Written(Load(b, x), l, y) == Written(b, l, x + y) && Load(Load(b, x), y) == Load(b, x + y)
  {
    assert (b.loaded + x) + y == b.loaded + (x + y);
  }

  /** After an applied transaction every loaded account has been written to its tree. */
  ghost function Written(b: Books, l: Accounts, loads: set<Address>): Books
  {
    var loaded := b.loaded + loads;
    Books(b.stored + Restrict(l, loaded - b.detached), loaded, b.detached)
  }

  /** After a transaction that did not fit, the tree is a copy that no loaded account writes to. */
  ghost function Abandon(b: Books): Books
  {
    b.(detached := b.loaded)
  }

  /** Every account that writes to an older tree holds what the current one stores. */
  ghost predicate Kept(b: Books, l: Accounts)
  {
    forall a :: a in b.detached ==> a in l && a in b.stored && b.stored[a] == l[a]
  }

  /** The books over the miner's loop. */
  ghost function Track<W>(vm: Vm<W>, e: Env<W>, txs: seq<Tx>, ignored: set<Address>, b: Books): Books
    decreases txs
  {
    if txs == [] then b
    else if txs[0].from in ignored then Track(vm, e, txs[1..], ignored, b)
    else
      match ApplyTransaction(vm, e, txs[0])
      case Failed(_, err) => Track(vm, e, txs[1..], ignored + {txs[0].from}, Abandon(b))
      case Applied(e1, _) => Track(vm, e1, txs[1..], ignored, Written(b, e1.accounts, Loads(vm, e, txs[0])))
  }

  function Fees(txs: seq<Tx>): (r: int)
  {
    if txs == [] then 0 else TX_GAS * Positive(txs[0].price) + Fees(txs[1..])
  }

  /** Over a block: gas left plus gas used stays the limit, every transaction costs its gas, and coins fall by the fees. */
  lemma {:induction false} BlockBalances<W>(vm: Vm<W>, e: Env<W>, txs: seq<Tx>)
    requires Validate(vm, e, txs).Done?
    ensures var r := Validate(vm, e, txs);
            && r.env.pool + r.env.total == e.pool + e.total && r.env.total == e.total + TX_GAS * |txs|
            && |r.receipts| == |txs| && Coins(r.env.accounts) == Coins(e.accounts) - Fees(txs)
    decreases txs
  {
    hide Coins;
    if txs != [] {
      GasKept(vm, e, txs[0]);
      CoinsApply(vm, e, txs[0]);
      hide ApplyTransaction;
      BlockBalances(vm, ApplyTransaction(vm, e, txs[0]).env, txs[1..]);
    }
  }

  // ---- rewards ----

  /** The reward after k halvings. */
  function Level(base: nat, k: nat): (r: nat)
  {
    DivNonNeg(base, Pow2(k));
    base / Pow2(k)
  }

  /** The main net's reward: the base shifted right by one bit every 480 blocks. */
  function Subsidy(base: nat, height: nat): (r: nat)
  {
    Level(base, height / 480)
  }

  const BASE_SUBSIDY: nat := 93755722410000000000
  const TEST_SUBSIDY: nat := 14000000000000000000

  /** calcBlockSubsidy. */
  function BlockSubsidy(testNet: bool, height: nat): (r: nat)
  {
    if testNet then TEST_SUBSIDY else Subsidy(BASE_SUBSIDY, height)
  }

  /** The subsidies of all heights below n. */
  function Subsidies(base: nat, n: nat): (r: nat)
  {
    if n == 0 then 0 else Subsidies(base, n - 1) + Subsidy(base, n - 1)
  }

  lemma HalfQuotient(base: nat, p: nat)
    requires p > 0
    ensures 2 * (base / (2 * p)) <= base / p
  {
    var q, d := base / (2 * p), base / p;
    assert q * (2 * p) <= base < (d + 1) * p;
    assert (2 * q) * p == q * (2 * p);
    if 2 * q > d { MulMono(d + 1, 2 * q, p); }
  }

  lemma HalfLevel(base: nat, k: nat)
    requires k > 0
    ensures 2 * Level(base, k) <= Level(base, k - 1)
  {
    HalfQuotient(base, Pow2(k - 1));
  }

  /** The reward starts at the base, is the same for all 480 heights of a period, and is halved from each period to
      the next, rounding down. */
  lemma SubsidyHalves(base: nat, height: nat)
    ensures height < 480 ==> Subsidy(base, height) == base
    ensures forall h :: 480 * (height / 480) <= h < 480 * (height / 480) + 480 ==> Subsidy(base, h) == Subsidy(base, height)
    ensures Subsidy(base, height + 480) == Subsidy(base, height) / 2
  {
    var k := height / 480;
    assert (height + 480) / 480 == k + 1;
    assert height < 480 ==> k == 0;
    forall h | 480 * k <= h < 480 * k + 480 ensures Subsidy(base, h) == Subsidy(base, height) {
      assert h / 480 == k;
    }
    assert Level(base, 0) == base;
    LevelHalves(base, k);
    hide Level;
  }

  lemma LevelHalves(base: nat, k: nat)
    ensures Level(base, k + 1) == Level(base, k) / 2
  {
    assert Pow2(k + 1) == Pow2(k) * 2;
    ModOfProduct(base, Pow2(k), 2);
  }

  /** A whole period mints 480 times its reward; so far from its start, as many times as blocks. */
  lemma {:induction false} PeriodSum(base: nat, k: nat, n: nat)
    requires n <= 480
    ensures Subsidies(base, 480 * k + n) == Subsidies(base, 480 * k) + n * Subsidy(base, 480 * k)
  {
    if n > 0 {
      PeriodSum(base, k, n - 1);
      assert (480 * k + n - 1) / 480 == k == (480 * k) / 480;
      hide Level;
      OneMore(n - 1, Subsidy(base, 480 * k));
    }
  }

  /** The rest of the present halving period, and as much as one more at its level. */
  function Due(base: nat, n: nat): (r: int)
  {
    (480 - n % 480) * Level(base, n / 480) + 480 * Level(base, n / 480)
  }

  lemma OneMore(c: int, q: int)
    ensures (c + 1) * q == c * q + q
  {}

  lemma DueStep(base: nat, m: nat)
    ensures Due(base, m + 1) + Level(base, m / 480) <= Due(base, m)
    ensures Level(base, (m + 1) / 480) == 0 ==> Due(base, m + 1) == 0
    ensures Level(base, m / 480) > 0 ==> Due(base, m) > Level(base, m / 480)
  {
    var n := m + 1;
    HalfNext(base, m);
    hide Level;
    var q := Level(base, m / 480);
    OneMore(479 - m % 480, q);
    if n % 480 == 0 {
      assert n / 480 == m / 480 + 1 && m % 480 == 479;
    } else {
      assert n / 480 == m / 480 && 480 - n % 480 == 479 - m % 480;
    }
    MulMono(0, 479 - m % 480, q);
  }

  lemma HalfNext(base: nat, m: nat)
    ensures (m + 1) % 480 == 0 ==> 2 * Level(base, m / 480 + 1) <= Level(base, m / 480)
  {
    if (m + 1) % 480 == 0 { HalfLevel(base, m / 480 + 1); }
  }

  lemma {:induction false} SubsidyPeriods(base: nat, n: nat)
    requires base > 0
    ensures Subsidies(base, n) < 960 * base && Subsidies(base, n) + Due(base, n) <= 960 * base
  {
    if n == 0 {
      assert Level(base, 0) == base;
    } else {
      SubsidyPeriods(base, n - 1);
      DueStep(base, n - 1);
      hide Level, Due;
    }
  }

  /** A block: its height, its miner, its transactions and its gas limit. */
  datatype Block = Block(height: nat, coinbase: Address, limit: int, txs: seq<Tx>)

  /** Accounts and contract storage after a block, if it is accepted. */
  function RunBlock<W>(vm: Vm<W>, base: nat, l: Accounts, w: W, b: Block): (r: Option<(Accounts, W)>)
  {
    match Validate(vm, Env(l, w, b.limit, 0), b.txs)
    case Rejected(_) => None
    case Done(e, _) => Some((Credit(Open(e.accounts, b.coinbase), b.coinbase, Subsidy(base, b.height)), e.world))
  }

  function RunBlocks<W>(vm: Vm<W>, base: nat, l: Accounts, w: W, bs: seq<Block>): (r: Option<(Accounts, W)>)
    decreases bs
  {
    if bs == [] then Some((l, w))
    else
      match RunBlock(vm, base, l, w, bs[0])
      case None => None
      case Some((l', w')) => RunBlocks(vm, base, l', w', bs[1..])
  }

  function Minted(base: nat, bs: seq<Block>): (r: int)
  {
    if bs == [] then 0 else Subsidy(base, bs[0].height) + Minted(base, bs[1..])
  }

  function Burnt(bs: seq<Block>): (r: int)
  {
    if bs == [] then 0 else Fees(bs[0].txs) + Burnt(bs[1..])
  }

  /** Over any run of blocks the coins in existence are those at the start, plus the subsidies, less the gas paid for. */
  lemma {:induction false} Supply<W>(vm: Vm<W>, base: nat, l: Accounts, w: W, bs: seq<Block>)
    requires RunBlocks(vm, base, l, w, bs).Some?
    ensures Coins(RunBlocks(vm, base, l, w, bs).value.0) == Coins(l) + Minted(base, bs) - Burnt(bs)
    decreases bs
  {
    hide Coins, Validate, Subsidy, Fees, Credit;
    if bs != [] {
      var b, e := bs[0], Validate(vm, Env(l, w, bs[0].limit, 0), bs[0].txs).env;
      BlockBalances(vm, Env(l, w, b.limit, 0), b.txs);
      CoinsOpen(e.accounts, b.coinbase);
      CoinsCredit(Open(e.accounts, b.coinbase), b.coinbase, Subsidy(base, b.height));
      var (l', w') := RunBlock(vm, base, l, w, b).value;
      Supply(vm, base, l', w', bs[1..]);
    }
  }

  lemma {:induction false} MintedHeights(base: nat, bs: seq<Block>, from: nat)
    requires forall i :: 0 <= i < |bs| ==> bs[i].height == from + i
    ensures Minted(base, bs) == Subsidies(base, from + |bs|) - Subsidies(base, from)
    decreases bs
  {
    hide Subsidy;
    if bs != [] {
      MintedHeights(base, bs[1..], from + 1);
      assert Subsidies(base, from + 1) == Subsidies(base, from) + Subsidy(base, from);
    }
  }

  /** One block at each height, whatever is mined: the coins minted stay below 960 times the base subsidy. */
  lemma MintedBound(base: nat, bs: seq<Block>, from: nat)
    requires base > 0 && forall i :: 0 <= i < |bs| ==> bs[i].height == from + i
    ensures Minted(base, bs) == Subsidies(base, from + |bs|) - Subsidies(base, from) < 960 * base
  {
    MintedHeights(base, bs, from);
    SubsidyPeriods(base, from + |bs|);
    hide *;
  }
}
