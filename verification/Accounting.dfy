/** What executing transactions and blocks means for each account: who pays, who is paid, and what is refused. */
module Accounting {
  import opened Options
  import opened Ledger

  ghost predicate HasBalance(l: Accounts, a: Address)
  {
    a in l && l[a].balance.Some?
  }

  /** A missing account, and one whose balance was never set, holds nothing. */
  ghost function BalanceOf(l: Accounts, a: Address): int
  {
    if HasBalance(l, a) then l[a].balance.value else 0
  }

  ghost function NonceOf(l: Accounts, a: Address): nat
  {
    if a in l then l[a].nonce else 0
  }

  /** The gas bought in advance. */
  ghost function Advance(tx: Tx): int
  {
    Positive(tx.price * tx.limit)
  }

  /** What the transfer adds to an account. */
  ghost function Transferred(tx: Tx, a: Address): int
  {
    (if tx.to == Some(a) then Positive(tx.value) else 0) - (if tx.to.Some? && a == tx.from then Positive(tx.value) else 0)
  }

  /** What an applied transaction adds to an account. */
  ghost function Net(tx: Tx, a: Address): int
  {
    Transferred(tx, a) - (if a == tx.from then TX_GAS * Positive(tx.price) else 0)
  }

  // ---- which transactions are applied ----

  ghost predicate CanPayGas<W>(e: Env<W>, tx: Tx)
  {
    HasBalance(e.accounts, tx.from) && tx.price * tx.limit <= BalanceOf(e.accounts, tx.from)
  }

  ghost predicate CanPayValue<W>(e: Env<W>, tx: Tx)
  {
    tx.to.Some? ==> tx.value <= BalanceOf(e.accounts, tx.from) - Advance(tx)
  }

  ghost predicate Acceptable<W>(e: Env<W>, tx: Tx)
  {
    && tx.valid && NonceOf(e.accounts, tx.from) == tx.nonce && CanPayGas(e, tx)
    && TX_GAS <= tx.limit <= e.pool && CanPayValue(e, tx)
  }

  /** The first test that fails names the error. */
  ghost predicate FailsWith<W>(e: Env<W>, tx: Tx, error: Error)
  {
    match error
    case BadSignature => !tx.valid
    case BadNonce => tx.valid && NonceOf(e.accounts, tx.from) != tx.nonce
    case NilBalance => tx.valid && NonceOf(e.accounts, tx.from) == tx.nonce && !HasBalance(e.accounts, tx.from)
    case LowBalance => tx.valid && NonceOf(e.accounts, tx.from) == tx.nonce && HasBalance(e.accounts, tx.from) && !CanPayGas(e, tx)
    case GasPoolOut => tx.valid && NonceOf(e.accounts, tx.from) == tx.nonce && CanPayGas(e, tx) && e.pool < tx.limit
    case OutOfGas =>
      tx.valid && NonceOf(e.accounts, tx.from) == tx.nonce && CanPayGas(e, tx) && tx.limit <= e.pool && tx.limit < TX_GAS
    case LowFunds =>
      && tx.valid && NonceOf(e.accounts, tx.from) == tx.nonce && CanPayGas(e, tx)
      && TX_GAS <= tx.limit <= e.pool && !CanPayValue(e, tx)
  }

  /** A transaction is applied exactly when signature, nonce, gas and funds are in order, and fails with the first
      that is not. */
  lemma AppliedExactly<W>(vm: Vm<W>, e: Env<W>, tx: Tx)
    ensures ApplyTransaction(vm, e, tx).Applied? <==> Acceptable(e, tx)
    ensures forall error :: ApplyTransaction(vm, e, tx).Failed? && ApplyTransaction(vm, e, tx).error == error
                            <==> FailsWith(e, tx, error)
  {
    hide Touch, Raise, Credit, Moved;
    if tx.valid { PlainRefusal(e, tx); }
    if Refusal(Open(e.accounts, tx.from), e.pool, tx).None? { PlainFunds(e, tx); }
  }

  lemma PlainRefusal<W>(e: Env<W>, tx: Tx)
    ensures var l := Open(e.accounts, tx.from);
            && l[tx.from].nonce == NonceOf(e.accounts, tx.from)
            && (l[tx.from].balance.Some? <==> HasBalance(e.accounts, tx.from))
            && (l[tx.from].balance.Some? ==> l[tx.from].balance.value == BalanceOf(e.accounts, tx.from))
  {}

  /** What the transfer finds in the sender's account. */
  lemma PlainFunds<W>(e: Env<W>, tx: Tx)
    requires CanPayGas(e, tx)
    ensures var l := Bought(e, tx).accounts;
            && Amount(l[tx.from].balance) == BalanceOf(e.accounts, tx.from) - Advance(tx)
            && (tx.to.Some? ==> Open(l, tx.to.value)[tx.from] == l[tx.from])
  {}

  // ---- each step, account by account ----

  lemma OpenKeeps(l: Accounts, a: Address, x: Address)
    ensures BalanceOf(Open(l, a), x) == BalanceOf(l, x) && NonceOf(Open(l, a), x) == NonceOf(l, x)
    ensures HasBalance(Open(l, a), x) <==> HasBalance(l, x)
  {}

  lemma CreditAdds(l: Accounts, a: Address, v: int, x: Address)
    requires a in l
    ensures BalanceOf(Credit(l, a, v), x) == BalanceOf(l, x) + if x == a then Positive(v) else 0
    ensures NonceOf(Credit(l, a, v), x) == NonceOf(l, x)
    ensures HasBalance(Credit(l, a, v), x) <==> HasBalance(l, x) || (x == a && v > 0)
  {}

  lemma DebitTakes(l: Accounts, a: Address, v: int, x: Address)
    requires HasBalance(l, a)
    ensures BalanceOf(Debit(l, a, v), x) == BalanceOf(l, x) - if x == a then Positive(v) else 0
    ensures NonceOf(Debit(l, a, v), x) == NonceOf(l, x) && (HasBalance(Debit(l, a, v), x) <==> HasBalance(l, x))
  {}

  lemma RaiseAdds(l: Accounts, a: Address, n: nat, x: Address)
    ensures NonceOf(Raise(l, a, n), x) == NonceOf(l, x) + if x == a then n else 0
    ensures BalanceOf(Raise(l, a, n), x) == BalanceOf(l, x) && (HasBalance(Raise(l, a, n), x) <==> HasBalance(l, x))
  {}

  /** By how much a contract raised an account's nonce. */
  ghost function Raised(touched: seq<(Address, nat)>, a: Address): nat
  {
    if touched == [] then 0 else (if touched[0].0 == a then touched[0].1 else 0) + Raised(touched[1..], a)
  }

  lemma {:induction false} TouchAdds(l: Accounts, touched: seq<(Address, nat)>, x: Address)
    ensures NonceOf(Touch(l, touched), x) == NonceOf(l, x) + Raised(touched, x)
    ensures BalanceOf(Touch(l, touched), x) == BalanceOf(l, x) && (HasBalance(Touch(l, touched), x) <==> HasBalance(l, x))
    decreases touched
  {
    if touched != [] {
      RaiseAdds(l, touched[0].0, touched[0].1, x);
      hide Raise, BalanceOf, NonceOf, HasBalance;
      TouchAdds(Raise(l, touched[0].0, touched[0].1), touched[1..], x);
    }
  }

  /** The accounts a contract runs on: gas bought, value moved, no nonce changed. */
  ghost function Before<W>(e: Env<W>, tx: Tx): Accounts
  {
    if tx.to.None? then Bought(e, tx).accounts else Moved(Bought(e, tx), tx, tx.to.value).accounts
  }

  lemma BeforeIs<W>(e: Env<W>, tx: Tx, x: Address)
    requires CanPayGas(e, tx)
    ensures BalanceOf(Before(e, tx), x) ==
            BalanceOf(e.accounts, x) - (if x == tx.from then Advance(tx) else 0) + Transferred(tx, x)
    ensures NonceOf(Before(e, tx), x) == NonceOf(e.accounts, x)
    ensures HasBalance(Before(e, tx), x) <==> HasBalance(e.accounts, x) || (tx.to == Some(x) && tx.value > 0)
  {
    var l := Open(e.accounts, tx.from);
    OpenKeeps(e.accounts, tx.from, x);
    OpenKeeps(e.accounts, tx.from, tx.from);
    var m := Debit(l, tx.from, tx.price * tx.limit);
    DebitTakes(l, tx.from, tx.price * tx.limit, x);
    DebitTakes(l, tx.from, tx.price * tx.limit, tx.from);
    hide HasBalance, BalanceOf, NonceOf;
    if tx.to.Some? {
      var to := tx.to.value;
      OpenKeeps(m, to, x);
      OpenKeeps(m, to, tx.from);
      DebitTakes(Open(m, to), tx.from, tx.value, x);
      CreditAdds(Debit(Open(m, to), tx.from, tx.value), to, tx.value, x);
      hide Open, Debit, Credit;
    } else {
      hide Open, Debit;
    }
  }

  /** What an applied transaction leaves, given the accounts the contract ran on. */
  ghost predicate Settled<W>(vm: Vm<W>, e: Env<W>, tx: Tx, m: Accounts, r: Result<W>)
  {
    var v := vm(e.world, m, tx);
    && r == Applied(Env(r.env.accounts, v.world, e.pool - TX_GAS, e.total + TX_GAS),
                    Receipt(tx.hash, tx.version, v.status, TX_GAS, v.logs))
    && (forall a :: NonceOf(r.env.accounts, a) == NonceOf(m, a) + Raised(v.touched, a) + if a == tx.from then 1 else 0)
    && (forall a :: BalanceOf(r.env.accounts, a) ==
                    BalanceOf(m, a) + if a == tx.from then Advance(tx) - TX_GAS * Positive(tx.price) else 0)
    && (forall a :: HasBalance(r.env.accounts, a) <==> HasBalance(m, a))
  }

  lemma FinishSettles<W>(vm: Vm<W>, e: Env<W>, d: Env<W>, tx: Tx)
    requires HasBalance(d.accounts, tx.from) && tx.limit >= TX_GAS
    requires d.world == e.world && d.pool == e.pool - tx.limit && d.total == e.total
    ensures Settled(vm, e, tx, d.accounts, Finish(vm, d, tx))
  {
    var v := vm(e.world, d.accounts, tx);
    var l := Touch(d.accounts, v.touched);
    var k := Raise(l, tx.from, 1);
    Fee(tx.price, tx.limit);
    forall a ensures var l' := Credit(k, tx.from, (tx.limit - TX_GAS) * tx.price);
                     && NonceOf(l', a) == NonceOf(d.accounts, a) + Raised(v.touched, a) + (if a == tx.from then 1 else 0)
                     && BalanceOf(l', a) == BalanceOf(d.accounts, a) +
                          (if a == tx.from then Advance(tx) - TX_GAS * Positive(tx.price) else 0)
                     && (HasBalance(l', a) <==> HasBalance(d.accounts, a))
    {
      TouchAdds(d.accounts, v.touched, a);
      RaiseAdds(l, tx.from, 1, a);
      CreditAdds(k, tx.from, (tx.limit - TX_GAS) * tx.price, a);
      hide Touch, Raise, Credit, BalanceOf, NonceOf, HasBalance, Raised;
    }
    hide Touch, Raise, Credit, BalanceOf, NonceOf, HasBalance, Raised;
  }

  /** An applied transaction, account by account: the contract runs once the gas is bought and the value has moved
      from sender to receiver; in the end each account has changed by what it was paid less what it paid, the
      sender's nonce has risen by one beyond what the contract raised, and gas has moved from the pool to the total. */
  lemma AppliedMeans<W>(vm: Vm<W>, e: Env<W>, tx: Tx) returns (m: Accounts)
    requires ApplyTransaction(vm, e, tx).Applied?
    ensures m.Keys == e.accounts.Keys + {tx.from} + if tx.to.Some? then {tx.to.value} else {}
    ensures forall a :: NonceOf(m, a) == NonceOf(e.accounts, a)
    ensures forall a :: BalanceOf(m, a) ==
                        BalanceOf(e.accounts, a) + Transferred(tx, a) - if a == tx.from then Advance(tx) else 0
    ensures Settled(vm, e, tx, m, ApplyTransaction(vm, e, tx))
    ensures forall a :: BalanceOf(ApplyTransaction(vm, e, tx).env.accounts, a) == BalanceOf(e.accounts, a) + Net(tx, a)
    ensures forall a :: HasBalance(ApplyTransaction(vm, e, tx).env.accounts, a)
                        <==> HasBalance(e.accounts, a) || (tx.to == Some(a) && tx.value > 0)
  {
    AppliedExactly(vm, e, tx);
    m := Before(e, tx);
    var d := Bought(e, tx).(accounts := m);
    AppliedFinishes(vm, e, tx);
    forall a ensures BalanceOf(m, a) == BalanceOf(e.accounts, a) - (if a == tx.from then Advance(tx) else 0) + Transferred(tx, a)
             ensures NonceOf(m, a) == NonceOf(e.accounts, a)
             ensures HasBalance(m, a) <==> HasBalance(e.accounts, a) || (tx.to == Some(a) && tx.value > 0)
    {
      BeforeIs(e, tx, a);
    }
    FinishSettles(vm, e, d, tx);
    hide ApplyTransaction, Finish, BalanceOf, HasBalance, NonceOf, Raised;
  }

  lemma AppliedFinishes<W>(vm: Vm<W>, e: Env<W>, tx: Tx)
    requires ApplyTransaction(vm, e, tx).Applied?
    ensures ApplyTransaction(vm, e, tx) == Finish(vm, Bought(e, tx).(accounts := Before(e, tx)), tx)
    ensures Before(e, tx).Keys == e.accounts.Keys + {tx.from} + if tx.to.Some? then {tx.to.value} else {}
  {
    hide Finish;
  }

  /** What a failed transaction leaves behind: no nonce has changed, and its sender has paid for the gas in advance
      exactly when the failure came after the purchase. */
  lemma FailedMeans<W>(vm: Vm<W>, e: Env<W>, tx: Tx, a: Address)
    requires ApplyTransaction(vm, e, tx).Failed?
    ensures var r := ApplyTransaction(vm, e, tx);
            var bought := r.error == OutOfGas || r.error == LowFunds;
            && NonceOf(r.env.accounts, a) == NonceOf(e.accounts, a)
            && BalanceOf(r.env.accounts, a) == BalanceOf(e.accounts, a) - (if bought && a == tx.from then Advance(tx) else 0)
            && r.env.world == e.world && r.env.total == e.total && r.env.pool == e.pool - if bought then tx.limit else 0
  {
    AppliedExactly(vm, e, tx);
    hide Finish, Moved;
    var l := Open(e.accounts, tx.from);
    OpenKeeps(e.accounts, tx.from, a);
    OpenKeeps(e.accounts, tx.from, tx.from);
    if CanPayGas(e, tx) {
      DebitTakes(l, tx.from, tx.price * tx.limit, a);
      if tx.to.Some? { OpenKeeps(Debit(l, tx.from, tx.price * tx.limit), tx.to.value, a); }
    }
    hide BalanceOf, NonceOf, HasBalance, Debit, Open;
  }

  // ---- blocks ----

  ghost predicate Steps<W>(vm: Vm<W>, txs: seq<Tx>, envs: seq<Env<W>>)
  {
    && 0 < |envs| <= |txs| + 1
    && forall i :: 0 <= i < |envs| - 1 ==>
         Acceptable(envs[i], txs[i]) && ApplyTransaction(vm, envs[i], txs[i]).Applied?
         && ApplyTransaction(vm, envs[i], txs[i]).env == envs[i + 1]
  }

  /** A block is validated one transaction after the other, each on what the one before left. It is accepted when all
      of them are, with one receipt for each in order, and rejected with the error of the first that is not. */
  lemma {:induction false} ValidateSteps<W>(vm: Vm<W>, e: Env<W>, txs: seq<Tx>) returns (envs: seq<Env<W>>)
    ensures Steps(vm, txs, envs) && envs[0] == e
    ensures match Validate(vm, e, txs)
            case Done(d, receipts) =>
              && |envs| == |txs| + 1 && envs[|txs|] == d && |receipts| == |txs|
              && forall i :: 0 <= i < |txs| ==> receipts[i] == ApplyTransaction(vm, envs[i], txs[i]).receipt
            case Rejected(error) => |envs| <= |txs| && FailsWith(envs[|envs| - 1], txs[|envs| - 1], error)
    decreases txs
  {
    envs := [e];
    if txs != [] {
      AppliedExactly(vm, e, txs[0]);
      var r := ApplyTransaction(vm, e, txs[0]);
      hide ApplyTransaction, FailsWith, Acceptable;
      if r.Applied? {
        var rest := ValidateSteps(vm, r.env, txs[1..]);
        StepsFrom(vm, e, txs, rest);
        envs := [e] + rest;
        if Validate(vm, e, txs).Done? {
          var receipts := Validate(vm, e, txs).receipts;
          forall i | 0 <= i < |txs| ensures receipts[i] == ApplyTransaction(vm, envs[i], txs[i]).receipt {
            if i > 0 { assert receipts[i] == Validate(vm, r.env, txs[1..]).receipts[i - 1]; }
          }
        }
      }
    }
  }

  lemma StepsFrom<W>(vm: Vm<W>, e: Env<W>, txs: seq<Tx>, rest: seq<Env<W>>)
    requires txs != [] && Acceptable(e, txs[0]) && ApplyTransaction(vm, e, txs[0]).Applied?
    requires Steps(vm, txs[1..], rest) && rest[0] == ApplyTransaction(vm, e, txs[0]).env
    ensures Steps(vm, txs, [e] + rest)
  {
    hide ApplyTransaction, Acceptable;
    var envs := [e] + rest;
    forall i | 0 <= i < |envs| - 1
      ensures Acceptable(envs[i], txs[i]) && ApplyTransaction(vm, envs[i], txs[i]).Applied?
      ensures ApplyTransaction(vm, envs[i], txs[i]).env == envs[i + 1]
    {
      if i > 0 { assert envs[i] == rest[i - 1] && txs[i] == txs[1..][i - 1] && envs[i + 1] == rest[i]; }
    }
  }

  ghost function NetAll(txs: seq<Tx>, a: Address): int
  {
    if txs == [] then 0 else Net(txs[0], a) + NetAll(txs[1..], a)
  }

  /** Over a block each account changes by what it was paid less what it paid. */
  lemma {:induction false} BlockPays<W>(vm: Vm<W>, e: Env<W>, txs: seq<Tx>, a: Address)
    requires Validate(vm, e, txs).Done?
    ensures BalanceOf(Validate(vm, e, txs).env.accounts, a) == BalanceOf(e.accounts, a) + NetAll(txs, a)
    decreases txs
  {
    if txs != [] {
      var m := AppliedMeans(vm, e, txs[0]);
      hide ApplyTransaction, BalanceOf, Net;
      BlockPays(vm, ApplyTransaction(vm, e, txs[0]).env, txs[1..], a);
    }
  }

  /** What a run of blocks adds to an account: the payments, and the subsidies of the blocks it mined. */
  ghost function RunNet(base: nat, bs: seq<Block>, a: Address): int
  {
    if bs == [] then 0
    else NetAll(bs[0].txs, a) + (if bs[0].coinbase == a then Subsidy(base, bs[0].height) else 0) + RunNet(base, bs[1..], a)
  }

  lemma {:induction false} RunPays<W>(vm: Vm<W>, base: nat, l: Accounts, w: W, bs: seq<Block>, a: Address)
    requires RunBlocks(vm, base, l, w, bs).Some?
    ensures BalanceOf(RunBlocks(vm, base, l, w, bs).value.0, a) == BalanceOf(l, a) + RunNet(base, bs, a)
    decreases bs
  {
    hide Validate, Subsidy, Credit, Open, BalanceOf, NetAll;
    if bs != [] {
      var b, e := bs[0], Validate(vm, Env(l, w, bs[0].limit, 0), bs[0].txs).env;
      BlockPays(vm, Env(l, w, b.limit, 0), b.txs, a);
      OpenKeeps(e.accounts, b.coinbase, a);
      CreditAdds(Open(e.accounts, b.coinbase), b.coinbase, Subsidy(base, b.height), a);
      var (l', w') := RunBlock(vm, base, l, w, b).value;
      RunPays(vm, base, l', w', bs[1..], a);
    }
  }

  // ---- the miner's choice ----

  ghost function Chosen(txs: seq<Tx>, taken: seq<bool>): seq<Tx>
    requires |taken| == |txs|
  {
    if txs == [] then [] else (if taken[0] then [txs[0]] else []) + Chosen(txs[1..], taken[1..])
  }

  ghost function Count(taken: seq<bool>): nat
  {
    if taken == [] then 0 else (if taken[0] then 1 else 0) + Count(taken[1..])
  }

  /** The gas limit of transaction j fits what the ones taken before it have left. */
  ghost predicate FitsPool(pool: int, txs: seq<Tx>, taken: seq<bool>, j: nat)
    requires j < |txs| == |taken|
  {
    txs[j].limit <= pool - TX_GAS * Count(taken[..j])
  }

  /** Neither it nor an earlier transaction of its sender failed to fit. */
  ghost predicate Eligible(pool: int, txs: seq<Tx>, ignored: set<Address>, taken: seq<bool>, i: nat)
    requires i < |txs| == |taken|
  {
    txs[i].from !in ignored && forall j :: 0 <= j <= i && txs[j].from == txs[i].from ==> FitsPool(pool, txs, taken, j)
  }

  lemma FitsShift(pool: int, txs: seq<Tx>, taken: seq<bool>, j: nat)
    requires 0 < j < |txs| == |taken|
    ensures FitsPool(pool, txs, taken, j)
            <==> FitsPool(pool - (if taken[0] then TX_GAS else 0), txs[1..], taken[1..], j - 1)
  {
    assert taken[..j][1..] == taken[1..][..j - 1];
  }

  lemma EligibleShift(pool: int, txs: seq<Tx>, ignored: set<Address>, taken: seq<bool>, i: nat)
    requires 0 < i < |txs| == |taken|
    ensures var pool' := pool - (if taken[0] then TX_GAS else 0);
            Eligible(pool, txs, ignored, taken, i) <==>
            && Eligible(pool', txs[1..], ignored, taken[1..], i - 1)
            && (txs[0].from == txs[i].from ==> txs[0].limit <= pool)
  {
    var pool' := pool - (if taken[0] then TX_GAS else 0);
    assert FitsPool(pool, txs, taken, 0) <==> txs[0].limit <= pool by { assert taken[..0] == []; }
    forall j | 0 < j <= i ensures FitsPool(pool, txs, taken, j) <==> FitsPool(pool', txs[1..], taken[1..], j - 1) {
      FitsShift(pool, txs, taken, j);
    }
    hide FitsPool;
    if Eligible(pool', txs[1..], ignored, taken[1..], i - 1) && (txs[0].from == txs[i].from ==> txs[0].limit <= pool) {
      forall j | 0 <= j <= i && txs[j].from == txs[i].from ensures FitsPool(pool, txs, taken, j) {
        if j > 0 { assert FitsPool(pool', txs[1..], taken[1..], j - 1); }
      }
    }
    if Eligible(pool, txs, ignored, taken, i) {
      forall j | 0 <= j <= i - 1 && txs[1..][j].from == txs[1..][i - 1].from
        ensures FitsPool(pool', txs[1..], taken[1..], j)
      {
        assert FitsPool(pool, txs, taken, j + 1);
      }
    }
  }

  /** The miner commits, in order, exactly the transactions for which neither they nor an earlier one of the same
      sender asked for more gas than the ones committed before had left. */
  lemma {:induction false} MineSelects<W>(vm: Vm<W>, e: Env<W>, txs: seq<Tx>, ignored: set<Address>) returns (taken: seq<bool>)
    requires Mine(vm, e, txs, ignored).Mined?
    ensures |taken| == |txs| && Mine(vm, e, txs, ignored).commit == Chosen(txs, taken)
    ensures forall i :: 0 <= i < |txs| ==> (taken[i] <==> Eligible(e.pool, txs, ignored, taken, i))
    decreases txs
  {
    taken := [];
    if txs != [] {
      var tx, r := txs[0], ApplyTransaction(vm, e, txs[0]);
      AppliedExactly(vm, e, tx);
      if r.Applied? { var m := AppliedMeans(vm, e, tx); }
      hide ApplyTransaction, Eligible;
      var first, rest := tx.from !in ignored && r.Applied?, [];
      var skipped := if tx.from !in ignored && r.Failed? then ignored + {tx.from} else ignored;
      rest := MineSelects(vm, if first then r.env else e, txs[1..], skipped);
      taken := [first] + rest;
      assert taken[1..] == rest;
      EligibleFirst(e.pool, txs, ignored, taken);
      forall i | 0 < i < |txs| ensures taken[i] <==> Eligible(e.pool, txs, ignored, taken, i) {
        EligibleShift(e.pool, txs, ignored, taken, i);
        EligibleWithout(if first then r.env.pool else e.pool, txs[1..], ignored, rest, i - 1, tx.from);
        assert taken[i] == rest[i - 1];
      }
    }
  }

  lemma EligibleFirst(pool: int, txs: seq<Tx>, ignored: set<Address>, taken: seq<bool>)
    requires 0 < |txs| == |taken|
    ensures Eligible(pool, txs, ignored, taken, 0) <==> txs[0].from !in ignored && txs[0].limit <= pool
  {
    assert FitsPool(pool, txs, taken, 0) <==> txs[0].limit <= pool by { assert taken[..0] == []; }
  }

  lemma EligibleWithout(pool: int, txs: seq<Tx>, ignored: set<Address>, taken: seq<bool>, i: nat, a: Address)
    requires i < |txs| == |taken|
    ensures Eligible(pool, txs, ignored + {a}, taken, i) <==> Eligible(pool, txs, ignored, taken, i) && txs[i].from != a
    ensures txs[i].from in ignored ==> !Eligible(pool, txs, ignored, taken, i)
  {}

  /** The miner gives up only at a transaction that fails for another reason than the pool. */
  lemma {:induction false} MineAborts<W>(vm: Vm<W>, e: Env<W>, txs: seq<Tx>, ignored: set<Address>) returns (k: nat)
    requires Mine(vm, e, txs, ignored).Aborted?
    ensures k < |txs| && Mine(vm, e, txs[..k], ignored).Mined? && txs[k].from !in ignored
    ensures var error := Mine(vm, e, txs, ignored).error;
            error != GasPoolOut && FailsWith(Mine(vm, e, txs[..k], ignored).env, txs[k], error)
    decreases txs
  {
    var tx, r := txs[0], ApplyTransaction(vm, e, txs[0]);
    AppliedExactly(vm, e, tx);
    hide ApplyTransaction, FailsWith, Acceptable;
    k := 0;
    if tx.from in ignored {
      k := MineAborts(vm, e, txs[1..], ignored);
      assert txs[..k + 1][1..] == txs[1..][..k];
      k := k + 1;
    } else if r.Failed? {
      if r.error == GasPoolOut {
        k := MineAborts(vm, e, txs[1..], ignored + {tx.from});
        assert txs[..k + 1][1..] == txs[1..][..k];
        k := k + 1;
      }
    } else {
      k := MineAborts(vm, r.env, txs[1..], ignored);
      assert txs[..k + 1][1..] == txs[1..][..k];
      k := k + 1;
    }
  }
}
