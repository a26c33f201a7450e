/** The mock token: balances and supply with Solidity's checked and unchecked 256-bit arithmetic. */
module ERC20 {

  const TWO_TO_THE_256: nat := 0x1_0000000000000000_0000000000000000_0000000000000000_0000000000000000

  type Word = n: nat | n < TWO_TO_THE_256

  type Account = nat

  const ZERO_ADDRESS: Account := 0

  datatype Transferred = Transferred(from: Account, to: Account, amount: Word)

  datatype Ledger = Ledger(balances: map<Account, Word>, totalSupply: Word, events: seq<Transferred>)

  const EMPTY: Ledger := Ledger(map[], 0, [])

  /** A mapping read: a missing account reads as zero. */
  function BalanceIn(balances: map<Account, Word>, a: Account): Word {
    if a in balances then balances[a] else 0
  }

  /** Arithmetic inside `unchecked`. */
  function WrapAdd(x: Word, y: Word): Word {
    (x + y) % TWO_TO_THE_256
  }

  function WrapSub(x: Word, y: Word): Word {
    (x - y) % TWO_TO_THE_256
  }

  lemma ExactAdd(x: Word, y: Word)
    requires x + y < TWO_TO_THE_256
    ensures WrapAdd(x, y) == x + y
  {
  }

  lemma ExactSub(x: Word, y: Word)
    requires y <= x
    ensures WrapSub(x, y) == x - y
  {
  }

  // ---------- sums of balances ----------

  ghost function Sum(balances: map<Account, Word>): nat {
    if balances == map[] then 0
    else
      var a :| a in balances;
      balances[a] + Sum(balances - {a})
  }

  lemma {:induction false} SumRemove(balances: map<Account, Word>, a: Account)
    requires a in balances
    ensures Sum(balances) == balances[a] + Sum(balances - {a})
    decreases |balances|
  {
    var b :| b in balances && Sum(balances) == balances[b] + Sum(balances - {b});
    if a != b {
      SumRemove(balances - {b}, a);
      SumRemove(balances - {a}, b);
      assert balances - {a} - {b} == balances - {b} - {a};
    }
  }

  lemma SumUpdate(balances: map<Account, Word>, a: Account, v: Word)
    ensures Sum(balances[a := v]) == Sum(balances) - BalanceIn(balances, a) + v
  {
    SumRemove(balances[a := v], a);
    if a in balances {
      SumRemove(balances, a);
      assert balances[a := v] - {a} == balances - {a};
    } else {
      assert balances[a := v] - {a} == balances;
    }
  }

  lemma TwoWithinSum(balances: map<Account, Word>, a: Account, b: Account)
    ensures BalanceIn(balances, a) <= Sum(balances)
    ensures a != b ==> BalanceIn(balances, a) + BalanceIn(balances, b) <= Sum(balances)
  {
    if a in balances {
      SumRemove(balances, a);
    }
    if b in balances {
      SumRemove(balances, b);
    }
    if a in balances && b in balances && a != b {
      SumRemove(balances - {a}, b);
    }
  }

  // ---------- the event log ----------

  /** What the log says an account was paid and has paid out. */
  function PaidTo(events: seq<Transferred>, a: Account): nat {
    if events == [] then 0
    else
      var e := events[|events| - 1];
      PaidTo(events[..|events| - 1], a) + if e.to == a then e.amount else 0
  }

  function PaidFrom(events: seq<Transferred>, a: Account): nat {
    if events == [] then 0
    else
      var e := events[|events| - 1];
      PaidFrom(events[..|events| - 1], a) + if e.from == a then e.amount else 0
  }

  lemma LogOneMore(events: seq<Transferred>, e: Transferred, a: Account)
    ensures PaidTo(events + [e], a) == PaidTo(events, a) + if e.to == a then e.amount else 0
    ensures PaidFrom(events + [e], a) == PaidFrom(events, a) + if e.from == a then e.amount else 0
  {
    assert (events + [e])[..|events|] == events;
  }

  /** An account's balance is what the log paid it less what it paid; the supply is what the zero address paid net. */
  ghost predicate Logged(l: Ledger) {
    && (forall a :: a != ZERO_ADDRESS ==> BalanceIn(l.balances, a) + PaidFrom(l.events, a) == PaidTo(l.events, a))
    && l.totalSupply + PaidTo(l.events, ZERO_ADDRESS) == PaidFrom(l.events, ZERO_ADDRESS)
  }

  /** The supply is the sum of all balances, none of them the zero address's, and the log accounts for it all. */
  ghost predicate Valid(l: Ledger) {
    Sum(l.balances) == l.totalSupply && BalanceIn(l.balances, ZERO_ADDRESS) == 0 && Logged(l)
  }

  // ---------- transactions ----------

  /** What callers, or a derived contract in the case of `Burn`, can do. */
  datatype Tx =
    | Mint(account: Account, amount: Word)
    | Burn(account: Account, amount: Word)
    | Transfer(caller: Account, to: Account, amount: Word)
    | TransferFrom(caller: Account, from: Account, to: Account, amount: Word)
    | Approve(caller: Account, spender: Account, amount: Word)

  /** Whose balance goes down and whose up; minting takes from the zero address, burning gives to it. */
  function From(tx: Tx): Account {
    match tx
    case Mint(_, _) => ZERO_ADDRESS
    case Burn(account, _) => account
    case Transfer(caller, _, _) => caller
    case TransferFrom(_, from, _, _) => from
    case Approve(caller, _, _) => caller
  }

  function To(tx: Tx): Account {
    match tx
    case Mint(account, _) => account
    case Burn(_, _) => ZERO_ADDRESS
    case Transfer(_, to, _) => to
    case TransferFrom(_, _, to, _) => to
    case Approve(caller, _, _) => caller
  }

  /** When a transaction does not revert. An allowance is never asked for. */
  predicate Succeeds(l: Ledger, tx: Tx) {
    match tx
    case Mint(account, amount) => account != ZERO_ADDRESS && l.totalSupply + amount < TWO_TO_THE_256
    case Burn(account, amount) => account != ZERO_ADDRESS && BalanceIn(l.balances, account) >= amount
    case Approve(_, _, _) => true
    case _ => From(tx) != ZERO_ADDRESS && To(tx) != ZERO_ADDRESS && BalanceIn(l.balances, From(tx)) >= tx.amount
  }

  function Move(l: Ledger, from: Account, to: Account, amount: Word): Ledger {
    var taken := l.balances[from := WrapSub(BalanceIn(l.balances, from), amount)];
    Ledger(taken[to := WrapAdd(BalanceIn(taken, to), amount)], l.totalSupply,
           l.events + [Transferred(from, to, amount)])
  }

  function Apply(l: Ledger, tx: Tx): Ledger {
    if !Succeeds(l, tx) then l
    else
      match tx
      case Mint(account, amount) =>
        Ledger(l.balances[account := WrapAdd(BalanceIn(l.balances, account), amount)], l.totalSupply + amount,
               l.events + [Transferred(ZERO_ADDRESS, account, amount)])
      case Burn(account, amount) =>
        Ledger(l.balances[account := WrapSub(BalanceIn(l.balances, account), amount)], WrapSub(l.totalSupply, amount),
               l.events + [Transferred(account, ZERO_ADDRESS, amount)])
      case Approve(_, _, _) => l
      case _ => Move(l, From(tx), To(tx), tx.amount)
  }

  function Run(l: Ledger, txs: seq<Tx>): Ledger
    decreases |txs|
  {
    if txs == [] then l else Run(Apply(l, txs[0]), txs[1..])
  }

  /**
   The effect in integers, so nothing wrapped: the payer's balance falls by the amount, the payee's rises by it,
   a transfer to oneself changes nothing, and the supply moves only with the zero address.
   */
  ghost predicate Moved(l: Ledger, u: Ledger, from: Account, to: Account, amount: Word) {
    && (forall a :: a != ZERO_ADDRESS ==>
          BalanceIn(u.balances, a) + (if a == from then amount else 0) ==
          BalanceIn(l.balances, a) + (if a == to then amount else 0))
    && u.totalSupply + (if to == ZERO_ADDRESS then amount else 0) ==
       l.totalSupply + (if from == ZERO_ADDRESS then amount else 0)
    && u.events == l.events + [Transferred(from, to, amount)]
  }

  /** Neither the subtraction nor the addition of a transfer wraps, also from an account to itself. */
  lemma MoveIsExact(l: Ledger, from: Account, to: Account, amount: Word)
    requires Valid(l) && BalanceIn(l.balances, from) >= amount
    ensures var taken := l.balances[from := BalanceIn(l.balances, from) - amount];
            BalanceIn(taken, to) + amount < TWO_TO_THE_256
            && Move(l, from, to, amount).balances == taken[to := BalanceIn(taken, to) + amount]
  {
    hide WrapAdd, WrapSub, Sum, Logged;
    TwoWithinSum(l.balances, from, to);
    ExactSub(BalanceIn(l.balances, from), amount);
    var taken := l.balances[from := BalanceIn(l.balances, from) - amount];
    ExactAdd(BalanceIn(taken, to), amount);
  }

  lemma NothingWraps(l: Ledger, tx: Tx)
    requires Valid(l) && Succeeds(l, tx) && !tx.Approve?
    ensures Moved(l, Apply(l, tx), From(tx), To(tx), tx.amount)
  {
    hide WrapAdd, WrapSub, Sum, Logged;
    TwoWithinSum(l.balances, From(tx), To(tx));
    match tx
    case Mint(account, amount) => ExactAdd(BalanceIn(l.balances, account), amount);
    case Burn(account, amount) => ExactSub(BalanceIn(l.balances, account), amount); ExactSub(l.totalSupply, amount);
    case Approve(_, _, _) =>
    case _ => MoveIsExact(l, From(tx), To(tx), tx.amount);
  }

  lemma SumKept(l: Ledger, tx: Tx)
    requires Valid(l) && Succeeds(l, tx)
    ensures Sum(Apply(l, tx).balances) == Apply(l, tx).totalSupply
  {
    hide WrapAdd, WrapSub, Sum, Logged;
    TwoWithinSum(l.balances, From(tx), To(tx));
    match tx
    case Mint(account, amount) =>
      ExactAdd(BalanceIn(l.balances, account), amount);
      SumUpdate(l.balances, account, BalanceIn(l.balances, account) + amount);
    case Burn(account, amount) =>
      ExactSub(BalanceIn(l.balances, account), amount);
      ExactSub(l.totalSupply, amount);
      SumUpdate(l.balances, account, BalanceIn(l.balances, account) - amount);
    case Approve(_, _, _) =>
    case _ =>
      var from, to := From(tx), To(tx);
      MoveIsExact(l, from, to, tx.amount);
      var taken := l.balances[from := BalanceIn(l.balances, from) - tx.amount];
      SumUpdate(l.balances, from, BalanceIn(l.balances, from) - tx.amount);
      SumUpdate(taken, to, BalanceIn(taken, to) + tx.amount);
  }

  lemma LogKept(l: Ledger, tx: Tx)
    requires Valid(l) && Succeeds(l, tx) && !tx.Approve?
    ensures Logged(Apply(l, tx))
  {
    NothingWraps(l, tx);
    var e, u := Transferred(From(tx), To(tx), tx.amount), Apply(l, tx);
    forall a | a != ZERO_ADDRESS
      ensures BalanceIn(u.balances, a) + PaidFrom(u.events, a) == PaidTo(u.events, a)
    {
      LogOneMore(l.events, e, a);
    }
    LogOneMore(l.events, e, ZERO_ADDRESS);
  }

  lemma StepKeepsValid(l: Ledger, tx: Tx)
    requires Valid(l)
    ensures Valid(Apply(l, tx))
  {
    if Succeeds(l, tx) && !tx.Approve? {
      SumKept(l, tx);
      LogKept(l, tx);
    }
  }

  /** Supply conservation over every sequence of transactions, reverting ones and self-transfers included. */
  lemma {:induction false} SupplyIsConserved(l: Ledger, txs: seq<Tx>)
    requires Valid(l)
    ensures Valid(Run(l, txs))
    decreases |txs|
  {
    if txs != [] {
      StepKeepsValid(l, txs[0]);
      SupplyIsConserved(Apply(l, txs[0]), txs[1..]);
    }
  }

  /** From deployment on: supply, sum of balances and log agree, and no account holds more than the supply. */
  lemma EveryRunIsConserved(txs: seq<Tx>, a: Account)
    ensures var l := Run(EMPTY, txs);
            && Sum(l.balances) == l.totalSupply < TWO_TO_THE_256
            && BalanceIn(l.balances, ZERO_ADDRESS) == 0
            && (a != ZERO_ADDRESS ==> BalanceIn(l.balances, a) == PaidTo(l.events, a) - PaidFrom(l.events, a))
            && BalanceIn(l.balances, a) <= l.totalSupply
  {
    SupplyIsConserved(EMPTY, txs);
    TwoWithinSum(Run(EMPTY, txs).balances, a, ZERO_ADDRESS);
  }

  // ---------- the contract ----------

  class ERC20Mock {
    var balances: map<Account, Word>
    var totalSupply: Word
    var events: seq<Transferred>

    function State(): Ledger
      reads this
    {
      Ledger(balances, totalSupply, events)
    }

    constructor ()
      ensures State() == EMPTY
      ensures Valid(State())
    {
      balances, totalSupply, events := map[], 0, [];
    }

    /** `_transfer`; false is a revert. */
    method TransferBetween(from: Account, to: Account, amount: Word) returns (ok: bool)
      requires Valid(State())
      modifies this
      ensures Valid(State())
      ensures ok <==> from != ZERO_ADDRESS && to != ZERO_ADDRESS && BalanceIn(old(balances), from) >= amount
      ensures State() == Apply(old(State()), Tx.TransferFrom(from, from, to, amount))
      ensures ok ==> Moved(old(State()), State(), from, to, amount)
    {
      var tx := Tx.TransferFrom(from, from, to, amount);
      StepKeepsValid(State(), tx);
      if from == ZERO_ADDRESS || to == ZERO_ADDRESS || BalanceIn(balances, from) < amount {
        return false;
      }
      NothingWraps(State(), tx);
      balances := balances[from := WrapSub(BalanceIn(balances, from), amount)];
      balances := balances[to := WrapAdd(BalanceIn(balances, to), amount)];
      events := events + [Transferred(from, to, amount)];
      ok := true;
    }

    method Transfer(msgSender: Account, to: Account, amount: Word) returns (ok: bool)
      requires Valid(State())
      modifies this
      ensures Valid(State())
      ensures State() == Apply(old(State()), Tx.Transfer(msgSender, to, amount))
      ensures ok <==> msgSender != ZERO_ADDRESS && to != ZERO_ADDRESS && BalanceIn(old(balances), msgSender) >= amount
      ensures ok ==> Moved(old(State()), State(), msgSender, to, amount)
    {
      ok := TransferBetween(msgSender, to, amount);
    }

    /** The caller's allowance is not looked at. */
    method TransferFrom(msgSender: Account, from: Account, to: Account, amount: Word) returns (ok: bool)
      requires Valid(State())
      modifies this
      ensures Valid(State())
      ensures State() == Apply(old(State()), Tx.TransferFrom(msgSender, from, to, amount))
      ensures ok <==> from != ZERO_ADDRESS && to != ZERO_ADDRESS && BalanceIn(old(balances), from) >= amount
      ensures ok ==> Moved(old(State()), State(), from, to, amount)
    {
      ok := TransferBetween(from, to, amount);
    }

    /** The allowance is not stored. */
    method Approve(msgSender: Account, spender: Account, amount: Word) returns (ok: bool)
      requires Valid(State())
      ensures ok && Succeeds(State(), Tx.Approve(msgSender, spender, amount))
      ensures State() == Apply(State(), Tx.Approve(msgSender, spender, amount))
    {
      ok := true;
    }

    method Mint(account: Account, amount: Word) returns (ok: bool)
      requires Valid(State())
      modifies this
      ensures Valid(State())
      ensures ok <==> account != ZERO_ADDRESS && old(totalSupply) + amount < TWO_TO_THE_256
      ensures State() == Apply(old(State()), Tx.Mint(account, amount))
      ensures ok ==> Moved(old(State()), State(), ZERO_ADDRESS, account, amount)
    {
      var tx := Tx.Mint(account, amount);
      StepKeepsValid(State(), tx);
      if account == ZERO_ADDRESS || totalSupply + amount >= TWO_TO_THE_256 {
        return false;
      }
      NothingWraps(State(), tx);
      totalSupply := totalSupply + amount;
      balances := balances[account := WrapAdd(BalanceIn(balances, account), amount)];
      events := events + [Transferred(ZERO_ADDRESS, account, amount)];
      ok := true;
    }

    method Burn(account: Account, amount: Word) returns (ok: bool)
      requires Valid(State())
      modifies this
      ensures Valid(State())
      ensures ok <==> account != ZERO_ADDRESS && BalanceIn(old(balances), account) >= amount
      ensures State() == Apply(old(State()), Tx.Burn(account, amount))
      ensures ok ==> Moved(old(State()), State(), account, ZERO_ADDRESS, amount)
    {
      var tx := Tx.Burn(account, amount);
      StepKeepsValid(State(), tx);
      if account == ZERO_ADDRESS || BalanceIn(balances, account) < amount {
        return false;
      }
      NothingWraps(State(), tx);
      balances := balances[account := WrapSub(BalanceIn(balances, account), amount)];
      totalSupply := WrapSub(totalSupply, amount);
      events := events + [Transferred(account, ZERO_ADDRESS, amount)];
      ok := true;
    }
  }
}
