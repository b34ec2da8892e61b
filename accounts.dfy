/**
 * The bank account (class Cuenta): an owner fixed at opening and an
 * append-only list of movements. The balance is never stored; it is
 * recomputed from the list. Amounts are integer cents, and the moment of
 * each operation (LocalDateTime.now() inside Movimiento) is a parameter.
 */
module Accounts {
  import opened Clients
  import opened Wrappers
  import opened Movements

  /** What one movement does to the balance. */
  function Effect(m: Movement): int {
    if m.kind == Ingreso then m.amount as int else -(m.amount as int)
  }

  /** getSaldo, as a function of the movement list: the running total in
      list order, adding deposits and subtracting everything else. */
  function Balance(s: seq<Movement>): int {
    if s == [] then 0 else Balance(s[..|s| - 1]) + Effect(s[|s| - 1])
  }

  /** The sum of the amounts of the movements of one kind. */
  function Total(s: seq<Movement>, k: Kind): nat {
    if s == [] then 0
    else Total(s[..|s| - 1], k) + (if s[|s| - 1].kind == k then s[|s| - 1].amount else 0)
  }

  /** The balance is the deposits minus the withdrawals. */
  lemma {:induction false} BalanceIsDepositsMinusWithdrawals(s: seq<Movement>)
    ensures Balance(s) == Total(s, Ingreso) - Total(s, Retirada)
  {
    if s != [] {
      BalanceIsDepositsMinusWithdrawals(s[..|s| - 1]);
    }
  }

  /** With deposits only, the balance is the sum of the deposited amounts. */
  lemma {:induction false} DepositsOnlyBalance(s: seq<Movement>)
    requires forall i | 0 <= i < |s| :: s[i].kind == Ingreso
    ensures Balance(s) == Total(s, Ingreso) && Total(s, Retirada) == 0
  {
    if s != [] {
      DepositsOnlyBalance(s[..|s| - 1]);
    }
  }

  /** No prefix of the list, i.e. no point of the account's history, has a
      negative balance. */
  ghost predicate NeverOverdrawn(s: seq<Movement>) {
    forall k | 0 <= k <= |s| :: Balance(s[..k]) >= 0
  }

  lemma AppendKeepsNeverOverdrawn(s: seq<Movement>, m: Movement)
    requires NeverOverdrawn(s) && Balance(s) + Effect(m) >= 0
    ensures NeverOverdrawn(s + [m]) && Balance(s + [m]) == Balance(s) + Effect(m)
  {
    var t := s + [m];
    assert t[..|t| - 1] == s;
    forall k | 0 <= k <= |t|
      ensures Balance(t[..k]) >= 0
    {
      if k <= |s| {
        assert t[..k] == s[..k];
      } else {
        assert t[..k] == t;
      }
    }
  }

  class Account {
    /** The titular, set once by the constructor. */
    const owner: Client
    /** The ArrayList of movements, in the order they were made. */
    var movements: seq<Movement>

    /** What every operation keeps: each recorded movement has a positive
        amount, and the balance was never negative at any point. */
    ghost predicate Valid()
      reads this
    {
      && (forall i | 0 <= i < |movements| :: movements[i].amount > 0)
      && NeverOverdrawn(movements)
    }

    /** new Cuenta(titular): keeps the owner and starts with no movements. */
    constructor (owner: Client)
      ensures this.owner == owner && movements == []
      ensures Valid()
    {
      this.owner := owner;
      movements := [];
      new;
      assert movements[..0] == [];
    }

    /** getMovimientos: the movements in the order they were made. The
        result is a sequence value, so a caller cannot append to the
        account through it. */
    function Movements(): (r: seq<Movement>)
      reads this
      ensures r == movements
    {
      movements
    }

    /** getSaldo: a loop accumulating the balance over the movements. */
    method GetBalance() returns (saldo: int)
      ensures saldo == Balance(movements)
      ensures Valid() ==> saldo >= 0
    {
      saldo := 0;
      for i := 0 to |movements|
        invariant saldo == Balance(movements[..i])
      {
        assert movements[..i + 1][..i] == movements[..i];
        if movements[i].kind == Ingreso {
          saldo := saldo + movements[i].amount;
        } else {
          saldo := saldo - movements[i].amount;
        }
      }
      assert movements[..|movements|] == movements;
    }

    /** ingresar: a non-positive amount is silently ignored; otherwise one
        deposit of exactly that amount is appended at the end and the balance
        rises by it. */
    method Deposit(cantidad: int, now: DateTime)
      requires Valid()
      modifies this
      ensures Valid()
      ensures cantidad <= 0 ==> movements == old(movements)
      ensures cantidad > 0 ==> movements == old(movements) + [Movement(Ingreso, cantidad, now)]
      ensures Balance(movements) == old(Balance(movements)) + (if cantidad > 0 then cantidad else 0)
    {
      if cantidad <= 0 {
        return;
      }
      var m := NewMovement(Ingreso, cantidad, now);
      assert movements[..|movements|] == movements;
      AppendKeepsNeverOverdrawn(movements, m);
      movements := movements + [m];
    }

    /** retirar: refuses (false, nothing changes) a non-positive amount or
        one above the current balance; otherwise appends one withdrawal of
        exactly that amount, lowers the balance by it and answers true.
        Withdrawing the whole balance is allowed. */
    method Withdraw(cantidad: int, now: DateTime) returns (ok: bool)
      requires Valid()
      modifies this
      ensures Valid()
      ensures ok <==> 0 < cantidad <= old(Balance(movements))
      ensures ok ==> movements == old(movements) + [Movement(Retirada, cantidad, now)]
      ensures !ok ==> movements == old(movements)
      ensures Balance(movements) == old(Balance(movements)) - (if ok then cantidad else 0)
    {
      if cantidad <= 0 {
        return false;
      }
      var saldo := GetBalance();
      if saldo < cantidad {
        return false;
      }
      var m := NewMovement(Retirada, cantidad, now);
      AppendKeepsNeverOverdrawn(movements, m);
      movements := movements + [m];
      return true;
    }
  }

  /** An example session: open an account for Ana Pérez, deposit 100.00,
      ignore a negative deposit, withdraw 40.00, then try to withdraw 60.01
      (refused) and 60.00 (accepted, leaving the balance at 0). */
  method ExampleSession(t1: DateTime, t2: DateTime, t3: DateTime)
  {
    var ana := NewClient(Some("Ana Pérez"), Some("12345678A"), 30);
    var cuenta := new Account(ana);
    cuenta.Deposit(10000, t1);
    cuenta.Deposit(-500, t2);
    var ok := cuenta.Withdraw(4000, t2);
    assert ok;
    var saldo := cuenta.GetBalance();
    assert saldo == 6000;
    ok := cuenta.Withdraw(6001, t3);
    assert !ok;
    ok := cuenta.Withdraw(6000, t3);
    assert ok;
    saldo := cuenta.GetBalance();
    assert saldo == 0;
    assert cuenta.Movements() == [Movement(Ingreso, 10000, t1), Movement(Retirada, 4000, t2), Movement(Retirada, 6000, t3)];
  }
}
