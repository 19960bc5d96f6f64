/**
 * The part of the balances pallet the consensus pallet relies on: free balances, total issuance,
 * transfers that may reap the sender, and deposits that mint.
 */
module Ledger {
  import opened Arith
  import opened MapSums
  import opened Types

  datatype Ledger = Ledger(free: map<AccountId, nat>, issuance: nat)

  /** `dust` is the remainder below the existential deposit that a reaped sender loses. */
  datatype TransferResult = Moved(ledger: Ledger, dust: nat) | Refused

  /** No account is below the existential deposit, and the issuance is the sum of all balances. */
  ghost predicate Valid(l: Ledger, ed: nat)
  {
    (forall a :: a in l.free ==> l.free[a] >= ed) && l.issuance == Sum(l.free)
  }

  function Balance(l: Ledger, a: AccountId): nat
  {
    Get(l.free, a)
  }

  /** `deposit_creating`: mints `v`; dropped when it could not open an account or would overflow one. */
  function Deposit(l: Ledger, ed: nat, a: AccountId, v: nat): Ledger
  {
    if v == 0 || (a !in l.free && v < ed) || Balance(l, a) + v >= U128_LIMIT then l
    else Ledger(l.free[a := Balance(l, a) + v], Min(l.issuance + v, U128_LIMIT - 1))
  }

  /** `transfer`: `keepAlive` refuses to take the sender below the existential deposit. */
  function Transfer(l: Ledger, ed: nat, from: AccountId, to: AccountId, v: nat, keepAlive: bool): TransferResult
  {
    if v == 0 || from == to then Moved(l, 0)
    else if Balance(l, from) < v then Refused
    else
      var rest := Balance(l, from) - v;
      if rest < ed && keepAlive then Refused
      else if Balance(l, to) + v < ed || Balance(l, to) + v >= U128_LIMIT then Refused
      else
        var dust := if rest < ed then rest else 0;
        var debited := if rest < ed then l.free - {from} else l.free[from := rest];
        Moved(Ledger(debited[to := Balance(l, to) + v], SatSub(l.issuance, dust)), dust)
  }

  /** A deposit adds the minted amount, or nothing, to one account and to the issuance. */
  lemma DepositKeepsValid(l: Ledger, ed: nat, a: AccountId, v: nat)
    requires ed > 0 && Valid(l, ed) && l.issuance + v < U128_LIMIT
    ensures Valid(Deposit(l, ed, a, v), ed)
    ensures l.issuance <= Deposit(l, ed, a, v).issuance <= l.issuance + v
  {
    SumUpdate(l.free, a, Balance(l, a) + v);
  }

  /** A transfer only moves money, except for the dust it burns. */
  lemma TransferKeepsValid(l: Ledger, ed: nat, from: AccountId, to: AccountId, v: nat, keepAlive: bool)
    requires ed > 0 && Valid(l, ed)
    ensures match Transfer(l, ed, from, to, v, keepAlive)
            case Moved(l', dust) => Valid(l', ed) && l'.issuance + dust == l.issuance && dust < ed
            case Refused => true
  {
    hide Sum;
    if v > 0 && from != to && Balance(l, from) >= v {
      var rest := Balance(l, from) - v;
      SumRemove(l.free, from);
      SumUpdate(l.free, from, rest);
      SumUpdate(l.free - {from}, to, Balance(l, to) + v);
      SumUpdate(l.free[from := rest], to, Balance(l, to) + v);
    }
  }

  /** The sender pays the amount and the dust, the receiver gets the amount, nobody else changes. */
  lemma TransferBalances(l: Ledger, ed: nat, from: AccountId, to: AccountId, v: nat, keepAlive: bool, a: AccountId)
    requires ed > 0
    ensures match Transfer(l, ed, from, to, v, keepAlive)
            case Moved(l', dust) =>
              && (from == to ==> l' == l && dust == 0)
              && (from != to && a == from ==> Balance(l', a) + v + dust == Balance(l, a))
              && (from != to && a == to ==> Balance(l', a) == Balance(l, a) + v)
              && (a != from && a != to ==> Balance(l', a) == Balance(l, a))
              && (keepAlive ==> dust == 0)
            case Refused => true
  {}
}
