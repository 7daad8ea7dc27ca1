/** The custodied stable-value token (USDC on Soroban), seen from the
    contracts that call it. Only the balance map is modelled: `transfer`
    moves `amount` from one holder to another and aborts when the amount is
    negative or the sender holds less than it. */
module Token {
  import opened Wrappers

  /** An account or contract identity. */
  type Address = nat

  /** Token balances by holder; an absent holder has balance 0. */
  type Balances = map<Address, nat>

  /** A list of (recipient, amount) pairs paid out in order. */
  type Payments = seq<(Address, int)>

  function BalanceOf(b: Balances, a: Address): nat {
    if a in b then b[a] else 0
  }

  /** The token contract accepts a transfer iff the amount is non-negative
      and covered by the sender's balance. */
  predicate CanTransfer(b: Balances, from: Address, amount: int) {
    0 <= amount <= BalanceOf(b, from)
  }

  /** `token::Client::transfer(from, to, amount)`: debit, then credit. */
  function Transfer(b: Balances, from: Address, to: Address, amount: int): (r: Balances)
    requires CanTransfer(b, from, amount)
    ensures from != to ==> BalanceOf(r, from) == BalanceOf(b, from) - amount
    ensures from != to ==> BalanceOf(r, to) == BalanceOf(b, to) + amount
    ensures from == to ==> BalanceOf(r, from) == BalanceOf(b, from)
    ensures forall a :: a != from && a != to ==> BalanceOf(r, a) == BalanceOf(b, a)
  {
    var debited := b[from := BalanceOf(b, from) - amount];
    debited[to := BalanceOf(debited, to) + amount]
  }

  /** Sum of the amounts of a payment list. */
  function PaymentsTotal(ps: Payments): int {
    if ps == [] then 0 else ps[0].1 + PaymentsTotal(ps[1..])
  }

  /** Every payment in the list names a recipient other than `a`. */
  predicate AvoidsRecipient(ps: Payments, a: Address) {
    forall i :: 0 <= i < |ps| ==> ps[i].0 != a
  }

  /** A loop of transfers from `from`, one per payment, in list order, inside
      one contract call: `None` when any of them aborts (which aborts the
      whole call), otherwise the balances after the last one, in which
      nobody but the payer and the listed recipients has moved. */
  function TransferAll(b: Balances, from: Address, ps: Payments): (r: Option<Balances>)
    ensures ps == [] ==> r == Some(b)
    ensures r.Some? ==> forall a :: a != from && AvoidsRecipient(ps, a) ==> BalanceOf(r.value, a) == BalanceOf(b, a)
    decreases |ps|
  {
    if ps == [] then Some(b)
    else if !CanTransfer(b, from, ps[0].1) then None
    else TransferAll(Transfer(b, from, ps[0].0, ps[0].1), from, ps[1..])
  }

  /** A payment loop that completes paid only non-negative amounts. */
  lemma {:induction false} TransferAllNonNegative(b: Balances, from: Address, ps: Payments)
    requires TransferAll(b, from, ps).Some?
    ensures forall i :: 0 <= i < |ps| ==> ps[i].1 >= 0
    ensures PaymentsTotal(ps) >= 0
    decreases |ps|
  {
    if ps != [] {
      TransferAllNonNegative(Transfer(b, from, ps[0].0, ps[0].1), from, ps[1..]);
      forall i | 0 <= i < |ps| ensures ps[i].1 >= 0 {
        if i > 0 { assert ps[i] == ps[1..][i - 1]; }
      }
    }
  }

  /** When nobody in the list is the payer itself, a completed payment loop
      debits the payer by exactly the list total. */
  lemma {:induction false} TransferAllDebitsPayer(b: Balances, from: Address, ps: Payments)
    requires TransferAll(b, from, ps).Some?
    requires AvoidsRecipient(ps, from)
    ensures BalanceOf(TransferAll(b, from, ps).value, from) == BalanceOf(b, from) - PaymentsTotal(ps)
    decreases |ps|
  {
    if ps != [] {
      var b' := Transfer(b, from, ps[0].0, ps[0].1);
      assert ps[0].0 != from;
      assert AvoidsRecipient(ps[1..], from) by {
        forall i | 0 <= i < |ps[1..]| ensures ps[1..][i].0 != from {
          assert ps[1..][i] == ps[i + 1];
        }
      }
      TransferAllDebitsPayer(b', from, ps[1..]);
    }
  }
}
