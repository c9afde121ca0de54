/** Rebalancing decisions shared by the runner classes: the gate on the last
    rebalanced block in every `update_strategy`, and the choice between minting
    and burning tokens so that the backtester holds the desired amount. */
module Strategy {
  import opened Errors

  /** What `update_strategy` does at a block: record it on the first call,
      hold until the rebalance period has passed, or rebalance. */
  datatype Gate = RecordFirst | Hold | Rebalance

  /** The gate on `_block_rebalance_last`. A last block of 0 means no block
      has been recorded yet. */
  function RebalanceGate(last: nat, number: nat, period: int): (g: Gate)
    ensures g == RecordFirst <==> last == 0
    ensures g == Hold <==> 0 < last && number < last + period
    ensures g == Rebalance <==> 0 < last && last + period <= number
  {
    if last == 0 then RecordFirst
    else if number < last + period then Hold
    else Rebalance
  }

  /** The last rebalanced block after the gate: set on the first call and on a
      rebalance, kept while holding. */
  function LastAfterGate(last: nat, number: nat, period: int): nat
  {
    if RebalanceGate(last, number, period) == Hold then last else number
  }

  /** Once a block is recorded, the gate keeps holding until the period has
      passed since it: two rebalances are at least a period apart. */
  lemma RebalancesArePeriodApart(last: nat, n1: nat, n2: nat, period: int)
    requires RebalanceGate(last, n1, period) != Hold && n1 > 0
    requires RebalanceGate(LastAfterGate(last, n1, period), n2, period) == Rebalance
    ensures n2 >= n1 + period
  {
  }

  /** A token transfer the backtester multicall performs. */
  datatype TokenAction = Mint(amount: int) | Burn(amount: int)

  /** The backtester's balance after the action. */
  function BalanceAfter(balance: int, action: TokenAction): int
  {
    match action
    case Mint(amount) => balance + amount
    case Burn(amount) => balance - amount
  }

  /** Mint the shortfall when the desired amount exceeds the balance, else burn
      the excess (a difference of 0 burns 0). */
  function MintOrBurn(desired: int, balance: int): (action: TokenAction)
    ensures action.Mint? <==> desired > balance
    ensures action.Mint? ==> action.amount > 0
    ensures action.amount >= 0
    ensures BalanceAfter(balance, action) == desired
    ensures desired >= 0 && action.Burn? ==> action.amount <= balance
  {
    var delta := desired - balance;
    if delta > 0 then Mint(delta) else Burn(-delta)
  }

  /** The result of one `update_strategy` call. */
  datatype StepResult =
    | Recorded
    | Held
    | Rebalanced(action0: TokenAction, action1: TokenAction)
    | Failed(error: PyError)
}
