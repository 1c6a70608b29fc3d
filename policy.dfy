/**
 * The fee schedule and the limits of the service, and the balance checks that
 * the send-money and cash-out handlers run before touching any account.
 * Money is an exact rational (`real`).
 */
module Policy {
  import opened Results

  /** Smallest principal accepted by send-money and cash-out. */
  const MinAmount: real := 50.0
  /** A send of more than this pays the flat fee. */
  const SendFeeThreshold: real := 100.0
  const SendFlatFee: real := 5.0
  /** Cash-out fee rate: 1.5% of the principal. */
  const CashOutRate: real := 0.015
  /** Working capital an agent starts with. */
  const AgentStartBalance: real := 10000.0
  const AgentRole: string := "agent"
  const AdminRole: string := "admin"

  /** Fee charged on a send: the flat fee strictly above the threshold, nothing otherwise. */
  function SendFee(amount: real): (fee: real)
    ensures fee == 0.0 || fee == SendFlatFee
    ensures fee > 0.0 <==> amount > SendFeeThreshold
  {
    if amount > SendFeeThreshold then SendFlatFee else 0.0
  }

  /** Fee charged on a cash-out, proportional to the principal. */
  function CashOutFee(amount: real): (fee: real)
    ensures fee * 1000.0 == amount * 15.0
    ensures amount > 0.0 ==> 0.0 < fee < amount
  {
    amount * CashOutRate
  }

  /** Balance a newly registered account starts with. */
  function InitialBalance(role: string): (b: real)
    ensures b >= 0.0
    ensures b > 0.0 <==> role == AgentRole
    ensures role == AgentRole ==> b == AgentStartBalance && b == 10000.0
    ensures role != AgentRole ==> b == 0.0
  {
    if role == AgentRole then AgentStartBalance else 0.0
  }

  /**
   * The checks of send-money once the recipient is known, in the handler's order:
   * principal against balance, then the minimum, then (only when a fee applies)
   * principal plus fee against balance. On success yields the fee.
   */
  function SendCheck(balance: real, amount: real): (r: Result<real>)
    ensures r.Ok? <==> amount >= MinAmount && balance >= amount + SendFee(amount)
    ensures r.Ok? ==> r.value == SendFee(amount) && balance - (amount + r.value) >= 0.0
    ensures r == Err(InsufficientBalance) <==> balance < amount
    ensures r == Err(BelowMinimum) <==> amount <= balance && amount < MinAmount
    ensures r == Err(InsufficientForFee) <==>
              MinAmount <= amount <= balance < amount + SendFee(amount)
  {
    if balance < amount then Err(InsufficientBalance)
    else if amount < MinAmount then Err(BelowMinimum)
    else if amount > SendFeeThreshold then
      (if balance < amount + SendFlatFee then Err(InsufficientForFee) else Ok(SendFlatFee))
    else Ok(0.0)
  }

  /**
   * The checks of cash-out once the agent is known, in the handler's order:
   * principal against balance, the minimum, principal plus the 1.5% fee
   * against balance. On success yields the fee.
   */
  function CashOutCheck(balance: real, amount: real): (r: Result<real>)
    ensures r.Ok? <==> amount >= MinAmount && balance >= amount + CashOutFee(amount)
    ensures r.Ok? ==> r.value == CashOutFee(amount) && r.value > 0.0
                      && balance - (amount + r.value) >= 0.0
    ensures r == Err(InsufficientBalance) <==> balance < amount
    ensures r == Err(BelowMinimum) <==> amount <= balance && amount < MinAmount
    ensures r == Err(InsufficientForFee) <==>
              MinAmount <= amount <= balance < amount + CashOutFee(amount)
  {
    if balance < amount then Err(InsufficientBalance)
    else if amount < MinAmount then Err(BelowMinimum)
    else
      var fee := CashOutFee(amount);
      if balance < amount + fee then Err(InsufficientForFee) else Ok(fee)
  }
}
