/**
 * The ledger as a state machine over the account table, the transaction log
 * and the clock. Each handler of the service is one step function here: it
 * either refuses, leaving the state as it was, or performs its fixed sequence
 * of writes. These functions specify the imperative handlers in module
 * Handlers; the lemmas below state what the steps promise.
 */
module Ledger {
  import opened Results
  import opened Policy
  import opened Accounts
  import opened Transactions

  datatype State = State(accounts: seq<Account>, log: seq<Transaction>, clock: nat)

  /** What a writing handler answers, and the state it leaves. */
  datatype Step = Step(outcome: Outcome, state: State)

  /** The claims a login token carries. */
  datatype Claims = Claims(id: nat, role: string)

  const ApproveAction: string := "approve"
  const RejectAction: string := "reject"

  /**
   * The invariant every reachable state keeps: contacts are unique, log dates
   * strictly increase and precede the clock, and every record names existing accounts.
   */
  predicate Valid(st: State)
  {
    && ContactsUnique(st.accounts)
    && DatesIncreasing(st.log)
    && (forall k :: 0 <= k < |st.log| ==> st.log[k].date < st.clock)
    && (forall k :: 0 <= k < |st.log| ==>
          st.log[k].senderId < |st.accounts| && st.log[k].recipientId < |st.accounts|)
  }

  predicate NonNegative(accounts: seq<Account>)
  {
    forall i :: 0 <= i < |accounts| ==> accounts[i].balance >= 0.0
  }

  function InitialState(): (st: State)
    ensures Valid(st) && NonNegative(st.accounts)
  {
    State([], [], 0)
  }

  /**
   * The writes of a completed movement. Both records are read before either
   * write; the debited record is written with its balance less `amount + fee`,
   * then the credited record with its balance plus `amount`, each computed from
   * the copy read before the writes. One record is logged at the current clock.
   */
  function Settle(st: State, debitedId: nat, creditedId: nat, amount: real, fee: real, kind: Kind): (r: State)
    requires debitedId < |st.accounts| && creditedId < |st.accounts|
    ensures |r.accounts| == |st.accounts| && SameContacts(st.accounts, r.accounts)
    ensures r.accounts[creditedId].balance == st.accounts[creditedId].balance + amount
    ensures debitedId != creditedId ==>
              r.accounts[debitedId].balance == st.accounts[debitedId].balance - (amount + fee)
    ensures forall i :: 0 <= i < |st.accounts| ==>
              r.accounts[i] == st.accounts[i].(balance := r.accounts[i].balance)
    ensures forall i :: 0 <= i < |st.accounts| && i != debitedId && i != creditedId ==>
              r.accounts[i] == st.accounts[i]
    ensures r.log == st.log + [Transaction(debitedId, creditedId, amount, fee, kind, st.clock)]
    ensures r.clock == st.clock + 1
  {
    var debited := st.accounts[debitedId];
    var credited := st.accounts[creditedId];
    var afterDebit := st.accounts[debitedId := debited.(balance := debited.balance - (amount + fee))];
    var afterCredit := afterDebit[creditedId := credited.(balance := credited.balance + amount)];
    State(afterCredit,
          st.log + [Transaction(debitedId, creditedId, amount, fee, kind, st.clock)],
          st.clock + 1)
  }

  predicate AnyFieldMissing(name: string, pin: string, mobile: string, email: string, role: string)
  {
    name == [] || pin == [] || mobile == [] || email == [] || role == []
  }

  /** Registration: all fields required, contacts not yet taken; the new account is pending. */
  function Register(st: State, name: string, pin: string, mobile: string, email: string, role: string): (r: Step)
    ensures r.outcome == Refused(MissingFields) <==> AnyFieldMissing(name, pin, mobile, email, role)
    ensures r.outcome == Refused(AlreadyExists) <==>
              !AnyFieldMissing(name, pin, mobile, email, role) &&
              exists i :: 0 <= i < |st.accounts| && MatchesContact(st.accounts[i], mobile, email)
    ensures r.outcome == Done <==>
              !AnyFieldMissing(name, pin, mobile, email, role) &&
              forall i :: 0 <= i < |st.accounts| ==> !MatchesContact(st.accounts[i], mobile, email)
    ensures r.outcome.Refused? ==> r.state == st
    ensures r.outcome == Done ==>
              && r.state.log == st.log && r.state.clock == st.clock
              && |r.state.accounts| == |st.accounts| + 1
              && r.state.accounts[..|st.accounts|] == st.accounts
              && r.state.accounts[|st.accounts|] ==
                   Account(name, pin, mobile, email, role, Pending, InitialBalance(role))
  {
    if AnyFieldMissing(name, pin, mobile, email, role) then Step(Refused(MissingFields), st)
    else if FindByContact(st.accounts, mobile, email).Some? then Step(Refused(AlreadyExists), st)
    else
      var account := Account(name, pin, mobile, email, role, Pending, InitialBalance(role));
      Step(Done, st.(accounts := st.accounts + [account]))
  }

  /**
   * Login: the first account matching the mobile number or the email, its PIN,
   * then its status. Only an approved account receives a token.
   */
  function Login(st: State, mobile: string, email: string, pin: string): (r: Result<Claims>)
    ensures r == Err(UserNotFound) <==>
              forall i :: 0 <= i < |st.accounts| ==> !MatchesContact(st.accounts[i], mobile, email)
    ensures var found := FindByContact(st.accounts, mobile, email);
            && (r == Err(InvalidPin) <==> found.Some? && st.accounts[found.value].pin != pin)
            && (r == Err(NotApproved) <==>
                  found.Some? && st.accounts[found.value].pin == pin && st.accounts[found.value].status != Approved)
            && (r.Ok? <==>
                  found.Some? && st.accounts[found.value].pin == pin && st.accounts[found.value].status == Approved)
    ensures r.Ok? ==> && FindByContact(st.accounts, mobile, email) == Some(r.value.id)
                      && r.value.id < |st.accounts|
                      && MatchesContact(st.accounts[r.value.id], mobile, email)
                      && st.accounts[r.value.id].pin == pin
                      && st.accounts[r.value.id].status == Approved
                      && r.value.role == st.accounts[r.value.id].role
  {
    match FindByContact(st.accounts, mobile, email)
    case None => Err(UserNotFound)
    case Some(id) =>
      var user := st.accounts[id];
      if user.pin != pin then Err(InvalidPin)
      else if user.status != Approved then Err(NotApproved)
      else Ok(Claims(id, user.role))
  }

  /** Send money to the account holding `recipientMobile`. */
  function SendMoney(st: State, callerId: nat, recipientMobile: string, amount: real): (r: Step)
    requires callerId < |st.accounts|
    ensures r.outcome.Refused? ==> r.state == st
    ensures r.outcome == Refused(RecipientNotFound) <==> FindByMobile(st.accounts, recipientMobile).None?
    ensures FindByMobile(st.accounts, recipientMobile).Some? ==>
              var check := SendCheck(st.accounts[callerId].balance, amount);
              && (r.outcome.Refused? <==> check.Err?)
              && (check.Err? ==> r.outcome.reason == check.reason)
    ensures r.outcome == Done ==>
              r.state == Settle(st, callerId, FindByMobile(st.accounts, recipientMobile).value,
                                amount, SendFee(amount), Kind.Send)
  {
    match FindByMobile(st.accounts, recipientMobile)
    case None => Step(Refused(RecipientNotFound), st)
    case Some(recipientId) =>
      match SendCheck(st.accounts[callerId].balance, amount)
      case Err(reason) => Step(Refused(reason), st)
      case Ok(fee) => Step(Done, Settle(st, callerId, recipientId, amount, fee, Kind.Send))
  }

  predicate IsAgentAt(accounts: seq<Account>, found: Option<nat>)
  {
    found.Some? && found.value < |accounts| && accounts[found.value].role == AgentRole
  }

  /** Cash out through the agent holding `agentMobile`. */
  function CashOut(st: State, callerId: nat, agentMobile: string, amount: real): (r: Step)
    requires callerId < |st.accounts|
    ensures r.outcome.Refused? ==> r.state == st
    ensures r.outcome == Refused(AgentNotFound) <==>
              !IsAgentAt(st.accounts, FindByMobile(st.accounts, agentMobile))
    ensures IsAgentAt(st.accounts, FindByMobile(st.accounts, agentMobile)) ==>
              var check := CashOutCheck(st.accounts[callerId].balance, amount);
              && (r.outcome.Refused? <==> check.Err?)
              && (check.Err? ==> r.outcome.reason == check.reason)
    ensures r.outcome == Done ==>
              r.state == Settle(st, callerId, FindByMobile(st.accounts, agentMobile).value,
                                amount, CashOutFee(amount), Kind.CashOut)
  {
    var found := FindByMobile(st.accounts, agentMobile);
    if !IsAgentAt(st.accounts, found) then Step(Refused(AgentNotFound), st)
    else
      match CashOutCheck(st.accounts[callerId].balance, amount)
      case Err(reason) => Step(Refused(reason), st)
      case Ok(fee) => Step(Done, Settle(st, callerId, found.value, amount, fee, Kind.CashOut))
  }

  /** Cash in from the agent holding `agentMobile`: no check beyond the agent's role. */
  function CashIn(st: State, callerId: nat, agentMobile: string, amount: real): (r: Step)
    requires callerId < |st.accounts|
    ensures r.outcome.Refused? <==> !IsAgentAt(st.accounts, FindByMobile(st.accounts, agentMobile))
    ensures r.outcome.Refused? ==> r.outcome.reason == AgentNotFound && r.state == st
    ensures r.outcome == Done ==>
              r.state == Settle(st, FindByMobile(st.accounts, agentMobile).value, callerId,
                                amount, 0.0, Kind.CashIn)
  {
    var found := FindByMobile(st.accounts, agentMobile);
    if !IsAgentAt(st.accounts, found) then Step(Refused(AgentNotFound), st)
    else Step(Done, Settle(st, found.value, callerId, amount, 0.0, Kind.CashIn))
  }

  function StatusFor(action: string): Status
  {
    if action == ApproveAction then Approved else Rejected
  }

  /**
   * Approve or reject an account. An id naming no account matches nothing and
   * changes nothing, yet the request succeeds.
   */
  function ApproveUser(st: State, callerRole: string, userId: Option<nat>, action: string): (r: Step)
    ensures r.outcome == Refused(Forbidden) <==> callerRole != AdminRole
    ensures r.outcome == Refused(InvalidRequest) <==>
              callerRole == AdminRole && (userId.None? || (action != ApproveAction && action != RejectAction))
    ensures r.outcome == Done <==>
              callerRole == AdminRole && userId.Some? && (action == ApproveAction || action == RejectAction)
    ensures r.outcome.Refused? ==> r.state == st
    ensures r.outcome == Done ==>
              && r.state.log == st.log && r.state.clock == st.clock
              && |r.state.accounts| == |st.accounts|
              && (forall i :: 0 <= i < |st.accounts| && i != userId.value ==>
                    r.state.accounts[i] == st.accounts[i])
              && (userId.value < |st.accounts| ==>
                    r.state.accounts[userId.value] ==
                      st.accounts[userId.value].(status := if action == ApproveAction then Approved else Rejected))
  {
    if callerRole != AdminRole then Step(Refused(Forbidden), st)
    else if userId.None? || (action != ApproveAction && action != RejectAction) then Step(Refused(InvalidRequest), st)
    else if userId.value < |st.accounts| then
      var id := userId.value;
      Step(Done, st.(accounts := st.accounts[id := st.accounts[id].(status := StatusFor(action))]))
    else Step(Done, st)
  }

  // ---------------------------------------------------------------------------
  // Money movements

  /** The effect of the writes on the total held by all accounts. */
  lemma SettleTotal(st: State, debitedId: nat, creditedId: nat, amount: real, fee: real, kind: Kind)
    requires debitedId < |st.accounts| && creditedId < |st.accounts|
    ensures var after := Settle(st, debitedId, creditedId, amount, fee, kind).accounts;
            && (debitedId != creditedId ==> Total(after) == Total(st.accounts) - fee)
            && (debitedId == creditedId ==> Total(after) == Total(st.accounts) + amount)
  {
    var debited := st.accounts[debitedId];
    var credited := st.accounts[creditedId];
    var afterDebit := st.accounts[debitedId := debited.(balance := debited.balance - (amount + fee))];
    TotalUpdate(st.accounts, debitedId, debited.(balance := debited.balance - (amount + fee)));
    TotalUpdate(afterDebit, creditedId, credited.(balance := credited.balance + amount));
  }

  /**
   * A successful send between two accounts: the fee is the flat fee above the
   * threshold, the sender covered principal plus fee and pays both, the
   * recipient receives the principal, one send record is logged, and the
   * money in the system drops by exactly the fee.
   */
  lemma SendMoneyMovesFunds(st: State, callerId: nat, recipientMobile: string, amount: real)
    requires callerId < |st.accounts|
    requires SendMoney(st, callerId, recipientMobile, amount).outcome == Done
    ensures FindByMobile(st.accounts, recipientMobile).Some?
    ensures var recipientId := FindByMobile(st.accounts, recipientMobile).value;
            var before := st.accounts;
            var after := SendMoney(st, callerId, recipientMobile, amount).state;
            var fee := if amount > 100.0 then 5.0 else 0.0;
            && amount >= 50.0
            && before[callerId].balance >= amount + fee
            && after.log == st.log + [Transaction(callerId, recipientId, amount, fee, Kind.Send, st.clock)]
            && after.accounts[recipientId].balance == before[recipientId].balance + amount
            && (recipientId != callerId ==>
                  && after.accounts[callerId].balance == before[callerId].balance - amount - fee
                  && after.accounts[callerId].balance >= 0.0
                  && Total(after.accounts) == Total(before) - fee)
  {
    var recipientId := FindByMobile(st.accounts, recipientMobile).value;
    SettleTotal(st, callerId, recipientId, amount, SendFee(amount), Kind.Send);
  }

  /**
   * Sending to one's own mobile number: the recipient write, computed from the
   * balance read before the sender write, is the one that stays, so the
   * account ends up credited with the principal and nothing is debited.
   */
  lemma SendToSelfCredits(st: State, callerId: nat, amount: real)
    requires callerId < |st.accounts| && ContactsUnique(st.accounts)
    requires SendMoney(st, callerId, st.accounts[callerId].mobileNumber, amount).outcome == Done
    ensures var after := SendMoney(st, callerId, st.accounts[callerId].mobileNumber, amount).state;
            && after.accounts[callerId].balance == st.accounts[callerId].balance + amount
            && Total(after.accounts) == Total(st.accounts) + amount
            && after.log[|st.log|] == Transaction(callerId, callerId, amount, SendFee(amount), Kind.Send, st.clock)
  {
    UniqueMobileFound(st.accounts, callerId);
    SettleTotal(st, callerId, callerId, amount, SendFee(amount), Kind.Send);
  }

  /**
   * A successful cash-out: the counterparty is an agent, the principal is at
   * least the minimum, the user covered principal plus 1.5%, pays both, the
   * agent receives the principal, one cash-out record is logged with that fee,
   * and the money in the system drops by the fee when the two accounts differ.
   */
  lemma CashOutMovesFunds(st: State, callerId: nat, agentMobile: string, amount: real)
    requires callerId < |st.accounts|
    requires CashOut(st, callerId, agentMobile, amount).outcome == Done
    ensures FindByMobile(st.accounts, agentMobile).Some?
    ensures var agentId := FindByMobile(st.accounts, agentMobile).value;
            var before := st.accounts;
            var after := CashOut(st, callerId, agentMobile, amount).state;
            var fee := amount * 0.015;
            && before[agentId].role == "agent"
            && amount >= 50.0
            && before[callerId].balance >= amount + fee
            && after.log == st.log + [Transaction(callerId, agentId, amount, fee, Kind.CashOut, st.clock)]
            && after.accounts[agentId].balance == before[agentId].balance + amount
            && (agentId != callerId ==>
                  && after.accounts[callerId].balance == before[callerId].balance - (amount + fee)
                  && Total(after.accounts) == Total(before) - fee)
  {
    var agentId := FindByMobile(st.accounts, agentMobile).value;
    SettleTotal(st, callerId, agentId, amount, CashOutFee(amount), Kind.CashOut);
  }

  /** Whatever the outcome of a cash-out, a user who started non-negative stays non-negative. */
  lemma CashOutKeepsUserNonNegative(st: State, callerId: nat, agentMobile: string, amount: real)
    requires callerId < |st.accounts| && st.accounts[callerId].balance >= 0.0
    ensures CashOut(st, callerId, agentMobile, amount).state.accounts[callerId].balance >= 0.0
  {
  }

  /**
   * A cash-in: the named account must be an agent and nothing else is checked.
   * The agent pays the principal, the caller receives it, the pair's combined
   * balance and the system total are unchanged, and a fee-free record is logged.
   */
  lemma CashInMovesFunds(st: State, callerId: nat, agentMobile: string, amount: real)
    requires callerId < |st.accounts|
    requires IsAgentAt(st.accounts, FindByMobile(st.accounts, agentMobile))
    ensures CashIn(st, callerId, agentMobile, amount).outcome == Done
    ensures var agentId := FindByMobile(st.accounts, agentMobile).value;
            var before := st.accounts;
            var after := CashIn(st, callerId, agentMobile, amount).state;
            && after.log == st.log + [Transaction(agentId, callerId, amount, 0.0, Kind.CashIn, st.clock)]
            && after.accounts[callerId].balance == before[callerId].balance + amount
            && (agentId != callerId ==>
                  && after.accounts[agentId].balance == before[agentId].balance - amount
                  && after.accounts[agentId].balance + after.accounts[callerId].balance
                     == before[agentId].balance + before[callerId].balance
                  && Total(after.accounts) == Total(before))
  {
    var agentId := FindByMobile(st.accounts, agentMobile).value;
    SettleTotal(st, agentId, callerId, amount, 0.0, Kind.CashIn);
  }

  /** Cash-in can leave an agent with a negative balance: an agent holding 0 cashes in 100. */
  lemma CashInCanOverdrawAgent()
    ensures var agent := Account("Agent", "1111", "01700000001", "agent@example.com", "agent", Approved, 0.0);
            var user := Account("User", "2222", "01700000002", "user@example.com", "user", Approved, 0.0);
            var st := State([agent, user], [], 0);
            && NonNegative(st.accounts)
            && CashIn(st, 1, "01700000001", 100.0).outcome == Done
            && CashIn(st, 1, "01700000001", 100.0).state.accounts[0].balance == -100.0
  {
  }

  // ---------------------------------------------------------------------------
  // Invariants

  /** Registration keeps contacts unique: the new account shares neither its mobile number nor its email. */
  lemma RegisterPreservesValid(st: State, name: string, pin: string, mobile: string, email: string, role: string)
    requires Valid(st)
    ensures Valid(Register(st, name, pin, mobile, email, role).state)
  {
  }

  lemma SendMoneyPreservesValid(st: State, callerId: nat, recipientMobile: string, amount: real)
    requires Valid(st) && callerId < |st.accounts|
    ensures Valid(SendMoney(st, callerId, recipientMobile, amount).state)
  {
  }

  lemma CashOutPreservesValid(st: State, callerId: nat, agentMobile: string, amount: real)
    requires Valid(st) && callerId < |st.accounts|
    ensures Valid(CashOut(st, callerId, agentMobile, amount).state)
  {
  }

  lemma CashInPreservesValid(st: State, callerId: nat, agentMobile: string, amount: real)
    requires Valid(st) && callerId < |st.accounts|
    ensures Valid(CashIn(st, callerId, agentMobile, amount).state)
  {
  }

  lemma ApproveUserPreservesValid(st: State, callerRole: string, userId: Option<nat>, action: string)
    requires Valid(st)
    ensures Valid(ApproveUser(st, callerRole, userId, action).state)
  {
  }

  /**
   * Every operation except cash-in keeps all balances non-negative: a send or
   * cash-out debits only a covered balance and credits at least the minimum.
   */
  lemma MovementsKeepNonNegative(st: State, callerId: nat, mobile: string, amount: real)
    requires callerId < |st.accounts| && NonNegative(st.accounts)
    ensures NonNegative(SendMoney(st, callerId, mobile, amount).state.accounts)
    ensures NonNegative(CashOut(st, callerId, mobile, amount).state.accounts)
  {
  }

  lemma AdministrationKeepsNonNegative(st: State, name: string, pin: string, mobile: string, email: string,
                                       role: string, callerRole: string, userId: Option<nat>, action: string)
    requires NonNegative(st.accounts)
    ensures NonNegative(Register(st, name, pin, mobile, email, role).state.accounts)
    ensures NonNegative(ApproveUser(st, callerRole, userId, action).state.accounts)
  {
  }

  /** The history of a reachable state lists the account's newest records, newest first. */
  lemma HistoryOfValidState(st: State, id: nat)
    requires Valid(st)
    ensures History(st.log, id) == Take(Reverse(Involving(st.log, id)), PageSize)
    ensures forall k :: 0 <= k < |st.log| && Involves(st.log[k], id) && st.log[k] !in History(st.log, id) ==>
              |History(st.log, id)| == PageSize &&
              forall t :: t in History(st.log, id) ==> t.date > st.log[k].date
  {
    HistoryNewestFirst(st.log, id);
    forall k | 0 <= k < |st.log| && Involves(st.log[k], id) && st.log[k] !in History(st.log, id)
      ensures |History(st.log, id)| == PageSize
      ensures forall t :: t in History(st.log, id) ==> t.date > st.log[k].date
    {
      HistoryKeepsNewest(st.log, id, k);
    }
  }
}
