/**
 * The writing handlers of the service as methods on one object holding the
 * users collection, the transactions collection and the clock. Each handler
 * reads the records it needs into local copies, changes the copies' balances,
 * writes each copy back with a separate update and appends one record, as
 * the service does; each method is proved to leave exactly the state its step
 * function in module Ledger specifies. The read-only handlers (login and the
 * transaction history) are the functions Ledger.Login and Transactions.History
 * of this state.
 */
module Handlers {
  import opened Results
  import opened Policy
  import opened Accounts
  import opened Transactions
  import Ledger

  class Server {
    var accounts: seq<Account>
    var log: seq<Transaction>
    var clock: nat

    function State(): Ledger.State
      reads this
    {
      Ledger.State(accounts, log, clock)
    }

    ghost predicate Valid()
      reads this
    {
      Ledger.Valid(State())
    }

    /** An empty service: no accounts, no transactions. */
    constructor ()
      ensures Valid() && State() == Ledger.InitialState()
    {
      accounts, log, clock := [], [], 0;
    }

    /** POST /register */
    method Register(name: string, pin: string, mobile: string, email: string, role: string)
      returns (out: Outcome)
      requires Valid()
      modifies this
      ensures Valid()
      ensures Ledger.Step(out, State()) == Ledger.Register(old(State()), name, pin, mobile, email, role)
    {
      if name == [] || pin == [] || mobile == [] || email == [] || role == [] {
        return Refused(MissingFields);
      }
      var existing := FindByContact(accounts, mobile, email);
      if existing.Some? {
        return Refused(AlreadyExists);
      }
      var initialBalance := if role == AgentRole then AgentStartBalance else 0.0;
      var newUser := Account(name, pin, mobile, email, role, Pending, initialBalance);
      Ledger.RegisterPreservesValid(State(), name, pin, mobile, email, role);
      accounts := accounts + [newUser];
      out := Done;
    }

    /** POST /send-money, by the account `callerId`. */
    method SendMoney(callerId: nat, recipientMobile: string, amount: real) returns (out: Outcome)
      requires Valid() && callerId < |accounts|
      modifies this
      ensures Valid()
      ensures Ledger.Step(out, State()) == Ledger.SendMoney(old(State()), callerId, recipientMobile, amount)
    {
      Ledger.SendMoneyPreservesValid(State(), callerId, recipientMobile, amount);
      var sender := accounts[callerId];
      var found := FindByMobile(accounts, recipientMobile);
      if found.None? {
        return Refused(RecipientNotFound);
      }
      var recipientId := found.value;
      var recipient := accounts[recipientId];
      if sender.balance < amount {
        return Refused(InsufficientBalance);
      }
      if amount < MinAmount {
        return Refused(BelowMinimum);
      }
      if amount > SendFeeThreshold {
        var fee := SendFlatFee;
        if sender.balance < amount + fee {
          return Refused(InsufficientForFee);
        }
        sender := sender.(balance := sender.balance - (amount + fee));
      } else {
        sender := sender.(balance := sender.balance - amount);
      }
      recipient := recipient.(balance := recipient.balance + amount);
      accounts := accounts[callerId := sender];
      accounts := accounts[recipientId := recipient];
      var fee := if amount > SendFeeThreshold then SendFlatFee else 0.0;
      log := log + [Transaction(callerId, recipientId, amount, fee, Kind.Send, clock)];
      clock := clock + 1;
      out := Done;
    }

    /** POST /cash-out, by the account `callerId`. */
    method CashOut(callerId: nat, agentMobile: string, amount: real) returns (out: Outcome)
      requires Valid() && callerId < |accounts|
      modifies this
      ensures Valid()
      ensures Ledger.Step(out, State()) == Ledger.CashOut(old(State()), callerId, agentMobile, amount)
    {
      Ledger.CashOutPreservesValid(State(), callerId, agentMobile, amount);
      var user := accounts[callerId];
      var found := FindByMobile(accounts, agentMobile);
      if found.None? || accounts[found.value].role != AgentRole {
        return Refused(AgentNotFound);
      }
      var agentId := found.value;
      var agent := accounts[agentId];
      if user.balance < amount {
        return Refused(InsufficientBalance);
      }
      if amount < MinAmount {
        return Refused(BelowMinimum);
      }
      var fee := amount * CashOutRate;
      if user.balance < amount + fee {
        return Refused(InsufficientForFee);
      }
      user := user.(balance := user.balance - (amount + fee));
      agent := agent.(balance := agent.balance + amount);
      accounts := accounts[callerId := user];
      accounts := accounts[agentId := agent];
      log := log + [Transaction(callerId, agentId, amount, fee, Kind.CashOut, clock)];
      clock := clock + 1;
      out := Done;
    }

    /** POST /cash-in, by the account `callerId`: the agent pays, the caller is credited. */
    method CashIn(callerId: nat, agentMobile: string, amount: real) returns (out: Outcome)
      requires Valid() && callerId < |accounts|
      modifies this
      ensures Valid()
      ensures Ledger.Step(out, State()) == Ledger.CashIn(old(State()), callerId, agentMobile, amount)
    {
      Ledger.CashInPreservesValid(State(), callerId, agentMobile, amount);
      var user := accounts[callerId];
      var found := FindByMobile(accounts, agentMobile);
      if found.None? || accounts[found.value].role != AgentRole {
        return Refused(AgentNotFound);
      }
      var agentId := found.value;
      var agent := accounts[agentId];
      agent := agent.(balance := agent.balance - amount);
      user := user.(balance := user.balance + amount);
      accounts := accounts[agentId := agent];
      accounts := accounts[callerId := user];
      log := log + [Transaction(agentId, callerId, amount, 0.0, Kind.CashIn, clock)];
      clock := clock + 1;
      out := Done;
    }

    /** POST /admin/approve-user, by a caller whose token carries `callerRole`. */
    method ApproveUser(callerRole: string, userId: Option<nat>, action: string) returns (out: Outcome)
      requires Valid()
      modifies this
      ensures Valid()
      ensures Ledger.Step(out, State()) == Ledger.ApproveUser(old(State()), callerRole, userId, action)
    {
      if callerRole != AdminRole {
        return Refused(Forbidden);
      }
      if userId.None? || (action != Ledger.ApproveAction && action != Ledger.RejectAction) {
        return Refused(InvalidRequest);
      }
      var status := if action == Ledger.ApproveAction then Approved else Rejected;
      Ledger.ApproveUserPreservesValid(State(), callerRole, userId, action);
      var id := userId.value;
      if id < |accounts| {
        accounts := accounts[id := accounts[id].(status := status)];
      }
      out := Done;
    }
  }
}
