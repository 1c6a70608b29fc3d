/** Outcome types shared by every handler of the service. */
module Results {

  datatype Option<+T> = None | Some(value: T)

  /** Why a request was turned away; one constructor per error response of the handlers. */
  datatype Reason =
    | MissingFields        // "All fields are required"
    | AlreadyExists        // "User already exists with provided mobile number or email"
    | UserNotFound         // login: no account with that mobile number or email
    | InvalidPin           // login: PIN does not match
    | NotApproved          // login: "Account not approved"
    | RecipientNotFound    // send: no account with the recipient's mobile number
    | AgentNotFound        // cash-out / cash-in: counterparty missing or not an agent
    | InsufficientBalance  // balance below the principal
    | BelowMinimum         // principal below the minimum of 50
    | InsufficientForFee   // balance below principal plus fee
    | Forbidden            // admin endpoint called without the admin role
    | InvalidRequest       // approve-user: missing id or unknown action

  /** The result of a handler that writes: it either went through or was refused. */
  datatype Outcome = Done | Refused(reason: Reason)

  /** The result of a check or of a read that yields a value. */
  datatype Result<+T> = Ok(value: T) | Err(reason: Reason)
}
