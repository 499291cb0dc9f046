/** The wallet controller: recording a deposit, crediting it once the payment
    gateway or its webhook reports success, and reserving a withdrawal. The
    gateway itself is not modelled: its verdicts are inputs. */
module Wallet {
  import opened Basics
  import opened Records
  import opened Store

  /** The smallest withdrawal accepted, in ETB. */
  const MinimumWithdrawalAmount: int := 50

  /** `initializeDeposit`: for a known user, once the gateway has accepted the
      checkout, a `pending` deposit under the generated reference is recorded.
      The wallet is not touched. */
  function InitializeDeposit(s: State, userId: UserId, amount: int, txRef: string, gatewayOk: bool): (r: Step)
    ensures userId !in s.users ==> r == Unchanged(s, UserNotFound)
    ensures r.state.users == s.users
    ensures r.reply == Ok <==>
      userId in s.users && gatewayOk && amount >= 0 && FindReference(s.ledger, txRef).None?
    ensures r.reply == Ok ==> r.state == s.(ledger := s.ledger + [Transaction(userId, Deposit, amount, Pending, txRef, None, None)])
    ensures r.reply != Ok ==> r.state == s
  {
    if userId !in s.users then Unchanged(s, UserNotFound)
    else if !gatewayOk then Unchanged(s, ServerError)
    else
      match SaveNew(s.ledger, NewTransaction(userId, Deposit, amount, Some(Pending), txRef, None, None))
      case None => Unchanged(s, ServerError)
      case Some(ledger) => Step(s.(ledger := ledger), Ok, [])
  }

  /** The entry under a reference is pending. */
  predicate PendingAt(ledger: seq<Transaction>, txRef: string) {
    FindReference(ledger, txRef).Some? && ledger[FindReference(ledger, txRef).value].status == Pending
  }

  /** The common body of deposit verification and of the webhook: the entry
      under the reference, when pending, is marked `completed` and its amount
      added to its owner's wallet. Anything else changes nothing. */
  function CreditPending(s: State, txRef: string): (r: Step)
    ensures !PendingAt(s.ledger, txRef) ==> r == Step(s, Ok, [])
    ensures PendingAt(s.ledger, txRef) ==>
      var i := FindReference(s.ledger, txRef).value;
      var t := s.ledger[i];
      && (t.amount < 0 ==> r == Unchanged(s, ServerError))
      && (t.amount >= 0 ==>
            && r.state.ledger == s.ledger[i := t.(status := TxStatus.Completed)]
            && (t.userId !in s.users ==> r == Step(s.(ledger := r.state.ledger), Ok, []))
            && (t.userId in s.users ==>
                  var credited := s.users[t.userId].(wallet := s.users[t.userId].wallet + t.amount);
                  && (r.reply == Ok <==> ValidUser(credited))
                  && r.state.users == (if ValidUser(credited) then s.users[t.userId := credited] else s.users)))
    ensures r.state == s.(ledger := r.state.ledger, users := r.state.users)
    ensures |r.state.ledger| == |s.ledger|
    ensures ValidLedger(s.ledger) ==> ValidLedger(r.state.ledger)
    ensures AllUsersValid(s.users) ==> AllUsersValid(r.state.users)
  {
    match FindReference(s.ledger, txRef)
    case None => Step(s, Ok, [])
    case Some(i) =>
      var t := s.ledger[i];
      if t.status != Pending then Step(s, Ok, [])
      else if t.amount < 0 then Unchanged(s, ServerError)
      else
        var s1 := s.(ledger := s.ledger[i := t.(status := TxStatus.Completed)]);
        if t.userId !in s.users then Step(s1, Ok, [])
        else
          match SaveUser(s.users, t.userId, s.users[t.userId].(wallet := s.users[t.userId].wallet + t.amount))
          case None => Step(s1, Fail(ServerError), [])
          case Some(users) => Step(s1.(users := users), Ok, [])
  }

  /** Crediting is idempotent: replaying the same reference finds the entry
      `completed` and changes nothing, so a deposit is credited at most once. */
  lemma CreditIsIdempotent(s: State, txRef: string)
    ensures var t := CreditPending(s, txRef).state;
      CreditPending(t, txRef).state == t
  {
    var t := CreditPending(s, txRef).state;
    if PendingAt(s.ledger, txRef) && t != s {
      var i := FindReference(s.ledger, txRef).value;
      FirstWhereSameMatches(s.ledger, t.ledger, (e: Transaction) => e.reference == txRef);
      assert !PendingAt(t.ledger, txRef);
    }
  }

  /** `verifyDeposit`: a gateway verdict other than success is refused with no
      change; otherwise the pending entry is credited. */
  function VerifyDeposit(s: State, txRef: string, gatewaySuccess: bool): (r: Step)
    ensures !gatewaySuccess ==> r == Unchanged(s, VerificationFailed)
    ensures gatewaySuccess ==> r == CreditPending(s, txRef)
    ensures r.state.users != s.users ==> gatewaySuccess && PendingAt(s.ledger, txRef)
  {
    if gatewaySuccess then CreditPending(s, txRef) else Unchanged(s, VerificationFailed)
  }

  /** `handleWebhook`: a reported status other than `success` changes nothing;
      otherwise the pending entry is credited. The webhook acknowledges unless
      crediting fails, which answers with the generic error. */
  function HandleWebhook(s: State, txRef: string, status: string): (r: Step)
    ensures status != "success" ==> r == Step(s, Ok, [])
    ensures status == "success" ==> r == CreditPending(s, txRef)
    ensures r.state.users != s.users ==> status == "success" && PendingAt(s.ledger, txRef)
  {
    if status == "success" then CreditPending(s, txRef) else Step(s, Ok, [])
  }

  /** The webhook after a successful verification of the same reference, or
      the verification after the webhook, credits nothing more. */
  lemma VerifyThenWebhookCreditsOnce(s: State, txRef: string)
    ensures var t := VerifyDeposit(s, txRef, true).state;
      HandleWebhook(t, txRef, "success").state == t
    ensures var t := HandleWebhook(s, txRef, "success").state;
      VerifyDeposit(t, txRef, true).state == t
  {
    CreditIsIdempotent(s, txRef);
  }

  /** Neither the verification nor the webhook looks at the entry's type: the
      reference of a pending withdrawal is credited like a deposit, so the
      reserved amount returns to the wallet while the withdrawal is recorded
      as `completed`. */
  lemma CreditIgnoresEntryType(s: State, txRef: string)
    requires PendingAt(s.ledger, txRef)
    requires var t := s.ledger[FindReference(s.ledger, txRef).value];
      t.kind == Withdrawal && t.amount >= 0 && t.userId in s.users && ValidUser(s.users[t.userId])
    ensures var t := s.ledger[FindReference(s.ledger, txRef).value];
      var r := HandleWebhook(s, txRef, "success");
      && r.reply == Ok
      && r.state.users[t.userId].wallet == s.users[t.userId].wallet + t.amount
      && r.state.ledger[FindReference(s.ledger, txRef).value] == t.(status := TxStatus.Completed)
  {
  }

  /** `requestWithdrawal`: refuse an unknown user, a wallet short of the amount
      and an amount under the minimum; otherwise record a `pending` withdrawal
      and reserve the amount by debiting it. */
  function RequestWithdrawal(s: State, userId: UserId, amount: int, ref: string): (r: Step)
    ensures userId !in s.users ==> r == Unchanged(s, UserNotFound)
    ensures userId in s.users && s.users[userId].wallet < amount ==> r == Unchanged(s, InsufficientBalance)
    ensures userId in s.users && s.users[userId].wallet >= amount && amount < MinimumWithdrawalAmount ==>
      r == Unchanged(s, MinimumWithdrawal)
    ensures r.reply == Ok <==>
      && userId in s.users
      && s.users[userId].wallet >= amount >= MinimumWithdrawalAmount
      && FindReference(s.ledger, ref).None?
      && ValidUser(s.users[userId].(wallet := s.users[userId].wallet - amount))
    ensures r.reply == Ok ==>
      r.state == s.(ledger := s.ledger + [Transaction(userId, Withdrawal, amount, Pending, ref, None, None)],
                    users := s.users[userId := s.users[userId].(wallet := s.users[userId].wallet - amount)])
    ensures r.reply == Ok ==> r.state.users[userId].wallet >= 0
    // the entry is saved before the debit: a refused entry writes nothing, a
    // refused debit leaves the pending entry with no funds reserved
    ensures userId in s.users && s.users[userId].wallet >= amount >= MinimumWithdrawalAmount ==>
      var e := Transaction(userId, Withdrawal, amount, Pending, ref, None, None);
      && (FindReference(s.ledger, ref).Some? ==> r == Unchanged(s, ServerError))
      && (FindReference(s.ledger, ref).None? && !ValidUser(s.users[userId].(wallet := s.users[userId].wallet - amount)) ==>
            r == Step(s.(ledger := s.ledger + [e]), Fail(ServerError), []))
    ensures ValidLedger(s.ledger) ==> ValidLedger(r.state.ledger)
    ensures AllUsersValid(s.users) ==> AllUsersValid(r.state.users)
  {
    if userId !in s.users then Unchanged(s, UserNotFound)
    else
      var u := s.users[userId];
      if u.wallet < amount then Unchanged(s, InsufficientBalance)
      else if amount < MinimumWithdrawalAmount then Unchanged(s, MinimumWithdrawal)
      else
        match SaveNew(s.ledger, NewTransaction(userId, Withdrawal, amount, Some(Pending), ref, None, None))
        case None => Unchanged(s, ServerError)
        case Some(ledger) =>
          var s1 := s.(ledger := ledger);
          match SaveUser(s.users, userId, u.(wallet := u.wallet - amount))
          case None => Step(s1, Fail(ServerError), [])
          case Some(users) => Step(s1.(users := users), Ok, [])
  }
}
