/** The admin controller's mutations: user fields, transaction status and game
    status. */
module Admin {
  import opened Basics
  import opened Records
  import opened Store

  /** `updateUser`: role, active flag and wallet are set when given, and the
      user saved. */
  function UpdateUser(s: State, userId: UserId, role: Option<Role>, isActive: Option<bool>, wallet: Option<int>): (r: Step)
    ensures userId !in s.users ==> r == Unchanged(s, UserNotFound)
    ensures userId in s.users ==>
      var u := s.users[userId];
      var v := u.(role := if role.Some? then role.value else u.role,
                  isActive := if isActive.Some? then isActive.value else u.isActive,
                  wallet := if wallet.Some? then wallet.value else u.wallet);
      && (r.reply == Ok <==> ValidUser(v))
      && r.state == (if ValidUser(v) then s.(users := s.users[userId := v]) else s)
    ensures AllUsersValid(s.users) ==> AllUsersValid(r.state.users)
  {
    if userId !in s.users then Unchanged(s, UserNotFound)
    else
      var u := s.users[userId];
      var u1 := if role.Some? then u.(role := role.value) else u;
      var u2 := if isActive.Some? then u1.(isActive := isActive.value) else u1;
      var u3 := if wallet.Some? then u2.(wallet := wallet.value) else u2;
      match SaveUser(s.users, userId, u3)
      case None => Unchanged(s, ServerError)
      case Some(users) => Step(s.(users := users), Ok, [])
  }

  /** An update that gives no field saves the user as it is. */
  lemma EmptyUserUpdateChangesNothing(s: State, userId: UserId)
    requires userId in s.users && ValidUser(s.users[userId])
    ensures UpdateUser(s, userId, None, None, None) == Step(s, Ok, [])
  {
    assert s.users[userId := s.users[userId]] == s.users;
  }

  /** `updateTransaction` as written: the new status is stored before the
      refund test reads it back, so the test asks for `failed` and `pending`
      at once; only the status ever changes. */
  function UpdateTransactionAsWritten(s: State, index: nat, status: Option<TxStatus>): (r: Step)
    ensures index >= |s.ledger| ==> r == Unchanged(s, NotFound)
    ensures r.state.users == s.users
    ensures index < |s.ledger| ==>
      var t := s.ledger[index];
      var t' := if status.Some? then t.(status := status.value) else t;
      && (r.reply == Ok <==> t.amount >= 0)
      && r.state == (if t.amount >= 0 then s.(ledger := s.ledger[index := t']) else s)
  {
    if index >= |s.ledger| then Unchanged(s, NotFound)
    else
      var t := s.ledger[index];
      var t' := if status.Some? then t.(status := status.value) else t;
      var refunded := if t'.kind == Withdrawal && status == Some(Failed) && t'.status == Pending then
                        RefundWithdrawal(s, t')
                      else Some(s);
      match refunded
      case None => Unchanged(s, ServerError)
      case Some(s1) =>
        if t'.amount < 0 then Unchanged(s1, ServerError)
        else Step(s1.(ledger := s1.ledger[index := t']), Ok, [])
  }

  /** The refund of a rejected withdrawal: its amount goes back to the
      owner's wallet. A missing owner is skipped; a save the validators
      reject throws (`None`). */
  function RefundWithdrawal(s: State, t: Transaction): (r: Option<State>)
    ensures r.None? <==> t.userId in s.users && !ValidUser(s.users[t.userId].(wallet := s.users[t.userId].wallet + t.amount))
    ensures t.userId !in s.users ==> r == Some(s)
    ensures r.Some? ==> r.value == s.(users := r.value.users)
    ensures r.Some? && t.userId in s.users ==>
      r.value.users == s.users[t.userId := s.users[t.userId].(wallet := s.users[t.userId].wallet + t.amount)]
  {
    if t.userId !in s.users then Some(s)
    else
      match SaveUser(s.users, t.userId, s.users[t.userId].(wallet := s.users[t.userId].wallet + t.amount))
      case None => None
      case Some(users) => Some(s.(users := users))
  }

  /** `updateTransaction` with the refund test made against the status the
      entry had before the update: rejecting a pending withdrawal returns the
      reserved amount. The owner is saved before the entry, so a failed owner
      save answers with the generic error and writes nothing, while a failed
      entry save keeps the refund already written. */
  function UpdateTransaction(s: State, index: nat, status: Option<TxStatus>): (r: Step)
    ensures index >= |s.ledger| ==> r == Unchanged(s, NotFound)
    ensures index < |s.ledger| ==>
      var t := s.ledger[index];
      var t' := if status.Some? then t.(status := status.value) else t;
      var refund := t.kind == Withdrawal && status == Some(Failed) && t.status == Pending;
      && (refund && RefundWithdrawal(s, t).None? ==> r == Unchanged(s, ServerError))
      && (r.reply == Ok <==> t.amount >= 0 && (refund ==> RefundWithdrawal(s, t).Some?))
      && (r.reply == Ok ==> r.state.ledger == s.ledger[index := t'])
      && (r.reply != Ok ==> r.state.ledger == s.ledger)
      && (!refund ==> r.state == s.(ledger := r.state.ledger))
      && (refund && RefundWithdrawal(s, t).Some? ==> r.state == RefundWithdrawal(s, t).value.(ledger := r.state.ledger))
    ensures AllUsersValid(s.users) ==> AllUsersValid(r.state.users)
  {
    if index >= |s.ledger| then Unchanged(s, NotFound)
    else
      var t := s.ledger[index];
      var t' := if status.Some? then t.(status := status.value) else t;
      var refunded := if t.kind == Withdrawal && status == Some(Failed) && t.status == Pending then
                        RefundWithdrawal(s, t)
                      else Some(s);
      match refunded
      case None => Unchanged(s, ServerError)
      case Some(s1) =>
        if t'.amount < 0 then Step(s1, Fail(ServerError), [])
        else Step(s1.(ledger := s1.ledger[index := t']), Ok, [])
  }

  /** The owner's save fails when the refund would leave an invalid user, for
      instance one whose wallet stays negative: the corrected update then
      answers with the generic error and leaves the entry pending. */
  lemma FailedRefundWritesNothing(s: State, index: nat)
    requires index < |s.ledger| && s.ledger[index].kind == Withdrawal && s.ledger[index].status == Pending
    requires s.ledger[index].userId in s.users
    requires s.users[s.ledger[index].userId].wallet + s.ledger[index].amount < 0
    ensures UpdateTransaction(s, index, Some(Failed)) == Unchanged(s, ServerError)
  {
  }

  /** As written, rejecting a pending withdrawal leaves its amount reserved:
      the wallet stays debited. */
  lemma AsWrittenRejectionKeepsFundsReserved(s: State, index: nat)
    requires index < |s.ledger| && s.ledger[index].kind == Withdrawal && s.ledger[index].status == Pending
    requires s.ledger[index].amount > 0
    requires s.ledger[index].userId in s.users && ValidUser(s.users[s.ledger[index].userId])
    ensures UpdateTransactionAsWritten(s, index, Some(Failed)).state.users == s.users
    ensures var u := s.ledger[index].userId;
      UpdateTransaction(s, index, Some(Failed)).state.users[u].wallet == s.users[u].wallet + s.ledger[index].amount
  {
  }

  /** Admin `updateGame`: status and winner are set when given; the end time is
      stamped only when the new status is `completed` and no end time exists. */
  function UpdateGame(s: State, gameId: GameId, status: Option<GameStatus>, winner: Option<UserId>, now: int): (r: Step)
    ensures r.state.games.Keys == s.games.Keys
    ensures gameId !in s.games ==> r == Unchanged(s, GameNotFound)
    ensures gameId in s.games ==>
      var g := s.games[gameId];
      var h := r.state.games[gameId];
      && r.reply == Ok
      && r.state == s.(games := s.games[gameId := h])
      && h.status == (if status.Some? then status.value else g.status)
      && h.winner == (if winner.Some? then winner else g.winner)
      && (g.endTime.Some? ==> h.endTime == g.endTime)
      && (g.endTime.None? ==> h.endTime == (if status == Some(GameStatus.Completed) then Some(now) else None))
      && h.(status := g.status, winner := g.winner, endTime := g.endTime) == g
  {
    if gameId !in s.games then Unchanged(s, GameNotFound)
    else
      var g := s.games[gameId];
      var g1 := if status.Some? then g.(status := status.value) else g;
      var g2 := if winner.Some? then g1.(winner := winner) else g1;
      var g3 := if status == Some(GameStatus.Completed) && g2.endTime.None? then g2.(endTime := Some(now)) else g2;
      Step(s.(games := s.games[gameId := g3]), Ok, [])
  }

  /** Repeating a game update changes nothing more: in particular the end
      time stamped by the first update is kept. */
  lemma UpdateGameIsIdempotent(s: State, gameId: GameId, status: Option<GameStatus>, winner: Option<UserId>,
                               now: int, later: int)
    ensures var t := UpdateGame(s, gameId, status, winner, now).state;
      UpdateGame(t, gameId, status, winner, later).state == t
  {
    var t := UpdateGame(s, gameId, status, winner, now).state;
    if gameId in s.games {
      assert t.games[gameId := t.games[gameId]] == t.games;
    }
  }
}
