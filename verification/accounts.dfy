/** The user controller: the signed wallet adjustment and the earnings update
    with its daily and weekly resets. Whether the last update fell on the same
    day or in the same week is an input: the server compares only the day of
    the month for the daily reset, and for the weekly reset compares two
    instants that keep their time of day, so the weekly counter restarts on
    almost every update. */
module Accounts {
  import opened Basics
  import opened Records
  import opened Store

  /** `updateWallet`: a debit larger than the wallet is refused; otherwise the
      signed amount is added and the user saved. */
  function UpdateWallet(s: State, userId: UserId, amount: int): (r: Step)
    ensures userId !in s.users ==> r == Unchanged(s, UserNotFound)
    ensures userId in s.users && amount < 0 && s.users[userId].wallet < -amount ==> r == Unchanged(s, InsufficientBalance)
    ensures r.reply == Ok <==>
      userId in s.users && ValidUser(s.users[userId].(wallet := s.users[userId].wallet + amount))
    ensures r.reply == Ok ==> r.state == s.(users := s.users[userId := s.users[userId].(wallet := s.users[userId].wallet + amount)])
    ensures r.reply != Ok ==> r.state == s
    ensures AllUsersValid(s.users) ==> AllUsersValid(r.state.users)
  {
    if userId !in s.users then Unchanged(s, UserNotFound)
    else
      var u := s.users[userId];
      if amount < 0 && u.wallet < -amount then Unchanged(s, InsufficientBalance)
      else
        match SaveUser(s.users, userId, u.(wallet := u.wallet + amount))
        case None => Unchanged(s, ServerError)
        case Some(users) => Step(s.(users := users), Ok, [])
  }

  /** For a valid user the balance guard refuses exactly the adjustments that
      would take the wallet below zero, so the save never fails on the wallet. */
  lemma WalletGuardIsTheFloor(s: State, userId: UserId, amount: int)
    requires userId in s.users && ValidUser(s.users[userId])
    ensures UpdateWallet(s, userId, amount).reply == Ok <==> s.users[userId].wallet + amount >= 0
    ensures UpdateWallet(s, userId, amount).reply == Fail(InsufficientBalance) <==> s.users[userId].wallet + amount < 0
  {
  }

  /** The counters before the add: daily earnings restart on a new day and
      weekly earnings on a new week. */
  function ResetFor(u: User, sameDay: bool, sameWeek: bool): User
  {
    var d := if sameDay then u else ResetDailyEarnings(u);
    if sameWeek then d else ResetWeeklyEarnings(d)
  }

  /** `updateEarnings`: after the resets the amount is added to the three
      counters and to the wallet. */
  function UpdateEarnings(s: State, userId: UserId, amount: int, sameDay: bool, sameWeek: bool): (r: Step)
    ensures userId !in s.users ==> r == Unchanged(s, UserNotFound)
    ensures userId in s.users ==>
      var u := s.users[userId];
      var v := u.(dailyEarnings := (if sameDay then u.dailyEarnings else 0) + amount,
                  weeklyEarnings := (if sameWeek then u.weeklyEarnings else 0) + amount,
                  totalEarnings := u.totalEarnings + amount,
                  wallet := u.wallet + amount);
      && (r.reply == Ok <==> ValidUser(v))
      && r.state == (if ValidUser(v) then s.(users := s.users[userId := v]) else s)
    ensures AllUsersValid(s.users) ==> AllUsersValid(r.state.users)
  {
    if userId !in s.users then Unchanged(s, UserNotFound)
    else
      match SaveUser(s.users, userId, Credit(ResetFor(s.users[userId], sameDay, sameWeek), amount))
      case None => Unchanged(s, ServerError)
      case Some(users) => Step(s.(users := users), Ok, [])
  }

  /** On a new day the daily counter ends at exactly the amount, on a new week
      the weekly counter too, and a non-negative amount is always accepted
      for a valid user. */
  lemma EarningsAfterReset(s: State, userId: UserId, amount: int, sameDay: bool, sameWeek: bool)
    requires userId in s.users && ValidUser(s.users[userId]) && amount >= 0
    ensures var r := UpdateEarnings(s, userId, amount, sameDay, sameWeek);
      && r.reply == Ok
      && (!sameDay ==> r.state.users[userId].dailyEarnings == amount)
      && (!sameWeek ==> r.state.users[userId].weeklyEarnings == amount)
      && r.state.users[userId].totalEarnings == s.users[userId].totalEarnings + amount
      && r.state.users[userId].wallet == s.users[userId].wallet + amount
  {
  }
}
