/** The per-bet sessions of the HTTP game routes: buying a card number at a
    bet amount, refunding it, reporting a finished game to the history, the
    session status update and the wallet overwrite. */
module Sessions {
  import opened Basics
  import opened Records
  import opened Store

  /** A session still holding its card: status `active` or `playing`. */
  predicate IsLive(x: GameSession) {
    x.status == SessionActive || x.status == SessionPlaying
  }

  /** Some live session holds this card number at this bet amount. */
  predicate CardTakenAt(ss: seq<GameSession>, cardNumber: int, betAmount: int) {
    exists i :: 0 <= i < |ss| && IsLive(ss[i]) && ss[i].cardNumber == cardNumber && ss[i].betAmount == betAmount
  }

  /** No two live sessions hold the same card number at the same bet amount. */
  predicate NoDuplicateLive(ss: seq<GameSession>) {
    forall i, j :: 0 <= i < j < |ss| && IsLive(ss[i]) && IsLive(ss[j]) ==>
      ss[i].cardNumber != ss[j].cardNumber || ss[i].betAmount != ss[j].betAmount
  }

  /** The wallet after paying a bet. */
  function Debited(u: User, amount: int): User
  {
    u.(wallet := u.wallet - amount)
  }

  /** POST `/session`: refuse a taken card, a missing user or a short wallet;
      otherwise debit the bet and open an `active` session. */
  function BuySession(s: State, userId: UserId, cardNumber: int, betAmount: int): (r: Step)
    ensures CardTakenAt(s.sessions, cardNumber, betAmount) ==> r == Unchanged(s, CardTaken)
    ensures !CardTakenAt(s.sessions, cardNumber, betAmount) && userId !in s.users ==> r == Unchanged(s, UserNotFound)
    ensures !CardTakenAt(s.sessions, cardNumber, betAmount) && userId in s.users && s.users[userId].wallet < betAmount ==>
      r == Unchanged(s, InsufficientBalance)
    ensures r.reply == Ok <==>
      && !CardTakenAt(s.sessions, cardNumber, betAmount)
      && userId in s.users
      && s.users[userId].wallet >= betAmount
      && ValidUser(Debited(s.users[userId], betAmount))
    ensures r.reply == Ok ==>
      r.state == s.(users := s.users[userId := Debited(s.users[userId], betAmount)],
                    sessions := s.sessions + [GameSession(userId, cardNumber, betAmount, SessionActive)])
    ensures r.reply != Ok ==> r.state == s
    ensures NoDuplicateLive(s.sessions) ==> NoDuplicateLive(r.state.sessions)
    ensures AllUsersValid(s.users) ==> AllUsersValid(r.state.users)
  {
    var taken := FirstWhere(s.sessions, (x: GameSession) => IsLive(x) && x.cardNumber == cardNumber && x.betAmount == betAmount);
    if taken.Some? then Unchanged(s, CardTaken)
    else if userId !in s.users then Unchanged(s, UserNotFound)
    else if s.users[userId].wallet < betAmount then Unchanged(s, InsufficientBalance)
    else
      match SaveUser(s.users, userId, Debited(s.users[userId], betAmount))
      case None => Unchanged(s, ServerError)
      case Some(users) =>
        Step(s.(users := users, sessions := s.sessions + [GameSession(userId, cardNumber, betAmount, SessionActive)]), Ok, [])
  }

  /** The refund lookup: the caller's own `active` session on this card number. */
  predicate OwnedActive(x: GameSession, cardNumber: int, userId: UserId) {
    x.cardNumber == cardNumber && x.userId == userId && x.status == SessionActive
  }

  function RefundLookup(ss: seq<GameSession>, cardNumber: int, userId: UserId): Option<nat>
  {
    FirstWhere(ss, (x: GameSession) => OwnedActive(x, cardNumber, userId))
  }

  /** The deletion filter of the refund: any session of the caller on this
      card number, whatever its status or bet amount. */
  function DeleteOwned(ss: seq<GameSession>, cardNumber: int, userId: UserId): seq<GameSession>
  {
    DeleteFirst(ss, (x: GameSession) => x.cardNumber == cardNumber && x.userId == userId)
  }

  /** The wallet after getting a bet back. */
  function Refunded(u: User, amount: int): User
  {
    u.(wallet := u.wallet + amount)
  }

  /** DELETE `/sessions/card/:cardNumber` as it stands: the credit comes from
      the session the lookup found, but the deletion removes the first session
      matching the broader filter of `DeleteOwned`. */
  function RefundSession(s: State, userId: UserId, cardNumber: int): (r: Step)
    ensures RefundLookup(s.sessions, cardNumber, userId).None? ==> r == Unchanged(s, SessionNotFound)
    ensures r.reply == Ok <==>
      && RefundLookup(s.sessions, cardNumber, userId).Some?
      && userId in s.users
      && ValidUser(Refunded(s.users[userId], s.sessions[RefundLookup(s.sessions, cardNumber, userId).value].betAmount))
    ensures r.reply == Ok ==>
      var i := RefundLookup(s.sessions, cardNumber, userId).value;
      r.state == s.(users := s.users[userId := Refunded(s.users[userId], s.sessions[i].betAmount)],
                    sessions := DeleteOwned(s.sessions, cardNumber, userId))
    ensures r.reply != Ok ==> r.state == s
  {
    match RefundLookup(s.sessions, cardNumber, userId)
    case None => Unchanged(s, SessionNotFound)
    case Some(i) =>
      if userId !in s.users then Unchanged(s, UserNotFound)
      else
        match SaveUser(s.users, userId, Refunded(s.users[userId], s.sessions[i].betAmount))
        case None => Unchanged(s, ServerError)
        case Some(users) =>
          Step(s.(users := users, sessions := DeleteOwned(s.sessions, cardNumber, userId)), Ok, [])
  }

  /** The refund with the deletion aimed at the session the lookup found. */
  function RefundSessionFixed(s: State, userId: UserId, cardNumber: int): (r: Step)
    ensures RefundLookup(s.sessions, cardNumber, userId).None? ==> r == Unchanged(s, SessionNotFound)
    ensures r.reply == Ok <==>
      && RefundLookup(s.sessions, cardNumber, userId).Some?
      && userId in s.users
      && ValidUser(Refunded(s.users[userId], s.sessions[RefundLookup(s.sessions, cardNumber, userId).value].betAmount))
    ensures r.reply == Ok ==>
      var i := RefundLookup(s.sessions, cardNumber, userId).value;
      && r.state == s.(users := s.users[userId := Refunded(s.users[userId], s.sessions[i].betAmount)],
                       sessions := RemoveAt(s.sessions, i))
      && multiset(r.state.sessions) + multiset{s.sessions[i]} == multiset(s.sessions)
    ensures r.reply != Ok ==> r.state == s
    ensures NoDuplicateLive(s.sessions) ==> NoDuplicateLive(r.state.sessions)
  {
    match RefundLookup(s.sessions, cardNumber, userId)
    case None => Unchanged(s, SessionNotFound)
    case Some(i) =>
      if userId !in s.users then Unchanged(s, UserNotFound)
      else
        match SaveUser(s.users, userId, Refunded(s.users[userId], s.sessions[i].betAmount))
        case None => Unchanged(s, ServerError)
        case Some(users) =>
          var rest := RemoveAt(s.sessions, i);
          assert forall a, b :: 0 <= a < b < |rest| ==>
            exists a', b' :: 0 <= a' < b' < |s.sessions| && rest[a] == s.sessions[a'] && rest[b] == s.sessions[b'] by {
            forall a, b | 0 <= a < b < |rest|
              ensures exists a', b' :: 0 <= a' < b' < |s.sessions| && rest[a] == s.sessions[a'] && rest[b] == s.sessions[b']
            {
              var a' := if a < i then a else a + 1;
              var b' := if b < i then b else b + 1;
              assert rest[a] == s.sessions[a'] && rest[b] == s.sessions[b'];
            }
          }
          Step(s.(users := users, sessions := rest), Ok, [])
  }

  /** The money a user has staked in `active` sessions. */
  function Stake(ss: seq<GameSession>, userId: UserId): int
  {
    SumWhere(ss, (x: GameSession) => x.userId == userId && x.status == SessionActive, (x: GameSession) => x.betAmount)
  }

  /** Buying moves the bet from the wallet into the stake. */
  lemma BuyConservesFunds(s: State, userId: UserId, cardNumber: int, betAmount: int)
    requires BuySession(s, userId, cardNumber, betAmount).reply == Ok
    ensures var t := BuySession(s, userId, cardNumber, betAmount).state;
      t.users[userId].wallet + Stake(t.sessions, userId) == s.users[userId].wallet + Stake(s.sessions, userId)
  {
    SumWhereAppend(s.sessions, GameSession(userId, cardNumber, betAmount, SessionActive),
                   (x: GameSession) => x.userId == userId && x.status == SessionActive, (x: GameSession) => x.betAmount);
  }

  /** The corrected refund moves exactly the refunded session's bet from the
      stake back into the wallet, so a user can never get back more than the
      bets still staked. */
  lemma RefundFixedConservesFunds(s: State, userId: UserId, cardNumber: int)
    requires RefundSessionFixed(s, userId, cardNumber).reply == Ok
    ensures var t := RefundSessionFixed(s, userId, cardNumber).state;
      t.users[userId].wallet + Stake(t.sessions, userId) == s.users[userId].wallet + Stake(s.sessions, userId)
  {
    var i := RefundLookup(s.sessions, cardNumber, userId).value;
    SumWhereRemoveAt(s.sessions, i, (x: GameSession) => x.userId == userId && x.status == SessionActive,
                     (x: GameSession) => x.betAmount);
  }

  /** Buying a card and then refunding it with the corrected refund restores
      the whole state, provided the user held no other active session on that
      card number. */
  lemma BuyThenRefundRestores(s: State, userId: UserId, cardNumber: int, betAmount: int)
    requires BuySession(s, userId, cardNumber, betAmount).reply == Ok
    requires RefundLookup(s.sessions, cardNumber, userId).None?
    requires ValidUser(s.users[userId])
    ensures var t := BuySession(s, userId, cardNumber, betAmount).state;
      RefundSessionFixed(t, userId, cardNumber) == Step(s, Ok, [])
  {
    var t := BuySession(s, userId, cardNumber, betAmount).state;
    var n := |s.sessions|;
    FirstWhereAppendMatch(s.sessions, GameSession(userId, cardNumber, betAmount, SessionActive),
                          (x: GameSession) => OwnedActive(x, cardNumber, userId));
    assert RefundLookup(t.sessions, cardNumber, userId) == Some(n);
    assert RemoveAt(t.sessions, n) == s.sessions;
    assert Refunded(Debited(s.users[userId], betAmount), betAmount) == s.users[userId];
  }

  /** Buying and then refunding with the refund as written also gives the bet
      back exactly. */
  lemma BuyThenRefundAsWrittenRestoresWallet(s: State, userId: UserId, cardNumber: int, betAmount: int)
    requires BuySession(s, userId, cardNumber, betAmount).reply == Ok
    requires RefundLookup(s.sessions, cardNumber, userId).None?
    requires ValidUser(s.users[userId])
    ensures var t := BuySession(s, userId, cardNumber, betAmount).state;
      var r := RefundSession(t, userId, cardNumber);
      r.reply == Ok && r.state.users == s.users
  {
    var t := BuySession(s, userId, cardNumber, betAmount).state;
    var n := |s.sessions|;
    FirstWhereAppendMatch(s.sessions, GameSession(userId, cardNumber, betAmount, SessionActive),
                          (x: GameSession) => OwnedActive(x, cardNumber, userId));
    assert RefundLookup(t.sessions, cardNumber, userId) == Some(n);
    assert Refunded(Debited(s.users[userId], betAmount), betAmount) == s.users[userId];
  }

  /** A user with an older, no longer active session on card 5 and an active
      one with bet 10, and nothing in the wallet. */
  function DoubleRefundExample(): State
  {
    State(map[0 := User("0911223344", UserRole, 0, 0, 0, 0, true)], [], map[], [], [], {},
          [GameSession(0, 5, 10, SessionOther("completed")), GameSession(0, 5, 10, SessionActive)],
          [], [], [], map[], 0)
  }

  /** In the example the user has exactly one bet of 10 at stake. */
  lemma ExampleStake()
    ensures Stake(DoubleRefundExample().sessions, 0) == 10
  {
    var ss := DoubleRefundExample().sessions;
    var a, b := ss[0], ss[1];
    SumWhereAppend([], a, (x: GameSession) => x.userId == 0 && x.status == SessionActive, (x: GameSession) => x.betAmount);
    SumWhereAppend([a], b, (x: GameSession) => x.userId == 0 && x.status == SessionActive, (x: GameSession) => x.betAmount);
    assert [] + [a] == [a] && [a] + [b] == ss;
  }

  /** The refund as written pays twice for the one active session: the first
      call deletes the older session instead, so the active one is found again. */
  lemma RefundAsWrittenPaysTwice()
    ensures var s := DoubleRefundExample();
      var r1 := RefundSession(s, 0, 5);
      var r2 := RefundSession(r1.state, 0, 5);
      && Stake(s.sessions, 0) == 10
      && r1.reply == Ok && r2.reply == Ok
      && r2.state.users[0].wallet == 20
  {
    var s := DoubleRefundExample();
    assert RefundLookup(s.sessions, 5, 0) == Some(1);
    assert DeleteOwned(s.sessions, 5, 0) == [GameSession(0, 5, 10, SessionActive)];
    var r1 := RefundSession(s, 0, 5);
    assert r1.state.sessions == [GameSession(0, 5, 10, SessionActive)];
    assert RefundLookup(r1.state.sessions, 5, 0) == Some(0);
    assert r1.state.users[0].wallet == 10;
    ExampleStake();
  }

  /** The corrected refund pays once on the same state and refuses the repeat. */
  lemma RefundFixedPaysOnce()
    ensures var s := DoubleRefundExample();
      var r1 := RefundSessionFixed(s, 0, 5);
      var r2 := RefundSessionFixed(r1.state, 0, 5);
      && r1.reply == Ok && r2.reply == Fail(SessionNotFound)
      && r2.state.users[0].wallet == 10
  {
    var s := DoubleRefundExample();
    assert RefundLookup(s.sessions, 5, 0) == Some(1);
    var r1 := RefundSessionFixed(s, 0, 5);
    assert r1.state.sessions == [GameSession(0, 5, 10, SessionOther("completed"))];
    assert RefundLookup(r1.state.sessions, 5, 0).None?;
  }

  /** POST `/history`: the entry is always saved; an existing winner gets the
      prize pool in the wallet and all three earnings counters, with no ledger
      entry. */
  function PostHistory(s: State, winnerId: Option<UserId>, winnerCard: int, prizePool: int,
                       numberOfPlayers: int, betAmount: int): (r: Step)
    ensures r.state.history == s.history + [HistoryEntry(winnerId, winnerCard, prizePool, numberOfPlayers, betAmount)]
    ensures r.state.ledger == s.ledger
    ensures winnerId.None? || winnerId.value !in s.users ==>
      r.reply == Ok && r.state == s.(history := r.state.history)
    ensures winnerId.Some? && winnerId.value in s.users ==>
      && (r.reply == Ok <==> ValidUser(Credit(s.users[winnerId.value], prizePool)))
      && (r.reply == Ok ==> r.state == s.(history := r.state.history,
                                          users := s.users[winnerId.value := Credit(s.users[winnerId.value], prizePool)]))
      && (r.reply != Ok ==> r.state == s.(history := r.state.history))
  {
    var s1 := s.(history := s.history + [HistoryEntry(winnerId, winnerCard, prizePool, numberOfPlayers, betAmount)]);
    if winnerId.None? || winnerId.value !in s.users then Step(s1, Ok, [])
    else
      match SaveUser(s.users, winnerId.value, Credit(s.users[winnerId.value], prizePool))
      case None => Step(s1, Fail(ServerError), [])
      case Some(users) => Step(s1.(users := users), Ok, [])
  }

  /** Nothing stops the same result from being posted twice, and each post
      pays again. */
  lemma HistoryPaysOnEveryPost(s: State, w: UserId, winnerCard: int, prizePool: int, numberOfPlayers: int, betAmount: int)
    requires w in s.users && ValidUser(s.users[w]) && prizePool >= 0
    ensures var t := PostHistory(s, Some(w), winnerCard, prizePool, numberOfPlayers, betAmount).state;
      var t2 := PostHistory(t, Some(w), winnerCard, prizePool, numberOfPlayers, betAmount).state;
      t2.users[w].wallet == s.users[w].wallet + 2 * prizePool && |t2.history| == |s.history| + 2
  {
  }

  /** PUT `/user/:userId/wallet`: the wallet is overwritten with no validation,
      so a negative amount breaks the wallet floor the schema otherwise keeps. */
  function PutWallet(s: State, userId: UserId, amount: int): (r: Step)
    ensures userId !in s.users ==> r == Unchanged(s, UserNotFound)
    ensures userId in s.users ==>
      && r.reply == Ok
      && r.state == s.(users := s.users[userId := s.users[userId].(wallet := amount)])
    ensures userId in s.users && amount < 0 ==> !AllUsersValid(r.state.users)
  {
    if userId !in s.users then Unchanged(s, UserNotFound)
    else
      var t := s.(users := s.users[userId := s.users[userId].(wallet := amount)]);
      assert amount < 0 ==> !ValidUser(t.users[userId]);
      Step(t, Ok, [])
  }

  /** PUT `/session/:id/status`: any status is written; a missing session
      answers with an empty body. */
  function SetSessionStatus(s: State, index: nat, status: SessionStatus): (r: Step)
    ensures r.reply == Ok
    ensures index >= |s.sessions| ==> r.state == s
    ensures index < |s.sessions| ==>
      r.state == s.(sessions := s.sessions[index := s.sessions[index].(status := status)])
  {
    if index >= |s.sessions| then Step(s, Ok, [])
    else Step(s.(sessions := s.sessions[index := s.sessions[index].(status := status)]), Ok, [])
  }

  /** The status update can bring back a second live session on a card that
      is already taken. */
  lemma StatusUpdateCanDuplicateLive()
    ensures var s := DoubleRefundExample().(sessions := [GameSession(0, 5, 10, SessionOther("completed")),
                                                           GameSession(1, 5, 10, SessionActive)]);
      NoDuplicateLive(s.sessions) && !NoDuplicateLive(SetSessionStatus(s, 0, SessionActive).state.sessions)
  {
    var s := DoubleRefundExample().(sessions := [GameSession(0, 5, 10, SessionOther("completed")),
                                                 GameSession(1, 5, 10, SessionActive)]);
    var t := SetSessionStatus(s, 0, SessionActive).state;
    assert IsLive(t.sessions[0]) && IsLive(t.sessions[1]);
  }
}
