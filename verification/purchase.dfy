/** Card purchase for a scheduled game: the guards, the card, the debit and
    the ledger entry. */
module Purchase {
  import opened Basics
  import opened Records
  import opened Store

  /** Number of cards a user holds in a game. */
  function CardsOf(cards: seq<BingoCard>, gameId: GameId, userId: UserId): nat
  {
    Count(cards, (c: BingoCard) => c.gameId == gameId && c.userId == userId)
  }

  /** The checks of a purchase: the game exists and is waiting, the user holds
      fewer than two of its cards, exists, and can pay the card price. */
  predicate PurchaseAllowed(s: State, gameId: GameId, userId: UserId) {
    && gameId in s.games
    && s.games[gameId].status == Waiting
    && CardsOf(s.cards, gameId, userId) < 2
    && userId in s.users
    && s.users[userId].wallet >= s.games[gameId].cardPrice
  }

  /** `purchaseCard`: create the card, debit the price, record the purchase. */
  function PurchaseCard(s: State, gameId: GameId, userId: UserId, numbers: Grid, ref: string): (r: Step)
    ensures r.state == s <==> !PurchaseAllowed(s, gameId, userId)
    ensures !PurchaseAllowed(s, gameId, userId) ==> r.reply.Fail?
    ensures r.reply == Ok <==>
      && PurchaseAllowed(s, gameId, userId)
      && s.games[gameId].cardPrice >= 0
      && ValidUser(s.users[userId].(wallet := s.users[userId].wallet - s.games[gameId].cardPrice))
      && FindReference(s.ledger, ref).None?
    ensures r.reply == Ok ==>
      var price := s.games[gameId].cardPrice;
      && r.state.cards == s.cards + [BingoCard(gameId, userId, numbers, [], false, false)]
      && CardsOf(r.state.cards, gameId, userId) == CardsOf(s.cards, gameId, userId) + 1
      && r.state.users == s.users[userId := s.users[userId].(wallet := s.users[userId].wallet - price)]
      && r.state.ledger == s.ledger + [Transaction(userId, GamePurchase, price, TxStatus.Completed, ref, Some(gameId), Some(|s.cards|))]
      && r.state == s.(cards := r.state.cards, users := r.state.users, ledger := r.state.ledger)
    // the card is saved first and stays when a later save throws; the debit
    // stays when only the purchase entry is refused
    ensures PurchaseAllowed(s, gameId, userId) ==>
      var card := BingoCard(gameId, userId, numbers, [], false, false);
      var debited := s.users[userId].(wallet := s.users[userId].wallet - s.games[gameId].cardPrice);
      && (!ValidUser(debited) ==> r == Step(s.(cards := s.cards + [card]), Fail(ServerError), []))
      && (ValidUser(debited) && r.reply != Ok ==>
            r == Step(s.(cards := s.cards + [card], users := s.users[userId := debited]), Fail(ServerError), []))
    ensures AllUsersValid(s.users) ==> AllUsersValid(r.state.users)
  {
    if gameId !in s.games then Unchanged(s, GameNotFound)
    else
      var game := s.games[gameId];
      if game.status != Waiting then Unchanged(s, GameNotWaiting)
      else if CardsOf(s.cards, gameId, userId) >= 2 then Unchanged(s, CardLimitReached)
      else if userId !in s.users || s.users[userId].wallet < game.cardPrice then Unchanged(s, InsufficientBalance)
      else
        var card := BingoCard(gameId, userId, numbers, [], false, false);
        var s1 := s.(cards := s.cards + [card]);
        CountAppend(s.cards, card, (c: BingoCard) => c.gameId == gameId && c.userId == userId);
        match SaveUser(s.users, userId, s.users[userId].(wallet := s.users[userId].wallet - game.cardPrice))
        case None => Step(s1, Fail(ServerError), [])
        case Some(users) =>
          var s2 := s1.(users := users);
          match SaveNew(s.ledger, Transaction(userId, GamePurchase, game.cardPrice, TxStatus.Completed, ref, Some(gameId), Some(|s.cards|)))
          case None => Step(s2, Fail(ServerError), [])
          case Some(ledger) => Step(s2.(ledger := ledger), Ok, [])
  }

  /** A purchase under a reference already in the ledger keeps the new card
      and the debit but records no purchase: the user pays for a card the
      ledger does not show. */
  lemma ReusedReferenceLeavesUnrecordedCard(s: State, gameId: GameId, userId: UserId, numbers: Grid, ref: string)
    requires PurchaseAllowed(s, gameId, userId) && ValidUser(s.users[userId])
    requires s.games[gameId].cardPrice >= 0
    requires FindReference(s.ledger, ref).Some?
    ensures var r := PurchaseCard(s, gameId, userId, numbers, ref);
      && r.reply == Fail(ServerError)
      && |r.state.cards| == |s.cards| + 1
      && r.state.users[userId].wallet == s.users[userId].wallet - s.games[gameId].cardPrice
      && r.state.ledger == s.ledger
  {
  }

  /** No user ever holds more than two cards of one game through purchases. */
  lemma PurchaseKeepsCardLimit(s: State, gameId: GameId, userId: UserId, numbers: Grid, ref: string,
                               g: GameId, u: UserId)
    requires CardsOf(s.cards, g, u) <= 2
    ensures CardsOf(PurchaseCard(s, gameId, userId, numbers, ref).state.cards, g, u) <= 2
  {
    var r := PurchaseCard(s, gameId, userId, numbers, ref);
    if r.state.cards != s.cards {
      var card := BingoCard(gameId, userId, numbers, [], false, false);
      assert r.state.cards == s.cards + [card];
      CountAppend(s.cards, card, (c: BingoCard) => c.gameId == g && c.userId == u);
    }
  }
}
