/** The bingo round machine of the socket engine. Joining starts a game
    that is due, each timer tick calls the next number of the game's
    sequence, and a claim either wins the game (and pays the prize) or blocks
    the claiming card. */
module Round {
  import opened Basics
  import opened Records
  import opened Store

  /** `checkBingo(markedNumbers, numbers)`: the winning pattern, if any. */
  type BingoCheck = (seq<int>, Grid) -> Option<string>

  /** `calculatePrize(cardCount, cardPrice)`. */
  type PrizeRule = (int, int) -> int

  /** A waiting game whose start time has come. */
  predicate Due(g: Game, now: int) {
    g.status == Waiting && g.startTime <= now
  }

  /** `joinGame`: a due game becomes active and its number timer starts;
      any other game is left as it is. */
  function JoinGame(s: State, gameId: GameId, now: int): (r: Step)
    ensures gameId !in s.games <==> r.reply == Fail(GameNotFound)
    ensures gameId in s.games && Due(s.games[gameId], now) ==>
      && r.state == s.(games := r.state.games, timers := s.timers + {gameId})
      && r.state.games == s.games[gameId := s.games[gameId].(status := Active)]
    ensures !(gameId in s.games && Due(s.games[gameId], now)) ==> r.state == s
  {
    if gameId !in s.games then Unchanged(s, GameNotFound)
    else
      var g := s.games[gameId];
      if g.status == Waiting && g.startTime <= now then
        Step(s.(games := s.games[gameId := g.(status := Active)], timers := s.timers + {gameId}),
             Ok, [GameStarted(gameId)])
      else
        Step(s, Ok, [])
  }

  /** Joining a second time changes nothing more. */
  lemma JoinIsIdempotent(s: State, gameId: GameId, now: int)
    ensures JoinGame(JoinGame(s, gameId, now).state, gameId, now).state == JoinGame(s, gameId, now).state
  {
  }

  /** What one firing of the number-calling interval does to an active game:
      once the index has reached the last position the game ends with no
      winner; otherwise the index moves on by one and the number there is
      appended to the called numbers. Other games are left alone. */
  function AdvanceGame(g: Game, now: int): (h: Game)
    ensures h.winner == g.winner && h.numberSequence == g.numberSequence
    ensures g.status != Active ==> h == g
    ensures g.status == Active && g.currentNumberIndex + 1 >= |g.numberSequence| ==>
      h == g.(status := GameStatus.Completed, endTime := Some(now))
    ensures g.status == Active && g.currentNumberIndex + 1 < |g.numberSequence| ==>
      && h.status == Active
      && h.currentNumberIndex == g.currentNumberIndex + 1
      && h.currentNumberIndex < |h.numberSequence|
      && h.calledNumbers == g.calledNumbers + [g.numberSequence[h.currentNumberIndex]]
      && h.(currentNumberIndex := g.currentNumberIndex, calledNumbers := g.calledNumbers) == g
  {
    if g.status != Active then g
    else if g.currentNumberIndex >= |g.numberSequence| - 1 then
      g.(status := GameStatus.Completed, endTime := Some(now))
    else
      var i := g.currentNumberIndex + 1;
      g.(currentNumberIndex := i, calledNumbers := g.calledNumbers + [g.numberSequence[i]])
  }

  /** One firing of the number-calling interval. A game that is missing or
      not active only loses its timer; an active game advances as
      `AdvanceGame` says and loses its timer when it ends. */
  function Tick(s: State, gameId: GameId, now: int): (r: Step)
    ensures r.state == s.(games := r.state.games, timers := r.state.timers)
    ensures r.state.games.Keys == s.games.Keys
    ensures forall id :: id in s.games && id != gameId ==> r.state.games[id] == s.games[id]
    ensures gameId !in s.games || s.games[gameId].status != Active ==>
      r.state == s.(timers := s.timers - {gameId})
    ensures gameId in s.games ==> r.state.games[gameId] == AdvanceGame(s.games[gameId], now)
    ensures gameId in s.games && s.games[gameId].status == Active ==>
      r.state.timers == (if r.state.games[gameId].status == Active then s.timers else s.timers - {gameId})
  {
    if gameId !in s.games || s.games[gameId].status != Active then
      Step(s.(timers := s.timers - {gameId}), Ok, [])
    else
      var g := s.games[gameId];
      var h := AdvanceGame(g, now);
      if h.status != Active then
        Step(s.(games := s.games[gameId := h], timers := s.timers - {gameId}), Ok, [GameEnded(gameId, None, 0)])
      else
        Step(s.(games := s.games[gameId := h]), Ok,
             [NumberCalled(gameId, h.calledNumbers[|h.calledNumbers| - 1], h.currentNumberIndex, |h.numberSequence|)])
  }

  /** `n` firings of the interval with no claim in between. */
  function RunTicks(s: State, gameId: GameId, n: nat, now: int): (t: State)
    ensures t.games.Keys == s.games.Keys
  {
    if n == 0 then s else Tick(RunTicks(s, gameId, n - 1, now), gameId, now).state
  }

  /** The game after `n` firings. */
  function AdvanceTimes(g: Game, n: nat, now: int): Game
  {
    if n == 0 then g else AdvanceGame(AdvanceTimes(g, n - 1, now), now)
  }

  /** Ticks act on the state exactly as `AdvanceTimes` acts on the game. */
  lemma {:induction false} RunTicksAdvances(s: State, gameId: GameId, n: nat, now: int)
    requires gameId in s.games
    ensures RunTicks(s, gameId, n, now).games[gameId] == AdvanceTimes(s.games[gameId], n, now)
  {
    if n > 0 {
      RunTicksAdvances(s, gameId, n - 1, now);
      var prev := RunTicks(s, gameId, n - 1, now);
      assert gameId in prev.games;
      var r := Tick(prev, gameId, now);
      assert RunTicks(s, gameId, n, now) == r.state;
      assert r.state.games[gameId] == AdvanceGame(prev.games[gameId], now);
    }
  }

  /** While numbers remain, each tick calls the next one in sequence order:
      after `n` ticks the called numbers have grown by exactly the next `n`
      entries of the sequence and the game is still active. */
  lemma {:induction false} TicksCallNextNumbers(g: Game, n: nat, now: int)
    requires g.status == Active
    requires g.currentNumberIndex + n < |g.numberSequence|
    ensures
      var h := AdvanceTimes(g, n, now);
      && h.status == Active
      && h.winner == g.winner
      && h.numberSequence == g.numberSequence
      && h.currentNumberIndex == g.currentNumberIndex + n
      && h.calledNumbers == g.calledNumbers + g.numberSequence[g.currentNumberIndex + 1 .. g.currentNumberIndex + n + 1]
  {
    var i := g.currentNumberIndex;
    if n == 0 {
      assert g.numberSequence[i + 1 .. i + 1] == [];
    } else {
      TicksCallNextNumbers(g, n - 1, now);
      assert g.numberSequence[i + 1 .. i + n + 1] == g.numberSequence[i + 1 .. i + n] + [g.numberSequence[i + n]];
    }
  }

  /** A game whose sequence runs out without a claim ends with no winner,
      after every remaining number has been called exactly once. */
  lemma ExhaustedGameEndsWithoutWinner(g: Game, now: int)
    requires g.status == Active
    requires g.currentNumberIndex < |g.numberSequence|
    ensures
      var h := AdvanceTimes(g, |g.numberSequence| - g.currentNumberIndex, now);
      && h.status == GameStatus.Completed
      && h.winner == g.winner
      && h.endTime == Some(now)
      && h.calledNumbers == g.calledNumbers + g.numberSequence[g.currentNumberIndex + 1 ..]
  {
    var k := |g.numberSequence| - g.currentNumberIndex;
    TicksCallNextNumbers(g, k - 1, now);
    assert g.numberSequence[g.currentNumberIndex + 1 .. g.currentNumberIndex + k] == g.numberSequence[g.currentNumberIndex + 1 ..];
  }

  /** The checks a claim must pass before the card is examined: the game and
      the card exist, the card's owner exists and is the caller, the card is
      not blocked and the game is active. */
  predicate ClaimAllowed(s: State, gameId: GameId, cardId: CardId, caller: UserId) {
    && gameId in s.games
    && cardId < |s.cards|
    && s.cards[cardId].userId in s.users
    && s.cards[cardId].userId == caller
    && !s.cards[cardId].isBlocked
    && s.games[gameId].status == Active
  }

  /** The ledger entry of a win. */
  function WinEntry(caller: UserId, gameId: GameId, cardId: CardId, prize: int, ref: string): Transaction
  {
    Transaction(caller, Winning, prize, TxStatus.Completed, ref, Some(gameId), Some(cardId))
  }

  /** The prize of a game. */
  function PrizeOf(s: State, gameId: GameId, calculatePrize: PrizeRule): int
    requires gameId in s.games
  {
    calculatePrize(s.games[gameId].cardCount, s.games[gameId].cardPrice)
  }

  /** The card and game writes of a successful pattern check: the card is
      marked the winner, the game completed with the caller, pattern and end
      time, and the game's timer cleared. */
  function Ended(s: State, gameId: GameId, cardId: CardId, caller: UserId, pattern: string, now: int): State
    requires gameId in s.games && cardId < |s.cards|
  {
    s.(cards := s.cards[cardId := s.cards[cardId].(isWinner := true)],
       games := s.games[gameId := s.games[gameId].(winner := Some(caller), winningPattern := Some(pattern),
                                                   status := GameStatus.Completed, endTime := Some(now))],
       timers := s.timers - {gameId})
  }

  /** A successful pattern check: the card and the game are marked and saved,
      the timer is cleared, the prize is credited and recorded. */
  function Settle(s: State, gameId: GameId, cardId: CardId, caller: UserId, pattern: string,
                  prize: int, now: int, ref: string): Step
    requires gameId in s.games && cardId < |s.cards| && caller in s.users
  {
    var s1 := Ended(s, gameId, cardId, caller, pattern, now);
    match SaveUser(s.users, caller, Credit(s.users[caller], prize))
    case None => Step(s1, Fail(ServerError), [])
    case Some(users) =>
      var s2 := s1.(users := users, winnings := s.winnings + [WinRecord(caller, gameId, cardId, prize, pattern)]);
      match SaveNew(s.ledger, WinEntry(caller, gameId, cardId, prize, ref))
      case None => Step(s2, Fail(ServerError), [])
      case Some(ledger) => Step(s2.(ledger := ledger), Ok, [GameEnded(gameId, Some(caller), prize)])
  }

  /** `declareBingo` with the card and game writes taking effect (see
      `DeclareBingoAsWritten` for the handler as it stands). */
  function DeclareBingo(s: State, gameId: GameId, cardId: CardId, caller: UserId,
                        checkBingo: BingoCheck, calculatePrize: PrizeRule, now: int, ref: string): (r: Step)
    ensures r.state.games.Keys == s.games.Keys && r.state.users.Keys == s.users.Keys
    ensures forall id :: id in s.games && id != gameId ==> r.state.games[id] == s.games[id]
    ensures forall id :: id in s.users && id != caller ==> r.state.users[id] == s.users[id]
    ensures |r.state.cards| == |s.cards|
    // a rejected claim changes nothing
    ensures !ClaimAllowed(s, gameId, cardId, caller) ==> r.state == s && r.reply.Fail?
    // a losing claim blocks the card and nothing else
    ensures ClaimAllowed(s, gameId, cardId, caller)
            && checkBingo(s.cards[cardId].markedNumbers, s.cards[cardId].numbers).None? ==>
      && r.reply == Fail(FalseClaim)
      && r.state == s.(cards := s.cards[cardId := s.cards[cardId].(isBlocked := true)])
    // a winning claim ends the game with the caller as winner
    ensures ClaimAllowed(s, gameId, cardId, caller)
            && checkBingo(s.cards[cardId].markedNumbers, s.cards[cardId].numbers).Some? ==>
      && r.state.games[gameId].status == GameStatus.Completed
      && r.state.games[gameId].winner == Some(caller)
      && r.state.games[gameId].endTime == Some(now)
      && r.state.cards[cardId].isWinner
      && gameId !in r.state.timers
    // ... and pays the prize once, into the wallet and all three earnings counters
    ensures r.reply == Ok <==>
      && ClaimAllowed(s, gameId, cardId, caller)
      && checkBingo(s.cards[cardId].markedNumbers, s.cards[cardId].numbers).Some?
      && ValidUser(Credit(s.users[caller], PrizeOf(s, gameId, calculatePrize)))
      && PrizeOf(s, gameId, calculatePrize) >= 0
      && FindReference(s.ledger, ref).None?
    ensures r.reply == Ok ==>
      var prize := PrizeOf(s, gameId, calculatePrize);
      && r.state.users == s.users[caller := Credit(s.users[caller], prize)]
      && r.state.ledger == s.ledger + [WinEntry(caller, gameId, cardId, prize, ref)]
    // a winning claim writes the card, the game and the timer first; a failed
    // credit stops there, a failed ledger entry after the wallet and win record
    ensures ClaimAllowed(s, gameId, cardId, caller)
            && checkBingo(s.cards[cardId].markedNumbers, s.cards[cardId].numbers).Some? ==>
      var pattern := checkBingo(s.cards[cardId].markedNumbers, s.cards[cardId].numbers).value;
      var prize := PrizeOf(s, gameId, calculatePrize);
      var ended := Ended(s, gameId, cardId, caller, pattern, now);
      var paid := ended.(users := s.users[caller := Credit(s.users[caller], prize)],
                         winnings := s.winnings + [WinRecord(caller, gameId, cardId, prize, pattern)]);
      && (!ValidUser(Credit(s.users[caller], prize)) ==> r.state == ended && r.reply == Fail(ServerError))
      && (ValidUser(Credit(s.users[caller], prize)) ==> r.state == paid.(ledger := r.state.ledger))
      && ended == s.(cards := ended.cards, games := ended.games, timers := ended.timers)
    // the ledger only ever grows by the entry of a win that completed the game
    ensures r.state.ledger != s.ledger ==>
      && r.state.ledger == s.ledger + [WinEntry(caller, gameId, cardId, PrizeOf(s, gameId, calculatePrize), ref)]
      && r.state.games[gameId].status == GameStatus.Completed
    ensures r.reply != Ok ==> r.state.ledger == s.ledger
    ensures forall c :: 0 <= c < |s.cards| && c != cardId ==> r.state.cards[c] == s.cards[c]
    ensures AllUsersValid(s.users) ==> AllUsersValid(r.state.users)
  {
    if gameId !in s.games || cardId >= |s.cards| then Unchanged(s, InvalidDeclaration)
    else if s.cards[cardId].userId !in s.users then Unchanged(s, ServerError)
    else if s.cards[cardId].userId != caller then Unchanged(s, InvalidDeclaration)
    else if s.cards[cardId].isBlocked || s.games[gameId].status != Active then Unchanged(s, CannotDeclare)
    else
      var card := s.cards[cardId];
      match checkBingo(card.markedNumbers, card.numbers)
      case None =>
        Step(s.(cards := s.cards[cardId := card.(isBlocked := true)]), Fail(FalseClaim), [BingoRejected(gameId, caller)])
      case Some(pattern) =>
        Settle(s, gameId, cardId, caller, pattern, PrizeOf(s, gameId, calculatePrize), now, ref)
  }

  /** `declareBingo` as it stands: the card is read with `.lean()`, a plain
      object without `save`, so both branches throw at `card.save()` before any
      write and the handler answers with its generic error. */
  function DeclareBingoAsWritten(s: State, gameId: GameId, cardId: CardId, caller: UserId,
                                 checkBingo: BingoCheck, calculatePrize: PrizeRule, now: int, ref: string): (r: Step)
    ensures r.state == s
    ensures r.reply.Fail?
    ensures ClaimAllowed(s, gameId, cardId, caller) ==> r.reply == Fail(ServerError)
  {
    if gameId !in s.games || cardId >= |s.cards| then Unchanged(s, InvalidDeclaration)
    else if s.cards[cardId].userId !in s.users then Unchanged(s, ServerError)
    else if s.cards[cardId].userId != caller then Unchanged(s, InvalidDeclaration)
    else if s.cards[cardId].isBlocked || s.games[gameId].status != Active then Unchanged(s, CannotDeclare)
    else Unchanged(s, ServerError)
  }

  /** As written, a false claim never blocks the card, so the same card may
      claim again and again; the intended handler blocks it after one try. */
  lemma AsWrittenFalseClaimNeverBlocks(s: State, gameId: GameId, cardId: CardId, caller: UserId,
                                       checkBingo: BingoCheck, calculatePrize: PrizeRule, now: int, ref: string)
    requires ClaimAllowed(s, gameId, cardId, caller)
    requires checkBingo(s.cards[cardId].markedNumbers, s.cards[cardId].numbers).None?
    ensures var r := DeclareBingoAsWritten(s, gameId, cardId, caller, checkBingo, calculatePrize, now, ref);
      ClaimAllowed(r.state, gameId, cardId, caller)
    ensures var r := DeclareBingo(s, gameId, cardId, caller, checkBingo, calculatePrize, now, ref);
      !ClaimAllowed(r.state, gameId, cardId, caller)
  {
  }

  /** As written, a winning claim neither ends the game nor pays: the game
      stays active, so the round goes on and can be won again. */
  lemma AsWrittenWinNeverPays(s: State, gameId: GameId, cardId: CardId, caller: UserId,
                              checkBingo: BingoCheck, calculatePrize: PrizeRule, now: int, ref: string)
    requires ClaimAllowed(s, gameId, cardId, caller)
    requires checkBingo(s.cards[cardId].markedNumbers, s.cards[cardId].numbers).Some?
    ensures var r := DeclareBingoAsWritten(s, gameId, cardId, caller, checkBingo, calculatePrize, now, ref);
      r.state.games[gameId].status == Active && r.state.games[gameId].winner == s.games[gameId].winner
    ensures var r := DeclareBingo(s, gameId, cardId, caller, checkBingo, calculatePrize, now, ref);
      r.state.games[gameId].status == GameStatus.Completed
  {
  }

  /** The claim never compares the card's game with the claimed game, so a
      card bought for one game can win another. */
  lemma ClaimAcceptsCardOfAnotherGame(s: State, gameId: GameId, cardId: CardId, caller: UserId,
                                      checkBingo: BingoCheck, calculatePrize: PrizeRule, now: int, ref: string)
    requires ClaimAllowed(s, gameId, cardId, caller)
    requires s.cards[cardId].gameId != gameId
    requires checkBingo(s.cards[cardId].markedNumbers, s.cards[cardId].numbers).Some?
    ensures DeclareBingo(s, gameId, cardId, caller, checkBingo, calculatePrize, now, ref).state.games[gameId].winner == Some(caller)
  {
  }

  /** The events one game's round may receive, in the order the server handles them. */
  datatype RoundInput =
    | Join(at: int)
    | TickAt(at: int)
    | Claim(cardId: CardId, caller: UserId, ref: string, at: int)

  function RoundStep(s: State, gameId: GameId, input: RoundInput,
                     checkBingo: BingoCheck, calculatePrize: PrizeRule): Step
  {
    match input
    case Join(t) => JoinGame(s, gameId, t)
    case TickAt(t) => Tick(s, gameId, t)
    case Claim(c, u, ref, t) => DeclareBingo(s, gameId, c, u, checkBingo, calculatePrize, t, ref)
  }

  /** Handles the inputs one after another. */
  function RunRound(s: State, gameId: GameId, inputs: seq<RoundInput>,
                    checkBingo: BingoCheck, calculatePrize: PrizeRule): State
    decreases |inputs|
  {
    if |inputs| == 0 then s
    else RunRound(RoundStep(s, gameId, inputs[0], checkBingo, calculatePrize).state, gameId, inputs[1..],
                  checkBingo, calculatePrize)
  }

  /** Number of winning entries recorded for a game. */
  function WinsFor(ledger: seq<Transaction>, gameId: GameId): nat
  {
    Count(ledger, (t: Transaction) => t.kind == Winning && t.gameId == Some(gameId))
  }

  /** A completed game is final: no join, tick or claim on it changes the
      game, the cards, the wallets or the ledger. */
  lemma {:induction false} CompletedGameIsFinal(s: State, gameId: GameId, inputs: seq<RoundInput>,
                                                checkBingo: BingoCheck, calculatePrize: PrizeRule)
    requires gameId in s.games && s.games[gameId].status == GameStatus.Completed
    ensures var t := RunRound(s, gameId, inputs, checkBingo, calculatePrize);
      t.ledger == s.ledger && t.users == s.users && t.games == s.games && t.cards == s.cards
    decreases |inputs|
  {
    if |inputs| > 0 {
      var s' := RoundStep(s, gameId, inputs[0], checkBingo, calculatePrize).state;
      assert s'.ledger == s.ledger && s'.users == s.users && s'.games == s.games && s'.cards == s.cards;
      CompletedGameIsFinal(s', gameId, inputs[1..], checkBingo, calculatePrize);
    }
  }

  /** Whatever joins, ticks and claims arrive, a game records at most one win. */
  lemma {:induction false} RoundPaysAtMostOnce(s: State, gameId: GameId, inputs: seq<RoundInput>,
                                               checkBingo: BingoCheck, calculatePrize: PrizeRule)
    ensures WinsFor(RunRound(s, gameId, inputs, checkBingo, calculatePrize).ledger, gameId) <= WinsFor(s.ledger, gameId) + 1
    decreases |inputs|
  {
    if |inputs| > 0 {
      var r := RoundStep(s, gameId, inputs[0], checkBingo, calculatePrize);
      if r.state.ledger == s.ledger {
        RoundPaysAtMostOnce(r.state, gameId, inputs[1..], checkBingo, calculatePrize);
      } else {
        var c := inputs[0];
        assert c.Claim?;
        var e := WinEntry(c.caller, gameId, c.cardId, PrizeOf(s, gameId, calculatePrize), c.ref);
        assert r.state.ledger == s.ledger + [e];
        CountAppend(s.ledger, e, (t: Transaction) => t.kind == Winning && t.gameId == Some(gameId));
        CompletedGameIsFinal(r.state, gameId, inputs[1..], checkBingo, calculatePrize);
      }
    }
  }
}
