/** The whole server state as one immutable value: every collection the
    handlers read or write, and what a handler returns. */
module Store {
  import opened Basics
  import opened Records

  type GameId = nat
  type CardId = nat

  /** A bingo card grid, as produced by the card generator (not part of this model). */
  type Grid = seq<int>

  datatype GameStatus = Waiting | Active | Completed

  /** A scheduled bingo game of the socket engine. */
  datatype Game = Game(
    name: string,
    cardCount: int,
    cardPrice: int,
    startTime: int,
    status: GameStatus,
    numberSequence: seq<int>,
    currentNumberIndex: nat,
    calledNumbers: seq<int>,
    winner: Option<UserId>,
    winningPattern: Option<string>,
    endTime: Option<int>)

  /** A purchased card; its id is its position in `State.cards`. */
  datatype BingoCard = BingoCard(
    gameId: GameId,
    userId: UserId,
    numbers: Grid,
    markedNumbers: seq<int>,
    isBlocked: bool,
    isWinner: bool)

  /** The separate record of a win kept next to the ledger entry. */
  datatype WinRecord = WinRecord(userId: UserId, gameId: GameId, cardId: CardId, amount: int, pattern: string)

  /** Status of a per-bet session of the HTTP game routes. */
  datatype SessionStatus = SessionActive | SessionPlaying | SessionOther(name: string)

  /** One card bought at one bet amount through the HTTP game routes. */
  datatype GameSession = GameSession(userId: UserId, cardNumber: int, betAmount: int, status: SessionStatus)

  /** A finished game reported to the history route. */
  datatype HistoryEntry = HistoryEntry(
    winnerId: Option<UserId>,
    winnerCard: int,
    prizePool: int,
    numberOfPlayers: int,
    betAmount: int)

  /** A player seated in a bet room of the legacy socket server. */
  datatype Player = Player(userId: UserId, cardId: int, socketId: string, isBlocked: bool)

  datatype RoomWinner = RoomWinner(userId: UserId, cardId: int)

  /** A bet room of the legacy socket server; its id is its position in `State.rooms`. */
  datatype BetSession = BetSession(
    betAmount: int,
    players: seq<Player>,
    isActive: bool,
    endTime: Option<int>,
    winner: Option<RoomWinner>)

  /** The lobby counter of a bet room. */
  datatype ActiveBet = ActiveBet(betAmount: int, playerCount: int, countdown: int, isAcceptingPlayers: bool)

  datatype State = State(
    users: map<UserId, User>,
    ledger: seq<Transaction>,
    games: map<GameId, Game>,
    cards: seq<BingoCard>,
    winnings: seq<WinRecord>,
    timers: set<GameId>,
    sessions: seq<GameSession>,
    history: seq<HistoryEntry>,
    rooms: seq<BetSession>,
    activeBets: seq<ActiveBet>,
    betGames: map<nat, int>,
    nextBetGameId: nat)

  /** Why a request was refused. `ServerError` is the catch-all 500 answer,
      given when a save throws after earlier writes may already have happened. */
  datatype Failure =
    | NotFound
    | UserNotFound
    | GameNotFound
    | SessionNotFound
    | PlayerNotFound
    | GameNotWaiting
    | CardLimitReached
    | InsufficientBalance
    | CardTaken
    | AlreadySelected
    | PlayerBlocked
    | InvalidDeclaration
    | CannotDeclare
    | FalseClaim
    | AlreadyWon
    | MinimumWithdrawal
    | VerificationFailed
    | InvalidBetAmount
    | ServerError

  datatype Reply = Ok | Fail(failure: Failure)

  /** What a handler broadcasts to the room. */
  datatype Event =
    | GameStarted(gameId: GameId)
    | NumberCalled(gameId: GameId, number: int, index: nat, total: nat)
    | GameEnded(gameId: GameId, winner: Option<UserId>, prize: int)
    | BingoRejected(gameId: GameId, userId: UserId)
    | CardSelected(cardId: int, userId: UserId, playerCount: nat)
    | LockScheduled(room: nat)
    | GameStarting(room: nat)
    | BetReopened(betAmount: int)
    | WinnerDeclared(userId: UserId, cardId: int, prize: int)

  /** The result of one handler: the new state, the answer to the caller and the broadcasts. */
  datatype Step = Step(state: State, reply: Reply, events: seq<Event>)

  function Unchanged(s: State, f: Failure): Step
  {
    Step(s, Fail(f), [])
  }

  /** Saving a user: the schema validators reject an invalid document. */
  function SaveUser(users: map<UserId, User>, id: UserId, u: User): Option<map<UserId, User>>
  {
    if ValidUser(u) then Some(users[id := u]) else None
  }
}
