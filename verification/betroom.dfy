/** The legacy bet-room machine of the standalone socket server: card
    selection into the open room of a bet amount, the lock that closes a room
    once it has two players, the lobby counter reset, and the bingo claim. */
module BetRoom {
  import opened Basics
  import opened Records
  import opened Store

  /** The win check of the legacy server (never defined there): card id and
      called numbers to a verdict. */
  type WinCheck = (int, seq<int>) -> bool

  predicate HasCard(room: BetSession, cardId: int) {
    exists k :: 0 <= k < |room.players| && room.players[k].cardId == cardId
  }

  predicate HasUser(room: BetSession, userId: UserId) {
    exists k :: 0 <= k < |room.players| && room.players[k].userId == userId
  }

  /** A room still accepting players for this bet amount. */
  predicate OpenFor(room: BetSession, betAmount: int) {
    room.isActive && room.betAmount == betAmount
  }

  /** Some open room of this bet amount already holds the card. */
  predicate CardTakenFor(rooms: seq<BetSession>, betAmount: int, cardId: int) {
    exists i :: 0 <= i < |rooms| && OpenFor(rooms[i], betAmount) && HasCard(rooms[i], cardId)
  }

  /** Some open room of this bet amount already seats the user. */
  predicate UserSeatedFor(rooms: seq<BetSession>, betAmount: int, userId: UserId) {
    exists i :: 0 <= i < |rooms| && OpenFor(rooms[i], betAmount) && HasUser(rooms[i], userId)
  }

  /** The open room of a bet amount, as the lookup finds it. */
  function OpenRoom(rooms: seq<BetSession>, betAmount: int): Option<nat>
  {
    FirstWhere(rooms, (x: BetSession) => OpenFor(x, betAmount))
  }

  /** The lobby counter of a bet amount, as the lookup finds it. */
  function CounterOf(bets: seq<ActiveBet>, betAmount: int): Option<nat>
  {
    FirstWhere(bets, (a: ActiveBet) => a.betAmount == betAmount)
  }

  /** Within a room no card and no user appears twice. */
  predicate DistinctSeats(ps: seq<Player>) {
    forall a, b :: 0 <= a < b < |ps| ==> ps[a].cardId != ps[b].cardId && ps[a].userId != ps[b].userId
  }

  /** The room invariant: at most one open room per bet amount, and distinct
      cards and users within every room. */
  predicate RoomsWellFormed(rooms: seq<BetSession>) {
    && (forall i, j :: 0 <= i < j < |rooms| && rooms[i].isActive && rooms[j].isActive ==>
          rooms[i].betAmount != rooms[j].betAmount)
    && (forall i :: 0 <= i < |rooms| ==> DistinctSeats(rooms[i].players))
  }

  /** The room a selection goes into and that room's players afterwards. */
  function Seat(rooms: seq<BetSession>, betAmount: int, p: Player): (r: (nat, seq<BetSession>))
    ensures OpenRoom(rooms, betAmount).None? ==>
      r.0 == |rooms| && r.1 == rooms + [BetSession(betAmount, [p], true, None, None)]
    ensures OpenRoom(rooms, betAmount).Some? ==>
      var i := OpenRoom(rooms, betAmount).value;
      r.0 == i && r.1 == rooms[i := rooms[i].(players := rooms[i].players + [p])]
    ensures r.0 < |r.1| && OpenFor(r.1[r.0], betAmount) && r.1[r.0].players[|r.1[r.0].players| - 1] == p
  {
    match OpenRoom(rooms, betAmount)
    case None => (|rooms|, rooms + [BetSession(betAmount, [p], true, None, None)])
    case Some(i) => (i, rooms[i := rooms[i].(players := rooms[i].players + [p])])
  }

  /** `select-card`: refuse a card already in an open room of the bet, or a
      user already seated there; otherwise seat the player in the open room
      (creating it if there is none), copy the room size into the lobby
      counter, announce the selection and, from two players on, schedule the
      lock. */
  function SelectCard(s: State, betAmount: int, cardId: int, userId: UserId, socketId: string): (r: Step)
    ensures CardTakenFor(s.rooms, betAmount, cardId) ==> r == Unchanged(s, CardTaken)
    ensures !CardTakenFor(s.rooms, betAmount, cardId) && UserSeatedFor(s.rooms, betAmount, userId) ==>
      r == Unchanged(s, AlreadySelected)
    ensures r.reply == Ok <==> !CardTakenFor(s.rooms, betAmount, cardId) && !UserSeatedFor(s.rooms, betAmount, userId)
    ensures r.reply == Ok ==>
      var (room, rooms) := Seat(s.rooms, betAmount, Player(userId, cardId, socketId, false));
      var n := |rooms[room].players|;
      && r.state.rooms == rooms
      && r.state == s.(rooms := r.state.rooms, activeBets := r.state.activeBets)
      && |r.state.activeBets| == |s.activeBets|
      && (forall j :: 0 <= j < |s.activeBets| ==>
            r.state.activeBets[j] ==
              (if CounterOf(s.activeBets, betAmount) == Some(j) then s.activeBets[j].(playerCount := n) else s.activeBets[j]))
      && |r.events| >= 1 && r.events[0] == CardSelected(cardId, userId, n)
      && (LockScheduled(room) in r.events <==> n >= 2)
  {
    var taken := FirstWhere(s.rooms, (x: BetSession) => OpenFor(x, betAmount) && HasCard(x, cardId));
    var seated := FirstWhere(s.rooms, (x: BetSession) => OpenFor(x, betAmount) && HasUser(x, userId));
    if taken.Some? then Unchanged(s, CardTaken)
    else if seated.Some? then Unchanged(s, AlreadySelected)
    else
      var (room, rooms) := Seat(s.rooms, betAmount, Player(userId, cardId, socketId, false));
      var n := |rooms[room].players|;
      var bets := match CounterOf(s.activeBets, betAmount)
        case None => s.activeBets
        case Some(j) => s.activeBets[j := s.activeBets[j].(playerCount := n)];
      var events := [CardSelected(cardId, userId, n)] + (if n >= 2 then [LockScheduled(room)] else []);
      Step(s.(rooms := rooms, activeBets := bets), Ok, events)
  }

  /** Card selection keeps the room invariant. */
  lemma SelectCardKeepsRooms(s: State, betAmount: int, cardId: int, userId: UserId, socketId: string)
    requires RoomsWellFormed(s.rooms)
    ensures RoomsWellFormed(SelectCard(s, betAmount, cardId, userId, socketId).state.rooms)
  {
    var r := SelectCard(s, betAmount, cardId, userId, socketId);
    if r.reply == Ok {
      var p := Player(userId, cardId, socketId, false);
      match OpenRoom(s.rooms, betAmount)
      case None =>
        var rooms := s.rooms + [BetSession(betAmount, [p], true, None, None)];
        assert r.state.rooms == rooms;
        forall i, j | 0 <= i < j < |rooms| && rooms[i].isActive && rooms[j].isActive
          ensures rooms[i].betAmount != rooms[j].betAmount
        {
          if j == |s.rooms| {
            assert !OpenFor(s.rooms[i], betAmount);
          }
        }
      case Some(i) =>
        var ps := s.rooms[i].players + [p];
        assert OpenFor(s.rooms[i], betAmount);
        assert !HasCard(s.rooms[i], cardId) && !HasUser(s.rooms[i], userId);
        forall a, b | 0 <= a < b < |ps|
          ensures ps[a].cardId != ps[b].cardId && ps[a].userId != ps[b].userId
        {
          if b == |ps| - 1 {
            assert ps[a] == s.rooms[i].players[a];
          } else {
            assert ps[a] == s.rooms[i].players[a] && ps[b] == s.rooms[i].players[b];
          }
        }
        assert DistinctSeats(ps);
    }
  }

  /** The scheduled lock: the room stops accepting players and the game starts. */
  function Lock(s: State, room: nat): (r: Step)
    requires room < |s.rooms|
    ensures r.reply == Ok
    ensures |r.state.rooms| == |s.rooms|
    ensures !r.state.rooms[room].isActive
    ensures r.state.rooms[room].(isActive := s.rooms[room].isActive) == s.rooms[room]
    ensures r.state == s.(rooms := r.state.rooms)
    ensures forall j :: 0 <= j < |s.rooms| && j != room ==> r.state.rooms[j] == s.rooms[j]
    ensures r.events == [GameStarting(room)]
  {
    Step(s.(rooms := s.rooms[room := s.rooms[room].(isActive := false)]), Ok, [GameStarting(room)])
  }

  /** Locking keeps the room invariant, and a second lock of the same room
      changes nothing more. */
  lemma LockKeepsRoomsAndIsIdempotent(s: State, room: nat)
    requires room < |s.rooms|
    ensures RoomsWellFormed(s.rooms) ==> RoomsWellFormed(Lock(s, room).state.rooms)
    ensures Lock(Lock(s, room).state, room).state == Lock(s, room).state
  {
    var t := Lock(s, room).state;
    assert t.rooms[room := t.rooms[room].(isActive := false)] == t.rooms;
  }

  /** The lobby reset some time after a game starts: a fresh counter for the
      bet amount is appended. */
  function Reopen(s: State, betAmount: int): (r: Step)
    ensures r.state == s.(activeBets := s.activeBets + [ActiveBet(betAmount, 0, 30, true)])
    ensures r.reply == Ok && r.events == [BetReopened(betAmount)]
  {
    Step(s.(activeBets := s.activeBets + [ActiveBet(betAmount, 0, 30, true)]), Ok, [BetReopened(betAmount)])
  }

  /** The counter a reset appends is never the one the lookup finds when an
      older counter for the same bet exists, so card selection keeps updating
      the older counter and the fresh one stays at zero players. */
  lemma ReopenedCounterIsNeverUpdated(s: State, betAmount: int, cardId: int, userId: UserId, socketId: string)
    requires CounterOf(s.activeBets, betAmount).Some?
    ensures var t := Reopen(s, betAmount).state;
      var u := SelectCard(t, betAmount, cardId, userId, socketId).state;
      |u.activeBets| == |s.activeBets| + 1 && u.activeBets[|s.activeBets|] == ActiveBet(betAmount, 0, 30, true)
  {
    var t := Reopen(s, betAmount).state;
    var k := CounterOf(s.activeBets, betAmount).value;
    assert t.activeBets[k] == s.activeBets[k];
    FirstWhereSamePrefix(s.activeBets, t.activeBets, (a: ActiveBet) => a.betAmount == betAmount);
  }

  /** A first match within a prefix is the first match of the longer sequence. */
  lemma FirstWhereSamePrefix<T>(xs: seq<T>, ys: seq<T>, p: T -> bool)
    requires |xs| <= |ys| && xs == ys[..|xs|]
    requires FirstWhere(xs, p).Some?
    ensures FirstWhere(ys, p) == FirstWhere(xs, p)
  {
    var k := FirstWhere(xs, p).value;
    assert ys[k] == xs[k];
    assert forall j :: 0 <= j < k ==> ys[j] == xs[j];
  }

  /** The five bet amounts the server starts with. */
  const StartingBets: seq<int> := [10, 20, 30, 50, 100]

  /** The counters after `bets` are fresh ones, each for a starting amount
      that had no counter before it. */
  predicate AppendedFresh(bets: seq<ActiveBet>, r: seq<ActiveBet>) {
    && |r| >= |bets| && r[..|bets|] == bets
    && forall k :: |bets| <= k < |r| ==>
         && r[k] == ActiveBet(r[k].betAmount, 0, 30, true)
         && r[k].betAmount in StartingBets
         && CounterOf(r[..k], r[k].betAmount).None?
  }

  /** Appending a fresh counter for a starting amount that has none keeps the
      appended part fresh, and gives that amount its counter. */
  lemma AppendCounter(bets: seq<ActiveBet>, r: seq<ActiveBet>, amount: int)
    requires AppendedFresh(bets, r)
    requires amount in StartingBets && CounterOf(r, amount).None?
    ensures AppendedFresh(bets, r + [ActiveBet(amount, 0, 30, true)])
    ensures CounterOf(r + [ActiveBet(amount, 0, 30, true)], amount).Some?
  {
    var x := ActiveBet(amount, 0, 30, true);
    var r' := r + [x];
    assert r'[..|r|] == r;
    assert r'[..|bets|] == r[..|bets|];
    forall k | |bets| <= k < |r|
      ensures r'[..k] == r[..k]
    {
    }
    FirstWhereAppendMatch(r, x, (a: ActiveBet) => a.betAmount == amount);
  }

  /** Start-up: every starting bet amount without a counter gets a fresh one;
      existing counters are kept as they are. */
  method InitializeActiveBets(bets: seq<ActiveBet>) returns (r: seq<ActiveBet>)
    ensures |r| >= |bets| && r[..|bets|] == bets
    ensures forall k :: |bets| <= k < |r| ==> r[k].playerCount == 0 && r[k].countdown == 30 && r[k].isAcceptingPlayers
    // each appended counter is for a starting amount that had none before it
    ensures forall k :: |bets| <= k < |r| ==> r[k].betAmount in StartingBets && CounterOf(r[..k], r[k].betAmount).None?
    ensures forall a :: 0 <= a < |StartingBets| ==> CounterOf(r, StartingBets[a]).Some?
    ensures (forall a :: 0 <= a < |StartingBets| ==> CounterOf(bets, StartingBets[a]).Some?) ==> r == bets
  {
    r := bets;
    var i := 0;
    while i < |StartingBets|
      invariant 0 <= i <= |StartingBets|
      invariant AppendedFresh(bets, r)
      invariant forall a :: 0 <= a < i ==> CounterOf(r, StartingBets[a]).Some?
      invariant (forall a :: 0 <= a < |StartingBets| ==> CounterOf(bets, StartingBets[a]).Some?) ==> r == bets
    {
      var amount := StartingBets[i];
      var before := r;
      if CounterOf(r, amount).None? {
        AppendCounter(bets, r, amount);
        r := r + [ActiveBet(amount, 0, 30, true)];
      }
      forall a | 0 <= a < i
        ensures CounterOf(r, StartingBets[a]).Some?
      {
        if r != before {
          FirstWhereSamePrefix(before, r, (x: ActiveBet) => x.betAmount == StartingBets[a]);
        }
      }
      i := i + 1;
    }
  }

  /** The room a claim refers to, with the claimant's seat. */
  function SeatOf(room: BetSession, userId: UserId): Option<nat>
  {
    FirstWhere(room.players, (p: Player) => p.userId == userId)
  }

  /** `bingo-claim` with a win check supplied for `checkIfWinner`, which the
      server calls but never defines (see `BingoClaimAsWritten`): an unknown
      room, an unknown or blocked player is refused; a winning card (judged
      against the called numbers, which the room record does not keep, so
      against none) becomes the room's winner, whatever winner the room
      already had; a losing claim blocks the player. */
  function BingoClaim(s: State, room: nat, userId: UserId, now: int, isWinner: WinCheck): (r: Step)
    ensures room >= |s.rooms| ==> r == Unchanged(s, SessionNotFound)
    ensures room < |s.rooms| && SeatOf(s.rooms[room], userId).None? ==> r == Unchanged(s, PlayerNotFound)
    ensures room < |s.rooms| && SeatOf(s.rooms[room], userId).Some? ==>
      var b := s.rooms[room];
      var k := SeatOf(b, userId).value;
      var p := b.players[k];
      && (p.isBlocked ==> r == Unchanged(s, PlayerBlocked))
      && (!p.isBlocked && isWinner(p.cardId, []) ==>
            && r.reply == Ok
            && r.state == s.(rooms := s.rooms[room := b.(winner := Some(RoomWinner(userId, p.cardId)), endTime := Some(now))])
            && r.events == [WinnerDeclared(userId, p.cardId, b.betAmount * |b.players|)])
      && (!p.isBlocked && !isWinner(p.cardId, []) ==>
            && r.reply == Fail(FalseClaim) && r.events == []
            && r.state == s.(rooms := s.rooms[room := b.(players := b.players[k := p.(isBlocked := true)])]))
    ensures r.state.users == s.users && r.state.ledger == s.ledger
  {
    if room >= |s.rooms| then Unchanged(s, SessionNotFound)
    else
      var b := s.rooms[room];
      match SeatOf(b, userId)
      case None => Unchanged(s, PlayerNotFound)
      case Some(k) =>
        var p := b.players[k];
        if p.isBlocked then Unchanged(s, PlayerBlocked)
        else if isWinner(p.cardId, []) then
          Step(s.(rooms := s.rooms[room := b.(winner := Some(RoomWinner(userId, p.cardId)), endTime := Some(now))]),
               Ok, [WinnerDeclared(userId, p.cardId, b.betAmount * |b.players|)])
        else
          Step(s.(rooms := s.rooms[room := b.(players := b.players[k := p.(isBlocked := true)])]), Fail(FalseClaim), [])
  }

  /** `bingo-claim` as the file stands: past the guards the call to the
      undefined `checkIfWinner` throws, the async handler rejects with nothing
      sent back (`ServerError` here), and no winner is set and no player
      blocked. */
  function BingoClaimAsWritten(s: State, room: nat, userId: UserId, now: int): (r: Step)
    ensures r.state == s && r.events == []
    ensures r.reply.Fail?
    ensures room >= |s.rooms| ==> r.reply == Fail(SessionNotFound)
    ensures room < |s.rooms| && SeatOf(s.rooms[room], userId).None? ==> r.reply == Fail(PlayerNotFound)
    ensures room < |s.rooms| && SeatOf(s.rooms[room], userId).Some? ==>
      r.reply == Fail(if s.rooms[room].players[SeatOf(s.rooms[room], userId).value].isBlocked
                      then PlayerBlocked else ServerError)
  {
    if room >= |s.rooms| then Unchanged(s, SessionNotFound)
    else
      var b := s.rooms[room];
      match SeatOf(b, userId)
      case None => Unchanged(s, PlayerNotFound)
      case Some(k) =>
        if b.players[k].isBlocked then Unchanged(s, PlayerBlocked)
        else Unchanged(s, ServerError)
  }

  /** As the file stands a claim past the guards decides nothing, while with
      any win check supplied it either declares the claimant winner or blocks
      the claimant. */
  lemma AsWrittenClaimDecidesNothing(s: State, room: nat, userId: UserId, now: int, isWinner: WinCheck)
    requires room < |s.rooms| && SeatOf(s.rooms[room], userId).Some?
    requires !s.rooms[room].players[SeatOf(s.rooms[room], userId).value].isBlocked
    ensures BingoClaimAsWritten(s, room, userId, now).state.rooms[room] == s.rooms[room]
    ensures var t := BingoClaim(s, room, userId, now, isWinner).state.rooms[room];
      var k := SeatOf(s.rooms[room], userId).value;
      t.winner == Some(RoomWinner(userId, s.rooms[room].players[k].cardId)) || t.players[k].isBlocked
  {
  }

  /** A claim keeps the room invariant: it touches neither card ids, user ids
      nor the open flag. */
  lemma ClaimKeepsRooms(s: State, room: nat, userId: UserId, now: int, isWinner: WinCheck)
    requires RoomsWellFormed(s.rooms)
    ensures RoomsWellFormed(BingoClaim(s, room, userId, now, isWinner).state.rooms)
  {
    var t := BingoClaim(s, room, userId, now, isWinner).state;
    if room < |s.rooms| && t != s {
      var ps := s.rooms[room].players;
      var qs := t.rooms[room].players;
      assert |qs| == |ps|;
      assert forall a :: 0 <= a < |ps| ==> qs[a].cardId == ps[a].cardId && qs[a].userId == ps[a].userId;
      assert DistinctSeats(qs);
    }
  }

  /** With a win check that accepts both cards, a second player's claim after
      a first winning claim is accepted too and replaces the declared winner:
      the room announces two winners and two prizes. */
  lemma SecondWinnerOverwrites(s: State, room: nat, u1: UserId, u2: UserId, now: int, isWinner: WinCheck)
    requires room < |s.rooms|
    requires SeatOf(s.rooms[room], u1).Some? && SeatOf(s.rooms[room], u2).Some?
    requires u1 != u2
    requires var b := s.rooms[room];
      && !b.players[SeatOf(b, u1).value].isBlocked && !b.players[SeatOf(b, u2).value].isBlocked
      && isWinner(b.players[SeatOf(b, u1).value].cardId, []) && isWinner(b.players[SeatOf(b, u2).value].cardId, [])
    ensures var r1 := BingoClaim(s, room, u1, now, isWinner);
      var r2 := BingoClaim(r1.state, room, u2, now, isWinner);
      && r1.reply == Ok && r2.reply == Ok
      && r1.state.rooms[room].winner.value.userId == u1
      && r2.state.rooms[room].winner.value.userId == u2
  {
    var b := s.rooms[room];
    var r1 := BingoClaim(s, room, u1, now, isWinner);
    assert r1.state.rooms[room].players == b.players;
  }

  /** The claim with the check the winner field calls for: a room that already
      has a winner refuses every further claim. */
  function BingoClaimOnce(s: State, room: nat, userId: UserId, now: int, isWinner: WinCheck): (r: Step)
    ensures room < |s.rooms| && s.rooms[room].winner.Some? ==> r == Unchanged(s, AlreadyWon)
    ensures room >= |s.rooms| || s.rooms[room].winner.None? ==> r == BingoClaim(s, room, userId, now, isWinner)
    ensures r.state.users == s.users && r.state.ledger == s.ledger
  {
    if room < |s.rooms| && s.rooms[room].winner.Some? then Unchanged(s, AlreadyWon)
    else BingoClaim(s, room, userId, now, isWinner)
  }

  /** With the corrected claim a room's winner, once declared, never changes,
      and only one prize is announced. */
  lemma WinnerIsFinal(s: State, room: nat, u1: UserId, u2: UserId, now: int, isWinner: WinCheck)
    requires room < |s.rooms| && s.rooms[room].winner.None?
    ensures var r1 := BingoClaimOnce(s, room, u1, now, isWinner);
      var r2 := BingoClaimOnce(r1.state, room, u2, now, isWinner);
      r1.reply == Ok ==> r2 == Unchanged(r1.state, AlreadyWon) && r2.state.rooms[room].winner == r1.state.rooms[room].winner
  {
    var r1 := BingoClaimOnce(s, room, u1, now, isWinner);
    if r1.reply == Ok {
      assert r1.state.rooms[room].winner.Some?;
    }
  }
}
