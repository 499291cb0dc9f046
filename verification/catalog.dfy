/** The bet-amount game catalog of the games routes: creating a game for a bet
    amount, updating one or all games of an amount, and deleting by id, by
    amount or all at once. */
module Catalog {
  import opened Basics
  import opened Store

  /** The bet amounts the routes accept: 1 to 10000 ETB. */
  predicate ValidBetAmount(b: int) {
    1 <= b <= 10000
  }

  /** `!b || b < 1 || b > 10000`: an absent amount (`None`) and zero are
      refused like any amount outside the range. */
  predicate Refused(b: Option<int>) {
    b.None? || b.value == 0 || b.value < 1 || b.value > 10000
  }

  lemma RefusedIsOutOfRange(b: Option<int>)
    ensures Refused(b) <==> !(b.Some? && ValidBetAmount(b.value))
  {
  }

  /** Every catalog game has an accepted bet amount. */
  predicate AllInRange(games: map<nat, int>) {
    forall id :: id in games ==> ValidBetAmount(games[id])
  }

  /** Every catalog id was handed out before the next one. */
  predicate IdsIssued(s: State) {
    forall id :: id in s.betGames ==> id < s.nextBetGameId
  }

  /** Create: an accepted amount becomes a new game under a fresh id. */
  function CreateBetGame(s: State, betAmount: Option<int>): (r: Step)
    ensures r.reply == Ok <==> betAmount.Some? && ValidBetAmount(betAmount.value)
    ensures r.reply != Ok ==> r == Unchanged(s, InvalidBetAmount)
    ensures r.reply == Ok ==>
      && r.state == s.(betGames := s.betGames[s.nextBetGameId := betAmount.value], nextBetGameId := s.nextBetGameId + 1)
    ensures AllInRange(s.betGames) ==> AllInRange(r.state.betGames)
    ensures IdsIssued(s) ==> IdsIssued(r.state)
    ensures IdsIssued(s) && r.reply == Ok ==> r.state.betGames.Keys == s.betGames.Keys + {s.nextBetGameId} && s.nextBetGameId !in s.betGames
  {
    if Refused(betAmount) then Unchanged(s, InvalidBetAmount)
    else Step(s.(betGames := s.betGames[s.nextBetGameId := betAmount.value], nextBetGameId := s.nextBetGameId + 1), Ok, [])
  }

  /** Update by id: the range check runs only for a truthy amount, so zero
      passes and is stored; an absent amount leaves the game as it is. Two
      assumptions stand behind this: the update's `runValidators` adds no
      check of its own (the game schema is not part of this model), and an
      `undefined` amount is dropped from the update rather than stored. */
  function UpdateBetGame(s: State, id: nat, betAmount: Option<int>): (r: Step)
    ensures betAmount.Some? && betAmount.value != 0 && !ValidBetAmount(betAmount.value) ==> r == Unchanged(s, InvalidBetAmount)
    ensures !(betAmount.Some? && betAmount.value != 0 && !ValidBetAmount(betAmount.value)) && id !in s.betGames ==>
      r == Unchanged(s, NotFound)
    ensures r.reply == Ok <==>
      id in s.betGames && (betAmount.None? || betAmount.value == 0 || ValidBetAmount(betAmount.value))
    ensures r.reply == Ok ==>
      r.state == s.(betGames := if betAmount.Some? then s.betGames[id := betAmount.value] else s.betGames)
  {
    if betAmount.Some? && betAmount.value != 0 && !ValidBetAmount(betAmount.value) then Unchanged(s, InvalidBetAmount)
    else if id !in s.betGames then Unchanged(s, NotFound)
    else if betAmount.None? then Step(s, Ok, [])
    else Step(s.(betGames := s.betGames[id := betAmount.value]), Ok, [])
  }

  /** Updating by id with a zero amount is accepted and leaves a game whose
      amount create would have refused. */
  lemma UpdateAcceptsZero(s: State, id: nat)
    requires id in s.betGames
    ensures var r := UpdateBetGame(s, id, Some(0));
      r.reply == Ok && r.state.betGames[id] == 0 && !AllInRange(r.state.betGames)
  {
    assert !ValidBetAmount(UpdateBetGame(s, id, Some(0)).state.betGames[id]);
  }

  /** Bulk update: with an accepted new amount, exactly the games of the old
      amount get the new one. */
  function UpdateByBet(s: State, oldBet: int, newBet: Option<int>): (r: Step)
    ensures Refused(newBet) ==> r == Unchanged(s, InvalidBetAmount)
    ensures !Refused(newBet) ==> r.reply == Ok && r.state == s.(betGames := r.state.betGames)
    ensures !Refused(newBet) ==> r.state.betGames.Keys == s.betGames.Keys
    ensures !Refused(newBet) ==> forall id :: id in s.betGames && s.betGames[id] == oldBet ==> r.state.betGames[id] == newBet.value
    ensures forall id :: id in s.betGames && s.betGames[id] != oldBet ==> id in r.state.betGames && r.state.betGames[id] == s.betGames[id]
    ensures AllInRange(s.betGames) ==> AllInRange(r.state.betGames)
  {
    if Refused(newBet) then Unchanged(s, InvalidBetAmount)
    else
      var games := map id | id in s.betGames :: if s.betGames[id] == oldBet then newBet.value else s.betGames[id];
      Step(s.(betGames := games), Ok, [])
  }

  /** Delete by id. */
  function DeleteBetGame(s: State, id: nat): (r: Step)
    ensures id !in s.betGames ==> r == Unchanged(s, NotFound)
    ensures id in s.betGames ==> r.reply == Ok && r.state == s.(betGames := r.state.betGames)
    ensures r.state.betGames.Keys == s.betGames.Keys - {id}
    ensures forall k :: k in r.state.betGames ==> r.state.betGames[k] == s.betGames[k]
  {
    if id !in s.betGames then Unchanged(s, NotFound)
    else Step(s.(betGames := s.betGames - {id}), Ok, [])
  }

  /** Delete by amount: exactly the games of that amount disappear. */
  function DeleteByBet(s: State, bet: int): (r: Step)
    ensures r.reply == Ok && r.state == s.(betGames := r.state.betGames)
    ensures forall id :: id in r.state.betGames <==> id in s.betGames && s.betGames[id] != bet
    ensures forall id :: id in r.state.betGames ==> r.state.betGames[id] == s.betGames[id]
  {
    Step(s.(betGames := map id | id in s.betGames && s.betGames[id] != bet :: s.betGames[id]), Ok, [])
  }

  /** Delete all: the catalog is emptied. */
  function DeleteAllBetGames(s: State): (r: Step)
    ensures r.reply == Ok && r.state == s.(betGames := r.state.betGames)
    ensures forall id :: id !in r.state.betGames
  {
    Step(s.(betGames := map[]), Ok, [])
  }

  /** Deleting never takes a game out of range, and after deleting by an
      amount a bulk update from that amount changes nothing. */
  lemma DeletesKeepRange(s: State, id: nat, bet: int, newBet: Option<int>)
    requires AllInRange(s.betGames)
    ensures AllInRange(DeleteBetGame(s, id).state.betGames)
    ensures AllInRange(DeleteByBet(s, bet).state.betGames)
    ensures AllInRange(DeleteAllBetGames(s).state.betGames)
    ensures var t := DeleteByBet(s, bet).state; UpdateByBet(t, bet, newBet).state.betGames == t.betGames
  {
  }
}
