/** Ledger reports: the totals by entry type over `completed` entries, the
    admin profit figure, the per-user net balance, and the user-scoped
    transaction listing with its pagination. */
module Reports {
  import opened Basics
  import opened Records
  import opened Store
  import opened Paging
  import Round
  import Purchase
  import Wallet

  /** The entries an aggregate `$match` on type and `completed` status keeps,
      optionally restricted to one user. */
  predicate Counted(t: Transaction, kind: TxType, user: Option<UserId>) {
    t.kind == kind && t.status == TxStatus.Completed && (user.None? || t.userId == user.value)
  }

  /** `$sum` of the amounts of the counted entries (0 when none match). */
  function SumOf(ledger: seq<Transaction>, kind: TxType, user: Option<UserId>): int
  {
    SumWhere(ledger, (t: Transaction) => Counted(t, kind, user), (t: Transaction) => t.amount)
  }

  /** The admin analytics profit: purchase revenue minus winning payouts. */
  function Profit(ledger: seq<Transaction>): int
  {
    SumOf(ledger, GamePurchase, None) - SumOf(ledger, Winning, None)
  }

  /** The statistics net balance: winnings and deposits in, withdrawals and
      purchases out. */
  function NetBalance(ledger: seq<Transaction>, user: Option<UserId>): int
  {
    SumOf(ledger, Winning, user) + SumOf(ledger, Deposit, user)
      - SumOf(ledger, Withdrawal, user) - SumOf(ledger, GamePurchase, user)
  }

  /** The signed share of one entry in the net balance. */
  function Share(t: Transaction, user: Option<UserId>): int
  {
    if t.status != TxStatus.Completed || (user.Some? && t.userId != user.value) then 0
    else match t.kind
      case Winning => t.amount
      case Deposit => t.amount
      case Withdrawal => -t.amount
      case GamePurchase => -t.amount
  }

  /** Appending an entry moves each total by that entry's amount alone. */
  lemma SumOfAppend(ledger: seq<Transaction>, t: Transaction, kind: TxType, user: Option<UserId>)
    ensures SumOf(ledger + [t], kind, user) == SumOf(ledger, kind, user) + (if Counted(t, kind, user) then t.amount else 0)
  {
    SumWhereAppend(ledger, t, (e: Transaction) => Counted(e, kind, user), (e: Transaction) => e.amount);
  }

  lemma NetBalanceAppend(ledger: seq<Transaction>, t: Transaction, user: Option<UserId>)
    ensures NetBalance(ledger + [t], user) == NetBalance(ledger, user) + Share(t, user)
  {
    SumOfAppend(ledger, t, Winning, user);
    SumOfAppend(ledger, t, Deposit, user);
    SumOfAppend(ledger, t, Withdrawal, user);
    SumOfAppend(ledger, t, GamePurchase, user);
  }

  /** The net balance computed in one pass over the ledger, entry by entry. */
  method ComputeNetBalance(ledger: seq<Transaction>, user: Option<UserId>) returns (n: int)
    ensures n == NetBalance(ledger, user)
  {
    n := 0;
    var i := 0;
    while i < |ledger|
      invariant 0 <= i <= |ledger|
      invariant n == NetBalance(ledger[..i], user)
    {
      assert ledger[..i + 1] == ledger[..i] + [ledger[i]];
      NetBalanceAppend(ledger[..i], ledger[i], user);
      n := n + Share(ledger[i], user);
      i := i + 1;
    }
    assert ledger[..i] == ledger;
  }

  /** The figures of the statistics route. */
  datatype Overview = Overview(totalTransactions: nat, deposits: int, withdrawals: int, winnings: int,
                               purchases: int, netBalance: int)

  /** Entries a user filter selects (every entry when there is no filter). */
  predicate OwnedBy(t: Transaction, user: Option<UserId>) {
    user.None? || t.userId == user.value
  }

  /** The statistics route with the user filter compared against the stored
      owner, as the count stage already does: the four totals and the net
      balance of the user's completed entries. */
  function StatsOverview(ledger: seq<Transaction>, user: Option<UserId>): (r: Overview)
    ensures r.totalTransactions == Count(ledger, (t: Transaction) => OwnedBy(t, user))
    ensures r.netBalance == r.winnings + r.deposits - r.withdrawals - r.purchases
    ensures r.netBalance == NetBalance(ledger, user)
    ensures user.None? ==> r.purchases - r.winnings == Profit(ledger)
  {
    var d := SumOf(ledger, Deposit, user);
    var w := SumOf(ledger, Withdrawal, user);
    var g := SumOf(ledger, Winning, user);
    var p := SumOf(ledger, GamePurchase, user);
    Overview(Count(ledger, (t: Transaction) => OwnedBy(t, user)), d, w, g, p, g + d - w - p)
  }

  /** The statistics route as it stands: the `userId` of the query string is
      a string, aggregate stages are not cast to the schema, and the stored
      owner is an object id, so with a user filter no `$match` stage keeps any
      entry and every total is 0; only the count, which is cast, sees the
      user's entries. Without a filter the figures are the whole ledger's. */
  function StatsOverviewAsWritten(ledger: seq<Transaction>, user: Option<UserId>): (r: Overview)
    ensures user.None? ==> r == StatsOverview(ledger, None)
    ensures user.Some? ==>
      && r.totalTransactions == StatsOverview(ledger, user).totalTransactions
      && r.deposits == 0 && r.withdrawals == 0 && r.winnings == 0 && r.purchases == 0
      && r.netBalance == 0
  {
    if user.None? then StatsOverview(ledger, None)
    else Overview(Count(ledger, (t: Transaction) => OwnedBy(t, user)), 0, 0, 0, 0, 0)
  }

  /** One completed deposit of 100 by user 0: as written the user's statistics
      show a net balance of 0, while the user's completed entries add up to 100. */
  lemma UserStatsAsWrittenMissDeposit()
    ensures var ledger := [Transaction(0, Deposit, 100, TxStatus.Completed, "dep-1", None, None)];
      && StatsOverviewAsWritten(ledger, Some(0)).netBalance == 0
      && StatsOverviewAsWritten(ledger, Some(0)).totalTransactions == 1
      && StatsOverview(ledger, Some(0)).netBalance == 100
  {
    var e := Transaction(0, Deposit, 100, TxStatus.Completed, "dep-1", None, None);
    assert [e] == [] + [e];
    NetBalanceAppend([], e, Some(0));
    assert NetBalance([], Some(0)) == 0;
    assert Share(e, Some(0)) == 100;
    assert NetBalance([e], Some(0)) == 100;
    CountAppend([], e, (t: Transaction) => OwnedBy(t, Some(0)));
    assert Count([e], (t: Transaction) => OwnedBy(t, Some(0))) == 1;
  }

  /** A successful purchase raises the profit by the card price and lowers the
      buyer's net balance by it. */
  lemma PurchaseRaisesProfit(s: State, gameId: GameId, userId: UserId, numbers: Grid, ref: string)
    requires Purchase.PurchaseCard(s, gameId, userId, numbers, ref).reply == Ok
    ensures var t := Purchase.PurchaseCard(s, gameId, userId, numbers, ref).state;
      && Profit(t.ledger) == Profit(s.ledger) + s.games[gameId].cardPrice
      && NetBalance(t.ledger, Some(userId)) == NetBalance(s.ledger, Some(userId)) - s.games[gameId].cardPrice
  {
    var e := Transaction(userId, GamePurchase, s.games[gameId].cardPrice, TxStatus.Completed, ref, Some(gameId), Some(|s.cards|));
    SumOfAppend(s.ledger, e, GamePurchase, None);
    SumOfAppend(s.ledger, e, Winning, None);
    NetBalanceAppend(s.ledger, e, Some(userId));
  }

  /** A paid win lowers the profit by the prize and raises the winner's net
      balance by it. */
  lemma WinLowersProfit(s: State, gameId: GameId, cardId: CardId, caller: UserId,
                        checkBingo: Round.BingoCheck, calculatePrize: Round.PrizeRule, now: int, ref: string)
    requires Round.DeclareBingo(s, gameId, cardId, caller, checkBingo, calculatePrize, now, ref).reply == Ok
    ensures var t := Round.DeclareBingo(s, gameId, cardId, caller, checkBingo, calculatePrize, now, ref).state;
      var prize := Round.PrizeOf(s, gameId, calculatePrize);
      && Profit(t.ledger) == Profit(s.ledger) - prize
      && NetBalance(t.ledger, Some(caller)) == NetBalance(s.ledger, Some(caller)) + prize
  {
    var e := Round.WinEntry(caller, gameId, cardId, Round.PrizeOf(s, gameId, calculatePrize), ref);
    SumOfAppend(s.ledger, e, GamePurchase, None);
    SumOfAppend(s.ledger, e, Winning, None);
    NetBalanceAppend(s.ledger, e, Some(caller));
  }

  /** Crediting a pending deposit raises its owner's net balance by exactly the
      deposit, matching what reaches the wallet. */
  lemma DepositCreditRaisesNetBalance(s: State, txRef: string)
    requires Wallet.PendingAt(s.ledger, txRef)
    requires var t := s.ledger[FindReference(s.ledger, txRef).value]; t.kind == Deposit && t.amount >= 0
    ensures var i := FindReference(s.ledger, txRef).value;
      var t := Wallet.CreditPending(s, txRef).state;
      NetBalance(t.ledger, Some(s.ledger[i].userId)) == NetBalance(s.ledger, Some(s.ledger[i].userId)) + s.ledger[i].amount
  {
    var i := FindReference(s.ledger, txRef).value;
    var e := s.ledger[i];
    var v := e.(status := TxStatus.Completed);
    var u := Some(e.userId);
    forall kind: TxType {
      SumWhereUpdate(s.ledger, i, v, (x: Transaction) => Counted(x, kind, u), (x: Transaction) => x.amount);
    }
  }

  /** One page of a listing. */
  datatype Page = Page(items: seq<Transaction>, current: int, totalPages: int, count: nat, totalRecords: nat)

  /** The filter of the user-scoped listing: the user, and the type and status
      when given. */
  predicate Listed(t: Transaction, userId: UserId, kind: Option<TxType>, status: Option<TxStatus>) {
    t.userId == userId && (kind.None? || t.kind == kind.value) && (status.None? || t.status == status.value)
  }

  /** The entries the user-scoped listing selects, oldest first. */
  function Matching(ledger: seq<Transaction>, userId: UserId, kind: Option<TxType>, status: Option<TxStatus>): (r: seq<Transaction>)
    ensures |r| == Count(ledger, (t: Transaction) => Listed(t, userId, kind, status))
    ensures forall j :: 0 <= j < |r| ==> Listed(r[j], userId, kind, status) && r[j] in ledger
  {
    FilterLength(ledger, (t: Transaction) => Listed(t, userId, kind, status));
    Filter(ledger, (t: Transaction) => Listed(t, userId, kind, status))
  }

  /** One page of a listing of `matching`, kept oldest first: newest first,
      `skip` entries dropped, at most `|limit|` kept. */
  function PageOf(matching: seq<Transaction>, page: int, limit: int): (r: Page)
    requires limit != 0 && Skip(page, limit) >= 0
    ensures var skip := Skip(page, limit); var total := |matching|; var l := Abs(limit);
      && r.totalRecords == total
      && r.count == |r.items|
      && r.count == (if skip >= total then 0 else if l <= total - skip then l else total - skip)
      && r.current == page
      && r.totalPages == CeilDiv(total, limit)
    ensures forall j :: 0 <= j < |r.items| ==>
      Skip(page, limit) + j < |matching| && r.items[j] == matching[|matching| - 1 - (Skip(page, limit) + j)]
    ensures forall j :: 0 <= j < |r.items| ==> r.items[j] in matching
  {
    var items := NewestWindow(matching, Skip(page, limit), Abs(limit));
    Page(items, page, CeilDiv(|matching|, limit), |items|, |matching|)
  }

  /** The user-scoped transaction listing: the user's matching entries, newest
      first, paged as `PageOf` says (the store takes a negative limit by its
      absolute value), and a negative skip refused. */
  function UserTransactions(ledger: seq<Transaction>, userId: UserId, kind: Option<TxType>, status: Option<TxStatus>,
                            page: Option<int>, limit: Option<int>): (r: Option<Page>)
    ensures var p := ParamOr(page, 1); var l := ParamOr(limit, ListingLimit);
      r.None? <==> Skip(p, l) < 0
    ensures r.Some? ==>
      var skip := Skip(ParamOr(page, 1), ParamOr(limit, ListingLimit));
      var total := r.value.totalRecords;
      var l := Abs(ParamOr(limit, ListingLimit));
      && total == Count(ledger, (t: Transaction) => Listed(t, userId, kind, status))
      && r.value.count == |r.value.items|
      && r.value.count == (if skip >= total then 0 else if l <= total - skip then l else total - skip)
      && r.value.current == ParamOr(page, 1)
      && r.value.totalPages == CeilDiv(total, ParamOr(limit, ListingLimit))
    ensures r.Some? ==>
      && (forall j :: 0 <= j < |r.value.items| ==> Listed(r.value.items[j], userId, kind, status))
      && (forall j :: 0 <= j < |r.value.items| ==> r.value.items[j] in ledger)
    // newest first: the j-th item is the (skip + j)-th matching entry counted from the end
    ensures r.Some? ==>
      var skip := Skip(ParamOr(page, 1), ParamOr(limit, ListingLimit));
      var matching := Matching(ledger, userId, kind, status);
      forall j :: 0 <= j < |r.value.items| ==>
        skip + j < |matching| && r.value.items[j] == matching[|matching| - 1 - (skip + j)]
  {
    var p := ParamOr(page, 1);
    var l := ParamOr(limit, ListingLimit);
    if Skip(p, l) < 0 then None
    else
      Some(PageOf(Matching(ledger, userId, kind, status), p, l))
  }

  function Abs(x: int): nat
  {
    if x < 0 then -x else x
  }
}
