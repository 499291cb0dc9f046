/** The User and Transaction records, with the constraints their schemas
    enforce whenever a document is saved. */
module Records {
  import opened Basics

  type UserId = nat

  datatype Role = UserRole | Agent | Admin

  /** A player account. Password and timestamps are not part of this model. */
  datatype User = User(
    phone: string,
    role: Role,
    wallet: int,
    dailyEarnings: int,
    weeklyEarnings: int,
    totalEarnings: int,
    isActive: bool)

  predicate IsDigit(c: char) { '0' <= c <= '9' }

  predicate AllDigits(s: string) { forall i :: 0 <= i < |s| ==> IsDigit(s[i]) }

  /** The phone pattern of the schema: "09" followed by exactly eight digits. */
  predicate ValidPhone(p: string) {
    |p| == 10 && p[..2] == "09" && AllDigits(p[2..])
  }

  /** Matches a phone number character by character, as the schema's regular
      expression does, and accepts exactly the valid phone numbers. */
  method MatchPhone(p: string) returns (ok: bool)
    ensures ok <==> ValidPhone(p)
  {
    if |p| != 10 {
      return false;
    }
    if p[0] != '0' || p[1] != '9' {
      assert p[..2][0] == p[0] && p[..2][1] == p[1];
      return false;
    }
    assert p[..2] == "09";
    var i := 2;
    while i < 10
      invariant 2 <= i <= 10
      invariant forall j :: 2 <= j < i ==> IsDigit(p[j])
    {
      if !IsDigit(p[i]) {
        assert p[2..][i - 2] == p[i];
        return false;
      }
      i := i + 1;
    }
    assert forall k :: 0 <= k < 8 ==> p[2..][k] == p[k + 2];
    return true;
  }

  /** What the schema validators accept on save: a well-formed phone number
      and non-negative wallet and earnings counters. */
  predicate ValidUser(u: User) {
    && ValidPhone(u.phone)
    && u.wallet >= 0
    && u.dailyEarnings >= 0
    && u.weeklyEarnings >= 0
    && u.totalEarnings >= 0
  }

  /** A freshly registered user: every balance 0, active, role defaulting to `user`. */
  function NewUser(phone: string, role: Option<Role>): (u: User)
    ensures ValidUser(u) <==> ValidPhone(phone)
    ensures u.wallet == 0 && u.dailyEarnings == 0 && u.weeklyEarnings == 0 && u.totalEarnings == 0
    ensures u.isActive
    ensures role.None? ==> u.role == UserRole
    ensures role.Some? ==> u.role == role.value
  {
    User(phone, if role.Some? then role.value else UserRole, 0, 0, 0, 0, true)
  }

  /** `resetDailyEarnings`: only the daily counter goes back to zero. */
  function ResetDailyEarnings(u: User): (v: User)
    ensures v.dailyEarnings == 0
    ensures v.(dailyEarnings := u.dailyEarnings) == u
    ensures ValidUser(u) ==> ValidUser(v)
  {
    u.(dailyEarnings := 0)
  }

  /** `resetWeeklyEarnings`: only the weekly counter goes back to zero. */
  function ResetWeeklyEarnings(u: User): (v: User)
    ensures v.weeklyEarnings == 0
    ensures v.(weeklyEarnings := u.weeklyEarnings) == u
    ensures ValidUser(u) ==> ValidUser(v)
  {
    u.(weeklyEarnings := 0)
  }

  /** Adds a prize to the wallet and to all three earnings counters. */
  function Credit(u: User, amount: int): User
  {
    u.(wallet := u.wallet + amount,
       dailyEarnings := u.dailyEarnings + amount,
       weeklyEarnings := u.weeklyEarnings + amount,
       totalEarnings := u.totalEarnings + amount)
  }

  /** Every stored user satisfies the schema. */
  predicate AllUsersValid(users: map<UserId, User>) {
    forall id :: id in users ==> ValidUser(users[id])
  }

  datatype TxType = Deposit | Withdrawal | GamePurchase | Winning

  datatype TxStatus = Pending | Completed | Failed

  /** A ledger entry. `gameId` and `cardId` stand for the metadata of game entries. */
  datatype Transaction = Transaction(
    userId: UserId,
    kind: TxType,
    amount: int,
    status: TxStatus,
    reference: string,
    gameId: Option<nat>,
    cardId: Option<nat>)

  /** A new ledger entry; the status defaults to `pending` when none is given. */
  function NewTransaction(userId: UserId, kind: TxType, amount: int, status: Option<TxStatus>,
                          reference: string, gameId: Option<nat>, cardId: Option<nat>): (t: Transaction)
    ensures status.None? ==> t.status == Pending
    ensures status.Some? ==> t.status == status.value
    ensures t.userId == userId && t.kind == kind && t.amount == amount && t.reference == reference
  {
    Transaction(userId, kind, amount, if status.Some? then status.value else Pending, reference, gameId, cardId)
  }

  /** No two entries share a reference (the unique index on `reference`). */
  predicate UniqueReferences(ledger: seq<Transaction>) {
    forall i, j :: 0 <= i < j < |ledger| ==> ledger[i].reference != ledger[j].reference
  }

  /** The ledger invariants: unique references and non-negative amounts. */
  predicate ValidLedger(ledger: seq<Transaction>) {
    && UniqueReferences(ledger)
    && forall i :: 0 <= i < |ledger| ==> ledger[i].amount >= 0
  }

  /** `findOne({ reference })`. */
  function FindReference(ledger: seq<Transaction>, ref: string): Option<nat>
  {
    FirstWhere(ledger, (t: Transaction) => t.reference == ref)
  }

  /** Saving a new entry: the `min: 0` validator and the unique index reject it,
      otherwise it is appended. */
  function SaveNew(ledger: seq<Transaction>, t: Transaction): (r: Option<seq<Transaction>>)
    ensures r.Some? <==> t.amount >= 0 && forall j :: 0 <= j < |ledger| ==> ledger[j].reference != t.reference
    ensures r.Some? ==> r.value == ledger + [t]
    ensures r.Some? && ValidLedger(ledger) ==> ValidLedger(r.value)
  {
    if t.amount >= 0 && FindReference(ledger, t.reference).None? then Some(ledger + [t]) else None
  }

  /** Changing the status of a stored entry keeps the ledger invariants. */
  lemma StatusChangeKeepsLedgerValid(ledger: seq<Transaction>, i: nat, st: TxStatus)
    requires ValidLedger(ledger) && i < |ledger|
    ensures ValidLedger(ledger[i := ledger[i].(status := st)])
  {
  }
}
