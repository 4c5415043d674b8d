/** The power-up inventory service: a single table of (user, power-up,
    quantity) rows, read per user in table order, with an increment-or-insert
    and a guarded decrement.

    `Total` (the sum of a user's quantities for one power-up over all rows) is
    the independent measure the operations are checked against; it does not
    depend on which row the operations pick. */
module UserPowerUps {
  import opened Entities

  predicate Matches(row: UserPowerUp, userId: nat, powerUpId: nat) {
    row.userId == userId && row.powerUp.id == powerUpId
  }

  /** A row the decrement may take from: matching and still positive. */
  predicate Spendable(row: UserPowerUp, userId: nat, powerUpId: nat) {
    Matches(row, userId, powerUpId) && row.quantity > 0
  }

  /** Position of the first matching row, or |rows| when there is none. */
  function FirstMatch(rows: seq<UserPowerUp>, userId: nat, powerUpId: nat): (k: nat)
    ensures k <= |rows|
    ensures k < |rows| ==> Matches(rows[k], userId, powerUpId)
    ensures forall j :: 0 <= j < k ==> !Matches(rows[j], userId, powerUpId)
  {
    if |rows| == 0 then 0
    else if Matches(rows[0], userId, powerUpId) then 0
    else 1 + FirstMatch(rows[1..], userId, powerUpId)
  }

  /** Position of the first spendable row, or |rows| when there is none. */
  function FirstSpendable(rows: seq<UserPowerUp>, userId: nat, powerUpId: nat): (k: nat)
    ensures k <= |rows|
    ensures k < |rows| ==> Spendable(rows[k], userId, powerUpId)
    ensures forall j :: 0 <= j < k ==> !Spendable(rows[j], userId, powerUpId)
  {
    if |rows| == 0 then 0
    else if Spendable(rows[0], userId, powerUpId) then 0
    else 1 + FirstSpendable(rows[1..], userId, powerUpId)
  }

  function Qty(row: UserPowerUp, userId: nat, powerUpId: nat): int {
    if Matches(row, userId, powerUpId) then row.quantity else 0
  }

  /** How many of a power-up a user owns, summed over all rows. */
  function Total(rows: seq<UserPowerUp>, userId: nat, powerUpId: nat): int {
    if |rows| == 0 then 0 else Qty(rows[0], userId, powerUpId) + Total(rows[1..], userId, powerUpId)
  }

  predicate NonNegative(rows: seq<UserPowerUp>) {
    forall i :: 0 <= i < |rows| ==> rows[i].quantity >= 0
  }

  /** The table's unique constraint on (user, power-up). */
  predicate Unique(rows: seq<UserPowerUp>) {
    forall i, j :: 0 <= i < j < |rows| ==>
      !(rows[i].userId == rows[j].userId && rows[i].powerUp.id == rows[j].powerUp.id)
  }

  /** `getUserPowerUps`: the user's rows, in table order. */
  function RowsOf(table: seq<UserPowerUp>, userId: nat): (r: seq<UserPowerUp>)
    ensures |r| <= |table|
    ensures forall k :: 0 <= k < |r| ==> r[k].userId == userId && r[k] in table
    ensures forall i :: 0 <= i < |table| && table[i].userId == userId ==> table[i] in r
  {
    if |table| == 0 then []
    else
      var rest := RowsOf(table[1..], userId);
      assert forall i :: 1 <= i < |table| ==> table[i] == table[1..][i - 1];
      if table[0].userId == userId then [table[0]] + rest else rest
  }

  /** `addOrIncrementUserPowerUp`: the first row for this user and power-up
      gains one; without such a row, a row with quantity 1 is appended. */
  function AddOrIncrement(table: seq<UserPowerUp>, user: User, powerUp: PowerUp): (r: seq<UserPowerUp>)
    ensures var k := FirstMatch(table, user.id, powerUp.id);
      k < |table| ==>
        && |r| == |table|
        && r[k] == table[k].(quantity := table[k].quantity + 1)
        && forall j :: 0 <= j < |table| && j != k ==> r[j] == table[j]
    ensures FirstMatch(table, user.id, powerUp.id) == |table| ==>
      r == table + [UserPowerUp(user.id, powerUp, 1)]
  {
    var k := FirstMatch(table, user.id, powerUp.id);
    if k < |table| then table[k := table[k].(quantity := table[k].quantity + 1)]
    else table + [UserPowerUp(user.id, powerUp, 1)]
  }

  /** `decrementUserPowerUp`: the first row for this user and power-up whose
      quantity is positive loses one; otherwise nothing happens. */
  function Decrement(table: seq<UserPowerUp>, user: User, powerUp: PowerUp): (r: seq<UserPowerUp>)
    ensures |r| == |table|
    ensures var k := FirstSpendable(table, user.id, powerUp.id);
      k < |table| ==>
        && r[k] == table[k].(quantity := table[k].quantity - 1)
        && forall j :: 0 <= j < |table| && j != k ==> r[j] == table[j]
    ensures FirstSpendable(table, user.id, powerUp.id) == |table| ==> r == table
  {
    var k := FirstSpendable(table, user.id, powerUp.id);
    if k < |table| then table[k := table[k].(quantity := table[k].quantity - 1)]
    else table
  }

  // ---------------------------------------------------------------------------
  // Lemmas about Total
  // ---------------------------------------------------------------------------

  lemma {:induction false} TotalAppend(rows: seq<UserPowerUp>, row: UserPowerUp, userId: nat, powerUpId: nat)
    ensures Total(rows + [row], userId, powerUpId) == Total(rows, userId, powerUpId) + Qty(row, userId, powerUpId)
  {
    if |rows| > 0 {
      assert (rows + [row])[1..] == rows[1..] + [row];
      TotalAppend(rows[1..], row, userId, powerUpId);
    }
  }

  lemma {:induction false} TotalUpdate(rows: seq<UserPowerUp>, k: nat, row: UserPowerUp, userId: nat, powerUpId: nat)
    requires k < |rows|
    ensures Total(rows[k := row], userId, powerUpId)
         == Total(rows, userId, powerUpId) - Qty(rows[k], userId, powerUpId) + Qty(row, userId, powerUpId)
  {
    if k > 0 {
      assert rows[k := row][1..] == rows[1..][k - 1 := row];
      TotalUpdate(rows[1..], k - 1, row, userId, powerUpId);
    }
  }

  /** A user's rows carry all of that user's holdings. */
  lemma {:induction false} RowsOfKeepsTotal(table: seq<UserPowerUp>, userId: nat, powerUpId: nat)
    ensures Total(RowsOf(table, userId), userId, powerUpId) == Total(table, userId, powerUpId)
  {
    if |table| > 0 {
      RowsOfKeepsTotal(table[1..], userId, powerUpId);
    }
  }

  /** A purchase adds exactly one to the bought power-up's holding and leaves
      every other (user, power-up) holding as it was. */
  lemma IncrementAddsOne(table: seq<UserPowerUp>, user: User, powerUp: PowerUp, userId: nat, powerUpId: nat)
    ensures Total(AddOrIncrement(table, user, powerUp), userId, powerUpId)
         == Total(table, userId, powerUpId) + (if userId == user.id && powerUpId == powerUp.id then 1 else 0)
  {
    var k := FirstMatch(table, user.id, powerUp.id);
    if k < |table| {
      TotalUpdate(table, k, table[k].(quantity := table[k].quantity + 1), userId, powerUpId);
    } else {
      TotalAppend(table, UserPowerUp(user.id, powerUp, 1), userId, powerUpId);
    }
  }

  /** A use removes exactly one from the used power-up's holding when some row
      for it is positive, and otherwise changes nothing at all. */
  lemma DecrementRemovesOne(table: seq<UserPowerUp>, user: User, powerUp: PowerUp, userId: nat, powerUpId: nat)
    ensures var spendable := exists i :: 0 <= i < |table| && Spendable(table[i], user.id, powerUp.id);
      Total(Decrement(table, user, powerUp), userId, powerUpId)
      == Total(table, userId, powerUpId) - (if spendable && userId == user.id && powerUpId == powerUp.id then 1 else 0)
    ensures (forall i :: 0 <= i < |table| ==> !Spendable(table[i], user.id, powerUp.id)) ==>
      Decrement(table, user, powerUp) == table
  {
    var k := FirstSpendable(table, user.id, powerUp.id);
    if k < |table| {
      TotalUpdate(table, k, table[k].(quantity := table[k].quantity - 1), userId, powerUpId);
    }
  }

  /** Neither operation can make a quantity negative. */
  lemma OperationsKeepNonNegative(table: seq<UserPowerUp>, user: User, powerUp: PowerUp)
    requires NonNegative(table)
    ensures NonNegative(AddOrIncrement(table, user, powerUp))
    ensures NonNegative(Decrement(table, user, powerUp))
  {
  }

  /** Increment-or-insert never creates a second row for the same pair. */
  lemma IncrementKeepsUnique(table: seq<UserPowerUp>, user: User, powerUp: PowerUp)
    requires Unique(table)
    ensures Unique(AddOrIncrement(table, user, powerUp))
  {
    var k := FirstMatch(table, user.id, powerUp.id);
    var r := AddOrIncrement(table, user, powerUp);
    if k == |table| {
      forall i, j | 0 <= i < j < |r|
        ensures !(r[i].userId == r[j].userId && r[i].powerUp.id == r[j].powerUp.id)
      {
        if j == |table| {
          assert !Matches(table[i], user.id, powerUp.id);
        }
      }
    }
  }

  /** When the user already owns a row, the decrement after an increment
      finds that same row first. */
  lemma ExistingRowIsSpentFirst(table: seq<UserPowerUp>, user: User, powerUp: PowerUp)
    requires NonNegative(table)
    requires FirstMatch(table, user.id, powerUp.id) < |table|
    ensures FirstSpendable(AddOrIncrement(table, user, powerUp), user.id, powerUp.id)
         == FirstMatch(table, user.id, powerUp.id)
  {
    var mid := AddOrIncrement(table, user, powerUp);
    var k := FirstMatch(table, user.id, powerUp.id);
    assert Spendable(mid[k], user.id, powerUp.id);
    forall j | 0 <= j < k
      ensures !Spendable(mid[j], user.id, powerUp.id)
    {
      assert mid[j] == table[j];
    }
  }

  /** Buying then using a power-up restores the holding; when the user already
      had a row for it, the table comes back exactly. */
  lemma IncrementThenDecrement(table: seq<UserPowerUp>, user: User, powerUp: PowerUp)
    requires NonNegative(table)
    ensures Total(Decrement(AddOrIncrement(table, user, powerUp), user, powerUp), user.id, powerUp.id)
         == Total(table, user.id, powerUp.id)
    ensures FirstMatch(table, user.id, powerUp.id) < |table| ==>
      Decrement(AddOrIncrement(table, user, powerUp), user, powerUp) == table
  {
    var mid := AddOrIncrement(table, user, powerUp);
    var k := FirstMatch(table, user.id, powerUp.id);
    IncrementAddsOne(table, user, powerUp, user.id, powerUp.id);
    if k < |table| {
      ExistingRowIsSpentFirst(table, user, powerUp);
      var back := Decrement(mid, user, powerUp);
      assert |back| == |table|;
      forall j | 0 <= j < |table|
        ensures back[j] == table[j]
      {
      }
      assert back == table;
    } else {
      assert mid[|table|] == UserPowerUp(user.id, powerUp, 1);
      assert Spendable(mid[|table|], user.id, powerUp.id);
      DecrementRemovesOne(mid, user, powerUp, user.id, powerUp.id);
    }
  }
}
