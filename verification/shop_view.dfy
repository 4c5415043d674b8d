/** The power-up shop screen: the owned-quantity map built from the server's
    listing, the optimistic increment after a purchase, the quantity shown
    per power-up, the buy button rule and the icon chosen by name. */
module ShopView {
  import opened Common
  import opened Entities
  import opened Accounts
  import opened UserPowerUps
  import opened PowerUpController

  /** The owned map: power-up id to quantity, filled in listing order, so a
      later line for the same id overwrites an earlier one. */
  function OwnedMap(rows: seq<OwnedDTO>): (m: map<nat, int>)
    ensures forall id :: id in m <==> exists i :: 0 <= i < |rows| && rows[i].powerUpId == id
    ensures forall i :: 0 <= i < |rows| && (forall j :: i < j < |rows| ==> rows[j].powerUpId != rows[i].powerUpId) ==>
      m[rows[i].powerUpId] == rows[i].quantity
  {
    if |rows| == 0 then map[]
    else
      var init := rows[..|rows| - 1];
      var last := rows[|rows| - 1];
      assert forall i :: 0 <= i < |rows| - 1 ==> init[i] == rows[i];
      OwnedMap(init)[last.powerUpId := last.quantity]
  }

  /** The quantity shown for a power-up: `owned[id] || 0`. */
  function Displayed(m: map<nat, int>, id: nat): int {
    if id in m && m[id] != 0 then m[id] else 0
  }

  /** The optimistic update after a purchase: `(prev[id] || 0) + 1`. */
  function OptimisticBuy(m: map<nat, int>, id: nat): (r: map<nat, int>)
    ensures Displayed(r, id) == Displayed(m, id) + 1
    ensures forall other :: other != id ==> Displayed(r, other) == Displayed(m, other)
    ensures r.Keys == m.Keys + {id}
  {
    m[id := Displayed(m, id) + 1]
  }

  /** The buy button is enabled when the balance covers the price. */
  predicate BuyEnabled(userCoin: int, price: int) {
    userCoin >= price
  }

  /** The button's rule is the server's coin check: for a known user and a
      known power-up, it is enabled exactly when the purchase goes through. */
  lemma ButtonMatchesServerCheck(s: Store, userId: nat, powerUpId: nat)
    requires HasId(s.users, userId) && powerUpId in s.catalogue
    ensures BuyEnabled(s.users[FindById(s.users, userId)].coin, s.catalogue[powerUpId].price)
        <==> Buy(s, userId, powerUpId).reply.Success?
  {
  }

  datatype Icon = DoubleCoin | DoubleXp | ShieldIcon

  /** "exp" in a name always brings "xp" with it. */
  lemma ExpContainsXp(s: string)
    ensures Contains(s, "exp") ==> Contains(s, "xp")
  {
    if Contains(s, "exp") {
      var i :| 0 <= i <= |s| - 3 && OccursAt(s, "exp", i);
      assert s[i + 1..i + 3] == s[i..i + 3][1..];
      assert OccursAt(s, "xp", i + 1);
    }
  }

  /** The icon: "coin" anywhere in the lower-cased name wins, then "exp" or
      "xp", and a shield otherwise. */
  function IconFor(name: string): (icon: Icon)
    ensures icon == DoubleCoin <==> Contains(ToLower(name), "coin")
    ensures icon == DoubleXp <==> !Contains(ToLower(name), "coin") && Contains(ToLower(name), "xp")
    ensures icon == ShieldIcon <==> !Contains(ToLower(name), "coin") && !Contains(ToLower(name), "xp")
  {
    var n := ToLower(name);
    if Contains(n, "coin") then DoubleCoin
    else
      ExpContainsXp(n);
      if Contains(n, "exp") || Contains(n, "xp") then DoubleXp
      else ShieldIcon
  }

  // ---------------------------------------------------------------------------
  // The screen shows what the server holds
  // ---------------------------------------------------------------------------

  predicate DistinctIds(rows: seq<OwnedDTO>) {
    forall i, j :: 0 <= i < j < |rows| ==> rows[i].powerUpId != rows[j].powerUpId
  }

  lemma {:induction false} ListedTotalSnoc(rows: seq<OwnedDTO>, powerUpId: nat)
    requires |rows| > 0
    ensures ListedTotal(rows, powerUpId)
         == ListedTotal(rows[..|rows| - 1], powerUpId)
            + (if rows[|rows| - 1].powerUpId == powerUpId then rows[|rows| - 1].quantity else 0)
  {
    if |rows| > 1 {
      assert rows[1..][..|rows| - 2] == rows[..|rows| - 1][1..];
      ListedTotalSnoc(rows[1..], powerUpId);
    }
  }

  lemma {:induction false} ListedTotalAbsent(rows: seq<OwnedDTO>, powerUpId: nat)
    requires forall i :: 0 <= i < |rows| ==> rows[i].powerUpId != powerUpId
    ensures ListedTotal(rows, powerUpId) == 0
  {
    if |rows| > 0 {
      assert forall i :: 0 <= i < |rows| - 1 ==> rows[1..][i] == rows[i + 1];
      ListedTotalAbsent(rows[1..], powerUpId);
    }
  }

  /** Over a listing without repeated ids, the shown quantity is the listed one. */
  lemma {:induction false} DisplayedIsListed(rows: seq<OwnedDTO>, powerUpId: nat)
    requires DistinctIds(rows)
    ensures Displayed(OwnedMap(rows), powerUpId) == ListedTotal(rows, powerUpId)
  {
    if |rows| > 0 {
      var init := rows[..|rows| - 1];
      var last := rows[|rows| - 1];
      ListedTotalSnoc(rows, powerUpId);
      if last.powerUpId == powerUpId {
        ListedTotalAbsent(init, powerUpId);
      } else {
        DisplayedIsListed(init, powerUpId);
      }
    }
  }

  lemma {:induction false} RowsOfKeepsUnique(table: seq<UserPowerUp>, userId: nat)
    requires Unique(table)
    ensures Unique(RowsOf(table, userId))
  {
    if |table| > 0 {
      var rest := RowsOf(table[1..], userId);
      RowsOfKeepsUnique(table[1..], userId);
      if table[0].userId == userId {
        var r := [table[0]] + rest;
        forall i, j | 0 <= i < j < |r|
          ensures !(r[i].userId == r[j].userId && r[i].powerUp.id == r[j].powerUp.id)
        {
          if i == 0 {
            assert r[j] == rest[j - 1];
            var k :| 0 <= k < |table[1..]| && table[1..][k] == rest[j - 1];
            assert table[k + 1] == r[j];
          } else {
            assert r[i] == rest[i - 1] && r[j] == rest[j - 1];
          }
        }
      }
    }
  }

  /** With the table's (user, power-up) uniqueness, the shop shows for every
      power-up exactly the quantity the user holds on the server. */
  lemma ShopShowsServerHoldings(s: Store, userId: nat, powerUpId: nat)
    requires Unique(s.inventory)
    ensures Displayed(OwnedMap(Owned(s, userId)), powerUpId) == Total(s.inventory, userId, powerUpId)
  {
    var rows := RowsOf(s.inventory, userId);
    var dtos := Owned(s, userId);
    RowsOfKeepsUnique(s.inventory, userId);
    assert DistinctIds(dtos) by {
      forall i, j | 0 <= i < j < |dtos|
        ensures dtos[i].powerUpId != dtos[j].powerUpId
      {
        assert rows[i].userId == userId && rows[j].userId == userId;
      }
    }
    DisplayedIsListed(dtos, powerUpId);
    OwnedShowsHoldings(s, userId, powerUpId);
  }

  /** After a purchase, the optimistic screen value and the server agree. */
  lemma OptimisticBuyMatchesServer(s: Store, userId: nat, powerUpId: nat)
    requires Unique(s.inventory) && KeyedCatalogue(s.catalogue)
    requires Buy(s, userId, powerUpId).reply.Success?
    ensures Displayed(OptimisticBuy(OwnedMap(Owned(s, userId)), powerUpId), powerUpId)
         == Total(Buy(s, userId, powerUpId).store.inventory, userId, powerUpId)
  {
    ShopShowsServerHoldings(s, userId, powerUpId);
    BuyAddsOneHolding(s, userId, powerUpId, userId, powerUpId);
  }
}
