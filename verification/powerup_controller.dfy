/** The power-up endpoints: buying (existence check, coin check, debit, then
    inventory increment), using (existence check, then the guarded
    decrement) and the listing of a user's inventory rows. */
module PowerUpController {
  import opened Common
  import opened Entities
  import opened Accounts
  import opened UserPowerUps

  /** The body of a response: `ApiResponse(success, message, null)` with a
      200 or 400 status, or the user-lookup exception escaping the handler. */
  datatype Reply =
    | Success(message: string)
    | Rejected(message: string)
    | Raised(error: Failure)

  const PowerUpNotFound: string := "Power-up not found"
  const NotEnoughCoins: string := "Not enough coins"
  const Purchased: string := "Power-up purchased"
  const Used: string := "Power-up used"

  /** The three tables the endpoints touch. */
  datatype Store = Store(users: seq<User>, catalogue: map<nat, PowerUp>, inventory: seq<UserPowerUp>)

  datatype Outcome = Outcome(reply: Reply, store: Store)

  /** Every catalogue entry is stored under its own id. */
  predicate KeyedCatalogue(catalogue: map<nat, PowerUp>) {
    forall id :: id in catalogue ==> catalogue[id].id == id
  }

  /** `buyPowerUp`. The user lookup comes first and throws; an unknown
      power-up and a short balance are rejected without any change. */
  function Buy(s: Store, userId: nat, powerUpId: nat): (r: Outcome)
    ensures !HasId(s.users, userId) ==> r == Outcome(Raised(UserNotFoundById(userId)), s)
    ensures HasId(s.users, userId) && powerUpId !in s.catalogue ==> r == Outcome(Rejected(PowerUpNotFound), s)
    ensures HasId(s.users, userId) && powerUpId in s.catalogue ==>
      var k := FindById(s.users, userId);
      var price := s.catalogue[powerUpId].price;
      && (s.users[k].coin < price ==> r == Outcome(Rejected(NotEnoughCoins), s))
      && (s.users[k].coin >= price ==>
            && r.reply == Success(Purchased)
            && r.store.catalogue == s.catalogue
            && |r.store.users| == |s.users|
            && r.store.users[k] == s.users[k].(coin := s.users[k].coin - price)
            && r.store.users[k].coin >= 0
            && (forall j :: 0 <= j < |s.users| && j != k ==> r.store.users[j] == s.users[j])
            && r.store.inventory == AddOrIncrement(s.inventory, s.users[k], s.catalogue[powerUpId]))
    ensures r.reply.Success? <==>
      && HasId(s.users, userId) && powerUpId in s.catalogue
      && s.users[FindById(s.users, userId)].coin >= s.catalogue[powerUpId].price
  {
    match GetEntityById(s.users, userId)
    case Thrown(e) => Outcome(Raised(e), s)
    case Ok(user) =>
      if powerUpId !in s.catalogue then Outcome(Rejected(PowerUpNotFound), s)
      else
        var powerUp := s.catalogue[powerUpId];
        if user.coin < powerUp.price then Outcome(Rejected(NotEnoughCoins), s)
        else
          var k := FindById(s.users, userId);
          var debited := user.(coin := user.coin - powerUp.price);
          var users := s.users[k := debited];
          Outcome(Success(Purchased), s.(users := users, inventory := AddOrIncrement(s.inventory, debited, powerUp)))
  }

  /** A successful purchase adds exactly one to the bought holding and nothing
      to any other holding. */
  lemma BuyAddsOneHolding(s: Store, userId: nat, powerUpId: nat, otherUser: nat, otherPowerUp: nat)
    requires KeyedCatalogue(s.catalogue)
    requires Buy(s, userId, powerUpId).reply.Success?
    ensures Total(Buy(s, userId, powerUpId).store.inventory, otherUser, otherPowerUp)
         == Total(s.inventory, otherUser, otherPowerUp)
            + (if otherUser == userId && otherPowerUp == powerUpId then 1 else 0)
  {
    var k := FindById(s.users, userId);
    IncrementAddsOne(s.inventory, s.users[k], s.catalogue[powerUpId], otherUser, otherPowerUp);
  }

  /** `usePowerUp`. An unknown power-up is rejected; a known one is reported
      as used whether or not the decrement found anything to take. */
  function Use(s: Store, userId: nat, powerUpId: nat): (r: Outcome)
    ensures !HasId(s.users, userId) ==> r == Outcome(Raised(UserNotFoundById(userId)), s)
    ensures HasId(s.users, userId) && powerUpId !in s.catalogue ==> r == Outcome(Rejected(PowerUpNotFound), s)
    ensures HasId(s.users, userId) && powerUpId in s.catalogue ==>
      && r.reply == Success(Used)
      && r.store == s.(inventory := Decrement(s.inventory, s.users[FindById(s.users, userId)], s.catalogue[powerUpId]))
  {
    match GetEntityById(s.users, userId)
    case Thrown(e) => Outcome(Raised(e), s)
    case Ok(user) =>
      if powerUpId !in s.catalogue then Outcome(Rejected(PowerUpNotFound), s)
      else Outcome(Success(Used), s.(inventory := Decrement(s.inventory, user, s.catalogue[powerUpId])))
  }

  /** Using a power-up the user has none of still answers "used", and leaves
      the store exactly as it was. */
  lemma UseOfNothingIsSilent(s: Store, userId: nat, powerUpId: nat)
    requires KeyedCatalogue(s.catalogue)
    requires HasId(s.users, userId) && powerUpId in s.catalogue
    requires NonNegative(s.inventory) && Total(s.inventory, userId, powerUpId) == 0
    ensures Use(s, userId, powerUpId) == Outcome(Success(Used), s)
  {
    var k := FindById(s.users, userId);
    NoSpendableWhenTotalZero(s.inventory, userId, powerUpId);
    DecrementRemovesOne(s.inventory, s.users[k], s.catalogue[powerUpId], userId, powerUpId);
  }

  /** With non-negative quantities, a zero total means no positive row. */
  lemma {:induction false} NoSpendableWhenTotalZero(rows: seq<UserPowerUp>, userId: nat, powerUpId: nat)
    requires NonNegative(rows) && Total(rows, userId, powerUpId) == 0
    ensures forall i :: 0 <= i < |rows| ==> !Spendable(rows[i], userId, powerUpId)
  {
    if |rows| > 0 {
      NonNegativeTotal(rows[1..], userId, powerUpId);
      NoSpendableWhenTotalZero(rows[1..], userId, powerUpId);
      forall i | 1 <= i < |rows|
        ensures !Spendable(rows[i], userId, powerUpId)
      {
        assert rows[i] == rows[1..][i - 1];
      }
    }
  }

  lemma {:induction false} NonNegativeTotal(rows: seq<UserPowerUp>, userId: nat, powerUpId: nat)
    requires NonNegative(rows)
    ensures Total(rows, userId, powerUpId) >= 0
  {
    if |rows| > 0 {
      NonNegativeTotal(rows[1..], userId, powerUpId);
    }
  }

  /** One line of the owned-power-ups listing. */
  datatype OwnedDTO = OwnedDTO(powerUpId: nat, powerUpName: string, quantity: int)

  function ToOwnedDTO(row: UserPowerUp): OwnedDTO {
    OwnedDTO(row.powerUp.id, row.powerUp.name, row.quantity)
  }

  /** `getUserOwnedPowerUps`: one DTO per row of the user, in row order. */
  function Owned(s: Store, userId: nat): (r: seq<OwnedDTO>)
    ensures |r| == |RowsOf(s.inventory, userId)|
    ensures forall i :: 0 <= i < |r| ==>
      && r[i].powerUpId == RowsOf(s.inventory, userId)[i].powerUp.id
      && r[i].quantity == RowsOf(s.inventory, userId)[i].quantity
      && r[i].powerUpName == RowsOf(s.inventory, userId)[i].powerUp.name
  {
    var rows := RowsOf(s.inventory, userId);
    seq(|rows|, i requires 0 <= i < |rows| => ToOwnedDTO(rows[i]))
  }

  /** Sum of the listed quantities of one power-up. */
  function ListedTotal(dtos: seq<OwnedDTO>, powerUpId: nat): int {
    if |dtos| == 0 then 0
    else (if dtos[0].powerUpId == powerUpId then dtos[0].quantity else 0) + ListedTotal(dtos[1..], powerUpId)
  }

  /** The listing shows exactly what the user holds of every power-up. */
  lemma OwnedShowsHoldings(s: Store, userId: nat, powerUpId: nat)
    ensures ListedTotal(Owned(s, userId), powerUpId) == Total(s.inventory, userId, powerUpId)
  {
    RowsOfKeepsTotal(s.inventory, userId, powerUpId);
    ListingMatchesRows(RowsOf(s.inventory, userId), userId, powerUpId);
  }

  lemma {:induction false} ListingMatchesRows(rows: seq<UserPowerUp>, userId: nat, powerUpId: nat)
    requires forall i :: 0 <= i < |rows| ==> rows[i].userId == userId
    ensures ListedTotal(seq(|rows|, i requires 0 <= i < |rows| => ToOwnedDTO(rows[i])), powerUpId)
         == Total(rows, userId, powerUpId)
  {
    if |rows| > 0 {
      var dtos := seq(|rows|, i requires 0 <= i < |rows| => ToOwnedDTO(rows[i]));
      var tail := rows[1..];
      assert dtos[1..] == seq(|tail|, i requires 0 <= i < |tail| => ToOwnedDTO(tail[i]));
      ListingMatchesRows(tail, userId, powerUpId);
    }
  }
}
