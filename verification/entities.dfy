/** The persistent records of the account service, as the service code reads
    and writes them. Fields are those the services and controllers touch. */
module Entities {
  import opened Common

  /** A registered player. The password is the already-encoded string. */
  datatype User = User(
    id: nat,
    username: string,
    password: string,
    email: string,
    highestScore: int,
    coin: int)

  /** A purchasable power-up. Its price is an abstract natural number. */
  datatype PowerUp = PowerUp(
    id: nat,
    name: string,
    description: string,
    duration: Option<int>,
    price: nat)

  /** One inventory row: how many of a power-up a user owns. */
  datatype UserPowerUp = UserPowerUp(userId: nat, powerUp: PowerUp, quantity: int)
}
