/** The user service: registration with unique username and email, lookups
    by id and by username, the leaderboard view and the monotone high score.

    The user table is a sequence in insertion order; a lookup returns the
    first row that matches, and a new row gets the next identity value. A
    `RuntimeException` thrown by the service is the `Thrown` result. */
module Accounts {
  import opened Common
  import opened Entities

  datatype Failure =
    | UsernameTaken
    | EmailInUse
    | UserNotFoundById(id: nat)
    | UserNotFoundByName(name: string)

  /** The exception message the service attaches to each failure. */
  function Message(f: Failure): string {
    match f
    case UsernameTaken => "Username is already taken"
    case EmailInUse => "Email is already in use"
    case UserNotFoundById(id) => "User not found with id: " + DecimalString(id)
    case UserNotFoundByName(name) => "User not found with username: " + name
  }

  datatype Result<+T> = Ok(value: T) | Thrown(error: Failure)

  /** The user view sent to clients. The four-argument constructor the service
      uses never fills the password, so it stays null. */
  datatype UserDTO = UserDTO(id: nat, username: string, email: string, password: Option<string>, highestScore: int)

  datatype LeaderboardEntry = LeaderboardEntry(username: string, score: int, rank: nat)

  datatype UserRepo = UserRepo(users: seq<User>, nextId: nat)

  /** What the table's keys and unique columns guarantee. */
  predicate ValidRepo(repo: UserRepo) {
    && (forall i :: 0 <= i < |repo.users| ==> repo.users[i].id < repo.nextId)
    && (forall i, j :: 0 <= i < j < |repo.users| ==> repo.users[i].id != repo.users[j].id)
    && (forall i, j :: 0 <= i < j < |repo.users| ==> repo.users[i].username != repo.users[j].username)
    && (forall i, j :: 0 <= i < j < |repo.users| ==> repo.users[i].email != repo.users[j].email)
  }

  predicate UsernameExists(users: seq<User>, name: string) {
    exists i :: 0 <= i < |users| && users[i].username == name
  }

  predicate EmailExists(users: seq<User>, email: string) {
    exists i :: 0 <= i < |users| && users[i].email == email
  }

  predicate HasId(users: seq<User>, id: nat) {
    exists i :: 0 <= i < |users| && users[i].id == id
  }

  /** Position of the first user with this id, or |users|. */
  function FindById(users: seq<User>, id: nat): (k: nat)
    ensures k <= |users|
    ensures k < |users| ==> users[k].id == id
    ensures forall j :: 0 <= j < k ==> users[j].id != id
  {
    if |users| == 0 then 0
    else if users[0].id == id then 0
    else 1 + FindById(users[1..], id)
  }

  /** Position of the first user with this username, or |users|. */
  function FindByUsername(users: seq<User>, name: string): (k: nat)
    ensures k <= |users|
    ensures k < |users| ==> users[k].username == name
    ensures forall j :: 0 <= j < k ==> users[j].username != name
  {
    if |users| == 0 then 0
    else if users[0].username == name then 0
    else 1 + FindByUsername(users[1..], name)
  }

  /** The first match is unique: any position with a match and none before it
      is the one the lookup returns. */
  lemma {:induction false} FindByIdIs(users: seq<User>, id: nat, k: nat)
    requires k < |users| && users[k].id == id
    requires forall j :: 0 <= j < k ==> users[j].id != id
    ensures FindById(users, id) == k
  {
    if k > 0 {
      FindByIdIs(users[1..], id, k - 1);
    }
  }

  lemma {:induction false} FindByUsernameIs(users: seq<User>, name: string, k: nat)
    requires k < |users| && users[k].username == name
    requires forall j :: 0 <= j < k ==> users[j].username != name
    ensures FindByUsername(users, name) == k
  {
    if k > 0 {
      FindByUsernameIs(users[1..], name, k - 1);
    }
  }

  /** `convertToDTO`: id, username, email and high score; no password. */
  function ToDTO(u: User): (d: UserDTO)
    ensures d.password.None?
    ensures d.id == u.id && d.username == u.username && d.email == u.email && d.highestScore == u.highestScore
  {
    UserDTO(u.id, u.username, u.email, None, u.highestScore)
  }

  datatype Registration = Registration(result: Result<UserDTO>, repo: UserRepo)

  /** `registerUser`: the username is checked before the email, and a user is
      stored only when both are unused. The new user starts with a zero high
      score and zero coins. */
  function Register(repo: UserRepo, username: string, encodedPassword: string, email: string): (r: Registration)
    ensures UsernameExists(repo.users, username) ==> r == Registration(Thrown(UsernameTaken), repo)
    ensures !UsernameExists(repo.users, username) && EmailExists(repo.users, email) ==>
      r == Registration(Thrown(EmailInUse), repo)
    ensures r.result.Ok? <==> !UsernameExists(repo.users, username) && !EmailExists(repo.users, email)
    ensures r.result.Ok? ==>
      && r.repo.users == repo.users + [User(repo.nextId, username, encodedPassword, email, 0, 0)]
      && r.repo.nextId == repo.nextId + 1
      && r.result.value.username == username && r.result.value.id == repo.nextId
  {
    if UsernameExists(repo.users, username) then Registration(Thrown(UsernameTaken), repo)
    else if EmailExists(repo.users, email) then Registration(Thrown(EmailInUse), repo)
    else
      var user := User(repo.nextId, username, encodedPassword, email, 0, 0);
      Registration(Ok(ToDTO(user)), UserRepo(repo.users + [user], repo.nextId + 1))
  }

  /** `getEntityById`: the stored user, or an error when there is none. */
  function GetEntityById(users: seq<User>, id: nat): (r: Result<User>)
    ensures r.Ok? <==> HasId(users, id)
    ensures r.Ok? ==> r.value.id == id && r.value in users
    ensures r.Thrown? ==> r.error == UserNotFoundById(id)
  {
    var k := FindById(users, id);
    if k < |users| then Ok(users[k]) else Thrown(UserNotFoundById(id))
  }

  /** `getUserById`: the DTO of the stored user, or an error. */
  function GetUserById(users: seq<User>, id: nat): (r: Result<UserDTO>)
    ensures r.Ok? <==> HasId(users, id)
    ensures r.Ok? ==> r.value.id == id && r.value.password.None?
    ensures r.Ok? ==> FindById(users, id) < |users| && r.value == ToDTO(users[FindById(users, id)])
    ensures r.Thrown? ==> r.error == UserNotFoundById(id)
  {
    match GetEntityById(users, id)
    case Ok(u) => Ok(ToDTO(u))
    case Thrown(e) => Thrown(e)
  }

  /** `getUserByUsername`: the DTO of the stored user, or an error. */
  function GetUserByUsername(users: seq<User>, name: string): (r: Result<UserDTO>)
    ensures r.Ok? <==> UsernameExists(users, name)
    ensures r.Ok? ==> r.value.username == name && r.value.password.None?
    ensures r.Ok? ==> FindByUsername(users, name) < |users| && r.value == ToDTO(users[FindByUsername(users, name)])
    ensures r.Thrown? ==> r.error == UserNotFoundByName(name)
  {
    var k := FindByUsername(users, name);
    if k < |users| then Ok(ToDTO(users[k])) else Thrown(UserNotFoundByName(name))
  }

  /** A freshly registered user can be looked up by name and by id. */
  lemma RegisterThenLookup(repo: UserRepo, username: string, encodedPassword: string, email: string)
    requires ValidRepo(repo)
    requires Register(repo, username, encodedPassword, email).result.Ok?
    ensures var r := Register(repo, username, encodedPassword, email);
      && GetUserByUsername(r.repo.users, username) == r.result
      && GetUserById(r.repo.users, repo.nextId) == r.result
  {
    var r := Register(repo, username, encodedPassword, email);
    var users := r.repo.users;
    FindByUsernameIs(users, username, |repo.users|);
    FindByIdIs(users, repo.nextId, |repo.users|);
  }

  /** Registration keeps ids, usernames and emails unique. */
  lemma RegisterKeepsValid(repo: UserRepo, username: string, encodedPassword: string, email: string)
    requires ValidRepo(repo)
    ensures ValidRepo(Register(repo, username, encodedPassword, email).repo)
  {
  }

  datatype Update = Update(result: Result<UserDTO>, repo: UserRepo)

  /** `updateHighScore`: the stored high score becomes the larger of the old
      one and `score`, and is written only on a strict improvement. */
  function UpdateHighScore(repo: UserRepo, id: nat, score: int): (r: Update)
    ensures !HasId(repo.users, id) ==> r == Update(Thrown(UserNotFoundById(id)), repo)
    ensures HasId(repo.users, id) ==>
      var k := FindById(repo.users, id);
      var best := if score > repo.users[k].highestScore then score else repo.users[k].highestScore;
      && r.result == Ok(ToDTO(repo.users[k].(highestScore := best)))
      && r.repo == repo.(users := repo.users[k := repo.users[k].(highestScore := best)])
      && r.result.value.highestScore >= score
      && r.result.value.highestScore >= repo.users[k].highestScore
    ensures HasId(repo.users, id) && score <= repo.users[FindById(repo.users, id)].highestScore ==> r.repo == repo
  {
    var k := FindById(repo.users, id);
    if k < |repo.users| then
      var user := repo.users[k];
      if score > user.highestScore then
        var saved := user.(highestScore := score);
        Update(Ok(ToDTO(saved)), repo.(users := repo.users[k := saved]))
      else
        Update(Ok(ToDTO(user)), repo)
    else Update(Thrown(UserNotFoundById(id)), repo)
  }

  /** Submitting the same score twice changes nothing the second time. */
  lemma UpdateHighScoreIdempotent(repo: UserRepo, id: nat, score: int)
    ensures var once := UpdateHighScore(repo, id, score);
      UpdateHighScore(once.repo, id, score) == once
  {
    var once := UpdateHighScore(repo, id, score);
    if HasId(repo.users, id) {
      var k := FindById(repo.users, id);
      FindByIdIs(once.repo.users, id, k);
    }
  }

  /** `getLeaderboard`: one entry per user of the ranking query, in its order,
      with rank = position + 1 and that user's high score. */
  method GetLeaderboard(topUsers: seq<User>) returns (board: seq<LeaderboardEntry>)
    ensures |board| == |topUsers|
    ensures forall i :: 0 <= i < |board| ==>
      && board[i].rank == i + 1
      && board[i].username == topUsers[i].username
      && board[i].score == topUsers[i].highestScore
  {
    board := [];
    var i := 0;
    while i < |topUsers|
      invariant 0 <= i <= |topUsers|
      invariant |board| == i
      invariant forall j :: 0 <= j < i ==>
        && board[j].rank == j + 1
        && board[j].username == topUsers[j].username
        && board[j].score == topUsers[j].highestScore
    {
      var user := topUsers[i];
      board := board + [LeaderboardEntry(user.username, user.highestScore, i + 1)];
      i := i + 1;
    }
  }
}
