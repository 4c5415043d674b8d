/** The HTTP client helpers: how each response (status flag and parsed body)
    becomes a returned value or a thrown error, and how a sign-in reply is
    normalised into the user object the shell keeps. Requests themselves are
    not modelled; each helper receives the response it would have read. */
module ApiClient {
  import opened Common
  import opened ClientApp
  import opened PowerUpController
  import Accounts
  import Entities

  datatype Response<T> = Response(ok: bool, body: T)

  datatype Outcome<T> = Returned(value: T) | Threw(message: string)

  // ---------------------------------------------------------------------------
  // login
  // ---------------------------------------------------------------------------

  /** The `payload` object of a sign-in reply. */
  datatype LoginPayload = LoginPayload(
    token: Option<string>,
    id: Option<int>,
    username: Option<string>,
    highestScore: Option<int>,
    email: Option<string>)

  /** The parsed body of a sign-in reply, with the fields anyone reads. */
  datatype LoginBody = LoginBody(
    message: Option<string>,
    payload: Option<LoginPayload>,
    token: Option<string>,
    user: Option<ClientUser>,
    data: Option<ClientUser>)

  /** What `login` resolves to: the normalised pair, or the body as it came. */
  datatype LoginValue = Normalised(token: Option<string>, user: ClientUser) | PassedThrough(body: LoginBody)

  const LoginFailedMessage: string := "Login failed"

  /** `login`. A failed status throws the server's message or "Login failed";
      a payload is normalised with `??` defaults (so a zero high score is
      kept); any other body is returned unchanged. */
  function Login(requested: string, r: Response<LoginBody>): (o: Outcome<LoginValue>)
    ensures o.Threw? <==> !r.ok
    ensures o.Threw? ==> o.message == StringOr(r.body.message, LoginFailedMessage) && o.message != ""
    ensures r.ok && r.body.payload.None? ==> o == Returned(PassedThrough(r.body))
    ensures r.ok && r.body.payload.Some? ==>
      var p := r.body.payload.value;
      && o.Returned? && o.value.Normalised?
      && o.value.token == p.token
      && o.value.user.id == p.id
      && (p.username.Some? ==> o.value.user.username == p.username.value)
      && (p.username.None? ==> o.value.user.username == requested)
      && o.value.user.highScore == Some(p.highestScore.GetOr(0))
      && o.value.user.email == Some(p.email.GetOr(""))
  {
    if !r.ok then Threw(StringOr(r.body.message, LoginFailedMessage))
    else match r.body.payload
      case Some(p) =>
        Returned(Normalised(p.token, ClientUser(p.username.GetOr(requested), Some(p.highestScore.GetOr(0)),
                                                 None, None, p.id, None, Some(p.email.GetOr("")))))
      case None => Returned(PassedThrough(r.body))
  }

  // ---------------------------------------------------------------------------
  // Calls that throw a fixed message
  // ---------------------------------------------------------------------------

  datatype Call =
    | RegisterCall
    | LeaderboardCall
    | UserByNameCall
    | SubmitSessionCall
    | SessionsCall
    | PowerUpsCall
    | OwnedCall

  function FailureMessage(c: Call): string {
    match c
    case RegisterCall => "Register failed"
    case LeaderboardCall => "Failed to fetch leaderboard"
    case UserByNameCall => "Failed to fetch user"
    case SubmitSessionCall => "Failed to submit game session"
    case SessionsCall => "Failed to fetch sessions"
    case PowerUpsCall => "Failed to fetch powerups"
    case OwnedCall => "Failed to fetch user owned powerups"
  }

  /** Each of these calls throws its own message exactly when the status is
      not ok, and otherwise returns the body untouched. */
  function Plain<T>(c: Call, r: Response<T>): (o: Outcome<T>)
    ensures o.Threw? <==> !r.ok
    ensures o.Threw? ==> o.message == FailureMessage(c)
    ensures o.Returned? ==> o.value == r.body
  {
    if !r.ok then Threw(FailureMessage(c)) else Returned(r.body)
  }

  /** The thrown message tells which call failed. */
  lemma FailureMessagesIdentifyTheCall(c1: Call, c2: Call, r1: Response<int>, r2: Response<int>)
    requires Plain(c1, r1).Threw? && Plain(c2, r2).Threw?
    requires Plain(c1, r1).message == Plain(c2, r2).message
    ensures c1 == c2
  {
  }

  // ---------------------------------------------------------------------------
  // getUserByUsername, end to end
  // ---------------------------------------------------------------------------

  /** What the lookup endpoint puts on the wire: 200 with the DTO as the
      `payload` of the body, or an error status when the service throws. */
  function LookupOnTheWire(r: Accounts.Result<Accounts.UserDTO>): (w: Response<Option<Accounts.UserDTO>>)
    ensures w.ok <==> r.Ok?
    ensures r.Ok? ==> w.body == Some(r.value)
  {
    match r
    case Ok(dto) => Response(true, Some(dto))
    case Thrown(_) => Response(false, None)
  }

  /** The DTO as the shell reads it from `payload`: the password is null and
      there is no `highScore` field. */
  function AsClientUser(d: Accounts.UserDTO): (u: ClientUser)
    ensures u.username == d.username && u.id == Some(d.id) && u.email == Some(d.email)
    ensures u.highScore.None? && u.highestScore == Some(d.highestScore) && u.score.None?
  {
    ClientUser(d.username, None, Some(d.highestScore), None, Some(d.id), None, Some(d.email))
  }

  /** How `handleLogin` sees what `getUserByUsername` produced: the body's
      `payload` is the one user object present, and there is no token. */
  function AsLookupReply(o: Outcome<Option<Accounts.UserDTO>>): (reply: LoginReply)
    ensures o.Threw? ==> reply == ReplyThrew(Some(o.message))
    ensures o.Returned? ==> reply.Replied? && reply.user.None? && reply.data.None? && reply.token.None?
    ensures o.Returned? && o.value.Some? ==> reply.payload == Some(AsClientUser(o.value.value))
    ensures o.Returned? && o.value.None? ==> reply.payload.None?
  {
    match o
    case Threw(m) => ReplyThrew(Some(m))
    case Returned(body) =>
      Replied(None, None, if body.Some? then Some(AsClientUser(body.value)) else None, None)
  }

  /** The shell's state after the sign-in form wrote `saved` and the lookup of
      the saved user's name ran against the server's users. */
  function SignInAgainst(users: seq<Entities.User>, app: App, saved: SavedLogin): App
    requires saved.user.Some?
  {
    var name := saved.user.value.username;
    var wire := LookupOnTheWire(Accounts.GetUserByUsername(users, name));
    Step(app, SignInSubmitted(saved, AsLookupReply(Plain(UserByNameCall, wire))))
  }

  /** Signing in through the form keeps the high score the server holds for
      that name, zero included, with the form's token in storage. An unknown
      name leaves the user signed out on the login screen, with the form's
      user still saved. */
  lemma SignInKeepsServerHighScore(users: seq<Entities.User>, app: App, saved: SavedLogin)
    requires InSync(app) && app.screen == Screen.Login && saved.user.Some?
    ensures var name := saved.user.value.username;
      var r := SignInAgainst(users, app, saved);
      && (Accounts.UsernameExists(users, name) ==>
            var stored := users[Accounts.FindByUsername(users, name)];
            && r.user.Some?
            && r.user.value.username == name
            && r.user.value.highScore == Some(stored.highestScore)
            && r.user.value.id == Some(stored.id)
            && r.screen == Home
            && r.storage.user == r.user
            && r.storage.token == Some(saved.token))
      && (!Accounts.UsernameExists(users, name) ==>
            && r.user.None? && r.screen == Screen.Login
            && r.storage.user == saved.user && r.storage.token == Some(saved.token))
  {
    var name := saved.user.value.username;
    var lookup := Accounts.GetUserByUsername(users, name);
    if lookup.Ok? {
      var u := AsClientUser(lookup.value);
      var ns := [u.highScore, u.highestScore, u.score];
      assert ns[1..] == [u.highestScore, u.score];
      assert ns[1..][1..] == [u.score];
      assert ns[1..][1..][1..] == [];
      assert FirstTruthy(ns) == FirstTruthy(ns[1..]);
      if lookup.value.highestScore == 0 {
        assert FirstTruthy(ns[1..]) == FirstTruthy(ns[1..][1..]) == FirstTruthy(ns[1..][1..][1..]) == 0;
      }
      assert BestScore(u) == lookup.value.highestScore;
      assert AsLookupReply(Plain(UserByNameCall, LookupOnTheWire(lookup))).payload == Some(u);
    }
  }

  /** An unknown name reaches the player as the lookup's own failure
      message, in the shell's alert. */
  lemma UnknownNameAlertsFetchFailure(users: seq<Entities.User>, app: App, saved: SavedLogin)
    requires saved.user.Some? && !Accounts.UsernameExists(users, saved.user.value.username)
    ensures var name := saved.user.value.username;
      var reply := AsLookupReply(Plain(UserByNameCall, LookupOnTheWire(Accounts.GetUserByUsername(users, name))));
      HandleLogin(WriteSaved(app, saved), name, None, reply).alert == Some("Failed to fetch user")
  {
  }

  // ---------------------------------------------------------------------------
  // buyPowerUp / usePowerUp
  // ---------------------------------------------------------------------------

  /** The `ApiResponse` body of a purchase or a use. */
  datatype ActionBody = ActionBody(success: Option<bool>, message: Option<string>)

  datatype Action = BuyAction | UseAction

  function ActionFallback(a: Action): string {
    match a
    case BuyAction => "Gagal membeli power up"
    case UseAction => "Gagal menggunakan power up"
  }

  /** A purchase or use fails on a bad status or on `success === false`
      (a missing flag does not count), with the server's message or the
      call's fallback. */
  function PowerUpAction(a: Action, r: Response<ActionBody>): (o: Outcome<ActionBody>)
    ensures o.Threw? <==> !r.ok || r.body.success == Some(false)
    ensures o.Threw? ==> o.message == StringOr(r.body.message, ActionFallback(a)) && o.message != ""
    ensures o.Returned? ==> o.value == r.body
  {
    if !r.ok || r.body.success == Some(false) then Threw(StringOr(r.body.message, ActionFallback(a)))
    else Returned(r.body)
  }

  /** What the power-up endpoints put on the wire: 200 with success, 400 with
      a rejection, and an error response without the two fields when the
      user lookup throws. */
  function OnTheWire(reply: Reply): Response<ActionBody> {
    match reply
    case Success(m) => Response(true, ActionBody(Some(true), Some(m)))
    case Rejected(m) => Response(false, ActionBody(Some(false), Some(m)))
    case Raised(_) => Response(false, ActionBody(None, None))
  }

  /** A purchase through the client succeeds exactly when the server debited
      the user; a refusal surfaces with the server's own message. */
  lemma ClientBuyFollowsServer(s: Store, userId: nat, powerUpId: nat)
    ensures var server := Buy(s, userId, powerUpId);
      var client := PowerUpAction(BuyAction, OnTheWire(server.reply));
      && (client.Returned? <==> server.reply.Success?)
      && (server.reply.Rejected? ==> client == Threw(server.reply.message))
      && (server.reply.Raised? ==> client == Threw(ActionFallback(BuyAction)))
  {
  }

  /** The same for a use: only an unknown power-up or user makes it throw. */
  lemma ClientUseFollowsServer(s: Store, userId: nat, powerUpId: nat)
    ensures var server := Use(s, userId, powerUpId);
      var client := PowerUpAction(UseAction, OnTheWire(server.reply));
      && (client.Returned? <==> server.reply.Success?)
      && (server.reply.Rejected? ==> client == Threw(PowerUpNotFound))
  {
  }
}
