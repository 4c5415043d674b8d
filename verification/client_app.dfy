/** The client shell: which screen is shown, the signed-in user as the client
    keeps it, the sound settings, and the browser storage that mirrors them.

    Browser storage is three slots (saved user, token, sound settings);
    JSON encoding of the saved values is not modelled. A saved user slot
    holding the text "undefined" is read back as no user, so it is modelled
    as an empty slot. */
module ClientApp {
  import opened Common

  datatype Screen = Home | Login | Game | Settings | Leaderboard

  /** A user object as the client holds it. Every numeric field may be
      missing; `highScore` is the one the screens read. */
  datatype ClientUser = ClientUser(
    username: string,
    highScore: Option<int>,
    highestScore: Option<int>,
    score: Option<int>,
    id: Option<int>,
    coin: Option<int>,
    email: Option<string>)

  datatype Sound = Sound(enabled: bool, music: real, sfx: real)

  const DefaultSound: Sound := Sound(true, 0.7, 0.8)

  datatype Storage = Storage(user: Option<ClientUser>, token: Option<string>, sound: Option<Sound>)

  datatype App = App(screen: Screen, user: Option<ClientUser>, sound: Sound, storage: Storage)

  /** The state right after the mount effect has read storage back. */
  function Mounted(storage: Storage): (a: App)
    ensures a.screen == Home && a.user == storage.user && a.storage == storage
    ensures storage.sound.None? ==> a.sound == DefaultSound
  {
    App(Home, storage.user, storage.sound.GetOr(DefaultSound), storage)
  }

  /** A number is truthy unless it is missing or zero. */
  predicate Truthy(n: Option<int>) {
    n.Some? && n.value != 0
  }

  /** `a || b || ... || 0` over numbers: the first truthy one, else 0. */
  function FirstTruthy(ns: seq<Option<int>>): (r: int)
    ensures r == 0 <==> forall i :: 0 <= i < |ns| ==> !Truthy(ns[i])
    ensures r != 0 ==> exists i :: 0 <= i < |ns| && ns[i] == Some(r) && forall j :: 0 <= j < i ==> !Truthy(ns[j])
  {
    if |ns| == 0 then 0
    else if Truthy(ns[0]) then ns[0].value
    else
      var r := FirstTruthy(ns[1..]);
      assert forall i :: 1 <= i < |ns| ==> ns[i] == ns[1..][i - 1];
      r
  }

  /** The high score a login keeps: `highScore || highestScore || score || 0`. */
  function BestScore(u: ClientUser): int {
    FirstTruthy([u.highScore, u.highestScore, u.score])
  }

  /** A zero `highScore` does not count: the next field is used. */
  lemma ZeroHighScoreFallsThrough(u: ClientUser)
    requires u.highScore == Some(0) && Truthy(u.highestScore)
    ensures BestScore(u) == u.highestScore.value
  {
    var ns := [u.highScore, u.highestScore, u.score];
    assert ns[1..] == [u.highestScore, u.score];
    assert FirstTruthy(ns[1..]) == u.highestScore.value;
  }

  /** What the login call produced: an object with up to three places the
      user may sit in, or a thrown error. */
  datatype LoginReply =
    | Replied(user: Option<ClientUser>, data: Option<ClientUser>, payload: Option<ClientUser>, token: Option<string>)
    | ReplyThrew(message: Option<string>)

  /** Which call `handleLogin` makes: a sign-in with a password, or a plain
      lookup by name when the password is missing or empty. */
  datatype LoginCall = SignIn(username: string, password: string) | LookUp(username: string)

  datatype LoginOutcome = LoginOutcome(app: App, call: LoginCall, alert: Option<string>)

  const NoUserAlert: string := "Login gagal: Data user tidak ditemukan."
  const LoginFailed: string := "Login failed"

  /** `handleLogin`. The first present user object is kept with its high score
      normalised, stored, and the screen returns home; the token is stored
      only when it is a non-empty string. Without a user object, or when the
      call throws, only an alert is raised. */
  function HandleLogin(app: App, username: string, password: Option<string>, reply: LoginReply): (r: LoginOutcome)
    ensures r.call.SignIn? <==> password.Some? && password.value != ""
    ensures r.call.username == username
    ensures reply.ReplyThrew? ==> r.app == app && r.alert == Some(StringOr(reply.message, LoginFailed))
    ensures reply.Replied? && reply.user.None? && reply.data.None? && reply.payload.None? ==>
      r.app == app && r.alert == Some(NoUserAlert)
    ensures r.alert.None? <==> LookupFound(reply)
    ensures r.alert.None? ==>
      var raw := if reply.user.Some? then reply.user.value
                 else if reply.data.Some? then reply.data.value else reply.payload.value;
      && r.app.user == Some(raw.(highScore := Some(BestScore(raw))))
      && r.app.storage.user == r.app.user
      && r.app.screen == Home
      && r.app.sound == app.sound && r.app.storage.sound == app.storage.sound
      && (reply.token.Some? && reply.token.value != "" ==> r.app.storage.token == reply.token)
      && (reply.token.None? || reply.token.value == "" ==> r.app.storage.token == app.storage.token)
  {
    var call := if password.Some? && password.value != "" then SignIn(username, password.value) else LookUp(username);
    match reply
    case ReplyThrew(m) => LoginOutcome(app, call, Some(StringOr(m, LoginFailed)))
    case Replied(u, d, p, token) =>
      var raw := if u.Some? then u else if d.Some? then d else p;
      if raw.None? then LoginOutcome(app, call, Some(NoUserAlert))
      else
        var user := raw.value.(highScore := Some(BestScore(raw.value)));
        var tokenSlot := if token.Some? && token.value != "" then token else app.storage.token;
        var storage := app.storage.(user := Some(user), token := tokenSlot);
        LoginOutcome(App(Home, Some(user), app.sound, storage), call, None)
  }

  /** `handleLogout`: no user, both user slots of storage cleared, home. */
  function HandleLogout(app: App): (r: App)
    ensures r.user.None? && r.storage.user.None? && r.storage.token.None?
    ensures r.screen == Home
    ensures r.sound == app.sound && r.storage.sound == app.storage.sound
  {
    App(Home, None, app.sound, app.storage.(user := None, token := None))
  }

  /** `handlePlayNow`: the game for a signed-in user, the login screen
      otherwise. */
  function HandlePlayNow(app: App): (r: App)
    ensures r == app.(screen := r.screen)
    ensures r.screen == Game <==> app.user.Some?
    ensures r.screen == Login <==> app.user.None?
  {
    app.(screen := if app.user.Some? then Game else Login)
  }

  /** A `score > highScore` comparison: false when the high score is
      missing, as a comparison with `undefined` is. */
  predicate Beats(score: int, highScore: Option<int>) {
    highScore.Some? && score > highScore.value
  }

  /** The local half of `updateHighScore`: a signed-in user whose score is
      beaten gets the new score, in memory and in storage; otherwise nothing
      changes. */
  function LocalHighScore(app: App, score: int): (r: App)
    ensures app.user.Some? && Beats(score, app.user.value.highScore) ==>
      && r.user == Some(app.user.value.(highScore := Some(score)))
      && r.storage == app.storage.(user := r.user)
      && r.screen == app.screen && r.sound == app.sound
    ensures !(app.user.Some? && Beats(score, app.user.value.highScore)) ==> r == app
  {
    match app.user
    case Some(u) =>
      if Beats(score, u.highScore) then
        var updated := u.(highScore := Some(score));
        app.(user := Some(updated), storage := app.storage.(user := Some(updated)))
      else app
    case None => app
  }

  /** The kept high score never goes down, and a second report of the same
      score changes nothing. */
  lemma LocalHighScoreIsMonotone(app: App, score: int)
    requires app.user.Some? && app.user.value.highScore.Some?
    ensures var r := LocalHighScore(app, score);
      && r.user.Some? && r.user.value.highScore.Some?
      && r.user.value.highScore.value >= app.user.value.highScore.value
      && r.user.value.highScore.value >= score
      && LocalHighScore(r, score) == r
  {
  }

  /** `handleSoundSettingsChange` and `saveSoundSettings`, which are the same:
      the settings in memory and in storage become exactly the given triple. */
  function SetSound(app: App, enabled: bool, music: real, sfx: real): (r: App)
    ensures r.sound == Sound(enabled, music, sfx) && r.storage.sound == Some(r.sound)
    ensures r.screen == app.screen && r.user == app.user
    ensures r.storage.user == app.storage.user && r.storage.token == app.storage.token
  {
    var s := Sound(enabled, music, sfx);
    app.(sound := s, storage := app.storage.(sound := Some(s)))
  }

  /** The global click handler: the volume of the click sound, or nothing on
      the game screen or with sound off. */
  function ClickVolume(app: App): (v: Option<real>)
    ensures v.Some? <==> app.screen != Game && app.sound.enabled
    ensures v.Some? ==> v.value == app.sound.sfx
  {
    if app.screen == Game then None
    else if !app.sound.enabled then None
    else Some(app.sound.sfx)
  }

  /** What the sign-in form writes to storage before it hands the name on:
      the token slot's text (the text "undefined" when the reply has no
      token) and the saved user (none when the reply has no user). */
  datatype SavedLogin = SavedLogin(token: string, user: Option<ClientUser>)

  /** The form's two storage writes; memory and the screen are untouched. */
  function WriteSaved(app: App, saved: SavedLogin): (r: App)
    ensures r.storage.token == Some(saved.token) && r.storage.user == saved.user
    ensures r.storage.sound == app.storage.sound
    ensures r.screen == app.screen && r.user == app.user && r.sound == app.sound
  {
    app.(storage := app.storage.(token := Some(saved.token), user := saved.user))
  }

  /** A reply that carries a user object somewhere. */
  predicate LookupFound(reply: LoginReply) {
    reply.Replied? && (reply.user.Some? || reply.data.Some? || reply.payload.Some?)
  }

  /** The form's sign-in as the shell sees it. The form exists only on the
      login screen. It first writes storage; with a saved user it then calls
      `handleLogin` with that user's name alone, so the lookup by name runs
      and `reply` is that lookup's result. Without a saved user the form
      throws before the call, and only the writes remain. */
  function FormSignIn(app: App, saved: SavedLogin, reply: LoginReply): (r: App)
    ensures app.screen != Login ==> r == app
    ensures app.screen == Login ==> r.sound == app.sound && r.storage.sound == app.storage.sound
    ensures app.screen == Login && (saved.user.None? || reply.ReplyThrew? || reply.token.None?) ==>
      r.storage.token == Some(saved.token)
    ensures app.screen == Login && !(saved.user.Some? && LookupFound(reply)) ==>
      r.user == app.user && r.storage.user == saved.user && r.screen == Login
    ensures app.screen == Login && saved.user.Some? && LookupFound(reply) ==>
      r.user.Some? && r.storage.user == r.user && r.screen == Home
  {
    if app.screen != Login then app
    else
      var written := WriteSaved(app, saved);
      if saved.user.Some? then HandleLogin(written, saved.user.value.username, None, reply).app
      else written
  }

  /** What the game screen requires before submitting a score: a truthy
      stored token and a truthy user id. The id is read as `id ?? userId`;
      a client user has no `userId` field, so a missing id is falsy. */
  predicate SubmitsScore(app: App) {
    && app.storage.token.Some? && app.storage.token.value != ""
    && app.user.Some? && Truthy(app.user.value.id)
  }

  /** What can happen to the shell. Navigation callbacks lead only home, to
      the settings or to the leaderboard. */
  datatype AppEvent =
    | PlayNow
    | SignInSubmitted(saved: SavedLogin, reply: LoginReply)
    | Logout
    | GameOver(score: int)
    | SoundChange(enabled: bool, music: real, sfx: real)
    | Navigate(target: Screen)

  predicate ValidEvent(e: AppEvent) {
    e.Navigate? ==> e.target in {Home, Settings, Leaderboard}
  }

  function Step(app: App, e: AppEvent): App {
    match e
    case PlayNow => HandlePlayNow(app)
    case SignInSubmitted(saved, reply) => FormSignIn(app, saved, reply)
    case Logout => HandleLogout(app)
    case GameOver(score) => LocalHighScore(app, score)
    case SoundChange(enabled, music, sfx) => SetSound(app, enabled, music, sfx)
    case Navigate(target) => app.(screen := target)
  }

  function Run(app: App, es: seq<AppEvent>): App
    decreases |es|
  {
    if |es| == 0 then app else Run(Step(app, es[0]), es[1..])
  }

  /** What storage and memory keep in common. A signed-in user is always the
      saved one, and saved sound settings equal the live ones; the game
      screen is only shown to a signed-in user, which the game screen relies
      on, and the login screen only to a signed-out one. A saved user with
      none in memory can happen: see `FailedLookupKeepsSavedUser`. */
  predicate InSync(app: App) {
    && (app.user.Some? ==> app.storage.user == app.user)
    && (app.storage.sound.Some? ==> app.storage.sound.value == app.sound)
    && (app.screen == Game ==> app.user.Some?)
    && (app.screen == Login ==> app.user.None?)
  }

  lemma MountedIsInSync(storage: Storage)
    ensures InSync(Mounted(storage))
    ensures Mounted(storage).storage.user == Mounted(storage).user
  {
  }

  lemma StepKeepsInSync(app: App, e: AppEvent)
    requires InSync(app) && ValidEvent(e)
    ensures InSync(Step(app, e))
  {
  }

  lemma {:induction false} RunKeepsInSync(app: App, es: seq<AppEvent>)
    requires InSync(app)
    requires forall i :: 0 <= i < |es| ==> ValidEvent(es[i])
    ensures InSync(Run(app, es))
    decreases |es|
  {
    if |es| > 0 {
      StepKeepsInSync(app, es[0]);
      assert forall i :: 0 <= i < |es| - 1 ==> es[1..][i] == es[i + 1];
      RunKeepsInSync(Step(app, es[0]), es[1..]);
    }
  }

  /** When the lookup after the form's writes fails, memory has no user but
      storage keeps the one the form saved, so reloading the page signs that
      user in. Storage then no longer mirrors memory. */
  lemma FailedLookupKeepsSavedUser(app: App, saved: SavedLogin, message: Option<string>)
    requires InSync(app) && app.screen == Login && saved.user.Some?
    ensures var r := Step(app, SignInSubmitted(saved, ReplyThrew(message)));
      && r.user.None? && r.screen == Login
      && r.storage.user == saved.user && r.storage.user != r.user
      && r.storage.token == Some(saved.token)
      && Mounted(r.storage).user == saved.user
  {
  }

  /** After a successful sign-in the score is submitted exactly when the
      form stored a non-empty token and the user the lookup produced has a
      non-zero id; the lookup never replaces the form's token. */
  lemma SignedInSubmitsScore(app: App, saved: SavedLogin, reply: LoginReply)
    requires InSync(app) && app.screen == Login && saved.user.Some?
    requires reply.Replied? && reply.token.None?
    requires reply.user.Some? || reply.data.Some? || reply.payload.Some?
    ensures var r := Step(app, SignInSubmitted(saved, reply));
      var raw := if reply.user.Some? then reply.user.value
                 else if reply.data.Some? then reply.data.value else reply.payload.value;
      && r.storage.token == Some(saved.token)
      && (SubmitsScore(r) <==> saved.token != "" && Truthy(raw.id))
  {
  }

  /** The click sound follows the stored effects settings whenever some are
      stored, after any run of handlers from a mounted page. */
  lemma ClickFollowsStoredSound(storage: Storage, es: seq<AppEvent>)
    requires forall i :: 0 <= i < |es| ==> ValidEvent(es[i])
    ensures var r := Run(Mounted(storage), es);
      r.storage.sound.Some? ==>
        && (ClickVolume(r).Some? <==> r.screen != Game && r.storage.sound.value.enabled)
        && (ClickVolume(r).Some? ==> ClickVolume(r).value == r.storage.sound.value.sfx)
  {
    MountedIsInSync(storage);
    RunKeepsInSync(Mounted(storage), es);
  }
}
