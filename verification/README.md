# Neon Runner — a Dafny model of its core

Neon Runner is an endless-runner browser game with an account server. The
React client runs the game loop, the login form, the shop and the
leaderboard. The Spring server keeps users, power-up holdings and finished
game sessions. This project models the core of both halves as pure Dafny
functions over immutable data, and proves properties of them.

- `runner.dfy` (`Runner`) covers the game screen:
  - one animation frame: move, despawn, spawn, collide, score and speed;
  - the jump and duck postures with their locks and timers;
  - the keyboard handler and "play again";
  - an invariant that every reachable state keeps.
- `user_powerups.dfy` (`UserPowerUps`) covers the power-up holding table: add-or-increment and decrement.
- `powerup_controller.dfy` (`PowerUpController`) covers the buy / use / owned endpoints.
- `accounts.dfy` (`Accounts`) covers the user service: register, the lookups, the leaderboard and the high-score update.
- `game_sessions.dfy` (`GameSessions`) covers saving a finished run and converting a session to its DTO. A save is not one transaction: a usage that throws (a null power-up id at the lookup, a missing or unparsable time at the parse, or a null duration at the insert, whose column `GameSessionPowerUp` declares not null) does so after the session and the earlier usage records are stored, and before the high score is raised.
- `local_date_time.dfy` (`LocalDateTimes`) covers `LocalDateTime.parse` and `toString` as the session service uses them, with the round trip between them.
- `login_form.dfy` (`LoginForm`) covers the sign-in / sign-up form:
  - the three regular expressions, each as a loop or recursive checker, with the email one proved equal to a grammar;
  - `String.prototype.trim`;
  - the submit handler, including its two storage writes before the name is handed to the shell.
- `client_app.dfy` (`ClientApp`) covers the client shell:
  - login normalisation, logout, play-now, the local high score, the sound settings and the click sound;
  - the sign-in as the form drives it: storage is written first, then the shell looks the name up;
  - an invariant: a signed-in user is always the saved one, and the saved sound settings are the live ones. Storage can hold a saved user while memory has none: a failed lookup after the form's writes leaves it there, and a reload then signs that user in.
- `shop_view.dfy` (`ShopView`) covers the shop screen, with an end-to-end proof that it shows what the server holds.
- `leaderboard_view.dfy` (`LeaderboardView`) covers the leaderboard screen: ranks, the current user's rank, highlighting and medal categories.
- `api_client.dfy` (`ApiClient`) covers the HTTP helpers: how a response becomes a value or a thrown message. It also connects the client's power-up calls and the sign-in lookup to the server's replies.
- `common.dfy` and `entities.dfy` hold the shared helpers and the persisted entities.

JavaScript semantics are modelled explicitly where the code depends on them:
- `||` treats 0 and "" as falsy.
- `??` falls back only on a missing value.
- `.` in a regular expression excludes line terminators.
- `{6,}` counts UTF-16 code units.
- `trim` removes the ECMAScript white-space and line-terminator set.
- `findIndex` answers -1 when nothing matches.
- `success === false` is the only failing flag; a missing flag does not fail.

Randomness (`Math.random`), timers and HTTP replies become parameters or events.

The model follows the code as written, including:
- A frame that crashes still adds one to the score and steps the speed. The game-over handler receives the score from before that frame.
- The keyboard handler does not look at the pause state, so jumping and ducking work while paused.
- The spawn cursor never scrolls left with the obstacles. Each new obstacle is placed at least 220 past the previous spawn position (`Runner.SpawnCursorOnlyGrows`), not 220 past the last visible obstacle.
- The stand-alone `checkCollision` helper of the game screen is never called. The loop's own collision test, which adds a posture rule by obstacle type, is the one modelled.
- `saveGameSession` returns its high-score flag from the comparison made before the update. It overrides the flag `convertToDTO` computes.
- The login form calls the shell's `handleLogin` with the user name only, so the shell always takes its lookup-by-name branch. The password branch of `handleLogin` is modelled, but no caller reaches it.

## Model

| member | source | states |
|---|---|---|
| Runner.OverlapIffSharedInteriorPoint | frontend/src/components/GameScreen.tsx:346-350 | the four strict comparisons of the overlap test hold exactly when the two rectangles share an interior point, so rectangles that only touch do not collide |
| Runner.RobotRect | frontend/src/components/GameScreen.tsx:332-337 | the robot's hitbox sits in the fixed lane at x = 500, is 90 wide, has an area, and is shorter than the standing height while ducking |
| Runner.FirstHit | frontend/src/components/GameScreen.tsx:357-365 | the reported obstacle is the first in list order that collides; no obstacle is reported exactly when none collides |
| Runner.Advance | frontend/src/components/GameScreen.tsx:323-327 | the kept obstacles are exactly the moved obstacles whose right edge is still right of 0; nothing is invented and none grows in number |
| Runner.AdvanceKeepsOrder | frontend/src/components/GameScreen.tsx:323-327 | moving and filtering keep the obstacle ids strictly ascending along the list |
| Runner.CreateObstacle | frontend/src/components/GameScreen.tsx:133-185 | a new obstacle gets the next id, lands 220 to 420 past the spawn cursor, has the generator's shape, and is `low` exactly when the type draw is below one half |
| Runner.Frame | frontend/src/components/GameScreen.tsx:321-378 | a frame outside play changes nothing; in play, score and speed step (speed capped at 13), the game ends exactly when a moved obstacle collides, the crash records that obstacle and hands on the pre-frame score, and a spawn appends one obstacle and moves the cursor to it |
| Runner.Jump | frontend/src/components/GameScreen.tsx:380-393 | a jump starts only from the ground, when neither jumping, ducking nor locked, and then sets the jump height and lock; otherwise nothing changes |
| Runner.EndJump | frontend/src/components/GameScreen.tsx:387-391 | the jump timer puts the robot back on the ground and releases the lock, touching nothing else |
| Runner.Duck | frontend/src/components/GameScreen.tsx:395-405 | a duck starts only on the ground, when neither ducking, jumping nor locked; otherwise nothing changes |
| Runner.EndDuck | frontend/src/components/GameScreen.tsx:400-403 | the duck timer stands the robot up and releases the lock, touching nothing else |
| Runner.HandleKey | frontend/src/components/GameScreen.tsx:409-426 | auto-repeat, unknown keys and every key after game over are ignored; P toggles pause; Space or ArrowUp jumps; ArrowDown ducks |
| Runner.Reset | frontend/src/components/GameScreen.tsx:506-523 | play again restarts at score 0 and starting speed with no obstacles and the cursor at the right edge, but keeps the id counter and both locks |
| Runner.InitialIsValid | frontend/src/components/GameScreen.tsx:86-126 | the state the screen mounts with satisfies the game invariant |
| Runner.FramePreservesValid | frontend/src/components/GameScreen.tsx:321-378 | a frame keeps the invariant: ids below the counter and ascending, obstacles left of the cursor and shaped, speed in range, never jumping and ducking at once |
| Runner.StepPreservesValid | frontend/src/components/GameScreen.tsx:380-426 | every event (frame, key, timer, play again) keeps the invariant |
| Runner.RunPreservesValid | frontend/src/components/GameScreen.tsx:380-405 | after any sequence of events the robot never jumps and ducks at once and the speed stays between 6 and 13 |
| Runner.FrameIsMonotone | frontend/src/components/GameScreen.tsx:375-376 | a frame never lowers the score or the speed, and the speed never passes its cap |
| Runner.GameOverIsFrozen | frontend/src/components/GameScreen.tsx:409-413 | once the game is over, neither a frame (guard at line 322) nor any key changes the state |
| Runner.PostureRuleMatchesGeometry | frontend/src/components/GameScreen.tsx:346-356 | for generated obstacles in the robot's lane, a `low` one overlaps exactly when the robot is not ducking and a `high` one exactly when it is not jumping, so the type rule agrees with plain overlap |
| Runner.SpawnCursorOnlyGrows | frontend/src/components/GameScreen.tsx:173-174 | during play the spawn cursor never moves left, and each spawn moves it at least 220 right |
| UserPowerUps.FirstMatch | backend/src/main/java/com/nelson/proyekoop/service/UserPowerUpService.java:31-38 | the found row is the first holding the user has of that power-up; none is found exactly when there is none |
| UserPowerUps.FirstSpendable | backend/src/main/java/com/nelson/proyekoop/service/UserPowerUpService.java:49-52 | the found row is the first matching holding with a positive quantity; none is found exactly when there is none |
| UserPowerUps.RowsOf | backend/src/main/java/com/nelson/proyekoop/service/UserPowerUpService.java:25-27 | the listing holds exactly the user's rows of the table and no other rows |
| UserPowerUps.RowsOfKeepsTotal | backend/src/main/java/com/nelson/proyekoop/service/UserPowerUpService.java:25-27 | the user's listing sums to the same per-power-up total as the whole table |
| UserPowerUps.AddOrIncrement | backend/src/main/java/com/nelson/proyekoop/service/UserPowerUpService.java:29-46 | an existing holding gains one in place; otherwise a new row with quantity 1 is appended; no other row changes |
| UserPowerUps.Decrement | backend/src/main/java/com/nelson/proyekoop/service/UserPowerUpService.java:48-58 | the first spendable holding loses one; without one the table is unchanged |
| UserPowerUps.IncrementAddsOne | backend/src/main/java/com/nelson/proyekoop/service/UserPowerUpService.java:29-46 | the user's total of that power-up rises by exactly one, and every other (user, power-up) total stays the same |
| UserPowerUps.DecrementRemovesOne | backend/src/main/java/com/nelson/proyekoop/service/UserPowerUpService.java:48-58 | with a spendable holding the total falls by exactly one, otherwise it stays; other totals never change |
| UserPowerUps.OperationsKeepNonNegative | backend/src/main/java/com/nelson/proyekoop/service/UserPowerUpService.java:48-58 | neither operation makes any quantity negative |
| UserPowerUps.IncrementKeepsUnique | backend/src/main/java/com/nelson/proyekoop/service/UserPowerUpService.java:31-45 | increment never creates a second row for the same user and power-up |
| UserPowerUps.ExistingRowIsSpentFirst | backend/src/main/java/com/nelson/proyekoop/service/UserPowerUpService.java:50-55 | a row the user already spends from is the one decrement picks |
| UserPowerUps.IncrementThenDecrement | backend/src/main/java/com/nelson/proyekoop/service/UserPowerUpService.java:29-58 | adding one and then spending one leaves every total as it was |
| PowerUpController.Buy | backend/src/main/java/com/nelson/proyekoop/controller/PowerUpController.java:37-51 | an unknown power-up is refused, a balance below the price is refused, an unknown user raises; a purchase debits the price and adds one holding, changing nothing else |
| PowerUpController.BuyAddsOneHolding | backend/src/main/java/com/nelson/proyekoop/controller/PowerUpController.java:47-50 | a successful purchase raises the buyer's total of that power-up by one and no other total |
| PowerUpController.Use | backend/src/main/java/com/nelson/proyekoop/controller/PowerUpController.java:64-73 | an unknown power-up is refused, an unknown user raises; otherwise the reply is success and one holding is spent if there is one |
| PowerUpController.UseOfNothingIsSilent | backend/src/main/java/com/nelson/proyekoop/controller/PowerUpController.java:67-72 | using a power-up the user holds none of still answers success and leaves the table untouched |
| PowerUpController.Owned | backend/src/main/java/com/nelson/proyekoop/controller/PowerUpController.java:53-62 | the listing has one line per row of the user, in order, with that row's power-up id and quantity |
| PowerUpController.OwnedShowsHoldings | backend/src/main/java/com/nelson/proyekoop/controller/PowerUpController.java:53-62 | the listing's lines for a power-up sum to the user's total holding of it |
| Accounts.ToDTO | backend/src/main/java/com/nelson/proyekoop/service/UserService.java:92-99 | the DTO copies id, name, email and high score and never carries the password |
| Accounts.Register | backend/src/main/java/com/nelson/proyekoop/service/UserService.java:27-40 | a taken username or email throws its message and stores nothing; otherwise one user is appended with the encoded password and zero score and coins |
| Accounts.GetEntityById | backend/src/main/java/com/nelson/proyekoop/service/UserService.java:87-90 | the stored user with that id, or "User not found" when there is none |
| Accounts.GetUserById | backend/src/main/java/com/nelson/proyekoop/service/UserService.java:42-48 | the DTO of the first stored user with that id (`ToDTO` of it, so no password), or "User not found" exactly when there is none |
| Accounts.GetUserByUsername | backend/src/main/java/com/nelson/proyekoop/service/UserService.java:50-56 | the DTO of the first stored user with that name (`ToDTO` of it, so no password), or "User not found" exactly when there is none |
| Accounts.RegisterThenLookup | backend/src/main/java/com/nelson/proyekoop/service/UserService.java:27-56 | a registered user is found afterwards by name with the registered fields |
| Accounts.RegisterKeepsValid | backend/src/main/java/com/nelson/proyekoop/service/UserService.java:27-40 | registration keeps usernames, emails and ids unique |
| Accounts.UpdateHighScore | backend/src/main/java/com/nelson/proyekoop/service/UserService.java:74-85 | an unknown user throws; a higher score replaces the high score of that user only; a lower or equal one changes nothing |
| Accounts.UpdateHighScoreIdempotent | backend/src/main/java/com/nelson/proyekoop/service/UserService.java:78-81 | reporting the same score twice has the effect of reporting it once |
| Accounts.GetLeaderboard | backend/src/main/java/com/nelson/proyekoop/service/UserService.java:58-72 | one entry per user in order, rank i + 1 at position i, with that user's name and high score |
| GameSessions.FallbackScore | backend/src/main/java/com/nelson/proyekoop/service/GameSessionService.java:39-45 | the stored score is the reported score, else the distance travelled, else 0 |
| GameSessions.ConvertToDTO | backend/src/main/java/com/nelson/proyekoop/service/GameSessionService.java:95-121 | the DTO carries the session id, the owner's id and name, score, coins and distance; a missing usage list stays missing; usage i keeps record i's power-up id, name, description, duration and printed time; the flag says whether the score equals the owner's high score |
| GameSessions.FailureOf | backend/src/main/java/com/nelson/proyekoop/service/GameSessionService.java:56-64 | a usage throws at the lookup when its id is null, never when its id is unknown, and for a known id at the parse when its time is missing or unparsable, else at the insert exactly when its duration is null |
| GameSessions.Recorded | backend/src/main/java/com/nelson/proyekoop/service/GameSessionService.java:55-67 | ids that are present but unknown are skipped; every record is linked to the session, names a catalogue power-up and has a valid time; the loop throws exactly when some usage fails (a null id, or a known id with a missing or unparsable time or a null duration), and then names such a usage; with only unknown ids nothing is recorded |
| GameSessions.RecordedCountsKnown | backend/src/main/java/com/nelson/proyekoop/service/GameSessionService.java:55-67 | when no usage throws, the number of records equals the number of reports naming a known power-up |
| GameSessions.SaveGameSession | backend/src/main/java/com/nelson/proyekoop/service/GameSessionService.java:37-76 | an unknown user throws and nothing is stored; otherwise the session is stored with the fallback score and the recorded usages are appended; a failing usage then throws its failure with the users untouched; else the reply has the score, the user id, no usage list, and the flag set by the strict comparison with the old high score |
| GameSessions.SaveOnlyTouchesHighScore | backend/src/main/java/com/nelson/proyekoop/service/GameSessionService.java:68-72 | saving changes no user except the player, and the player's high score only: it becomes the larger of the old one and the score when the save completes, and stays when a usage throws |
| GameSessions.SaveWithoutKnownUsagesRecordsNothing | backend/src/main/java/com/nelson/proyekoop/service/GameSessionService.java:55-67 | a report whose usages are missing, or all carry an id naming no stored power-up, adds no usage record, and the save completes |
| GameSessions.ZonedTimeStoresSessionButNotHighScore | backend/src/main/java/com/nelson/proyekoop/service/GameSessionService.java:53-72 | a usage time with a zone suffix, as `toISOString` writes it, makes the save throw after the session is stored, with no usage record and no high-score change |
| GameSessions.NullDurationStoresSessionButNotHighScore | backend/src/main/java/com/nelson/proyekoop/service/GameSessionService.java:53-72 | a known power-up reported without a duration makes the save throw at the insert of its record after the session is stored, with no usage record and no high-score change |
| GameSessions.NullIdStopsAfterEarlierRecords | backend/src/main/java/com/nelson/proyekoop/service/GameSessionService.java:53-67 | a usage with a null id makes the save throw after the session and the records of the usages before it are stored, with the users untouched |
| GameSessions.ParseReported | backend/src/main/java/com/nelson/proyekoop/service/GameSessionService.java:63-63 | a missing time fails to parse, and a present one parses as `LocalDateTime.parse` does |
| GameSessions.RecordedOne | backend/src/main/java/com/nelson/proyekoop/service/GameSessionService.java:56-65 | a single report throws when its id is null; is skipped when its id is unknown; with a known id throws when its time is missing or does not parse or its duration is null; and is otherwise recorded with the catalogue power-up, its duration and the parsed time |
| GameSessions.RecordedAppend | backend/src/main/java/com/nelson/proyekoop/service/GameSessionService.java:55-67 | recording a list is recording its first part and then, unless that part threw, its second part, so records are in report order |
| GameSessions.ConvertedTimesParseBack | backend/src/main/java/com/nelson/proyekoop/service/GameSessionService.java:107-114 | every time the DTO prints parses back to the stored instant |
| LocalDateTimes.ParseSeconds | backend/src/main/java/com/nelson/proyekoop/service/GameSessionService.java:63-63 | an optional `:ss` with an optional fraction of up to nine digits; the nanoseconds are always below one second |
| LocalDateTimes.Parse | backend/src/main/java/com/nelson/proyekoop/service/GameSessionService.java:63-63 | a parsed date-time is a real calendar instant (leap years, month lengths, hour below 24) and its text has the `yyyy-MM-ddTHH:mm` shape, the `T` in either case |
| LocalDateTimes.Padded | backend/src/main/java/com/nelson/proyekoop/service/GameSessionService.java:113-113 | a field printed in exactly the given number of decimal digits |
| LocalDateTimes.ValueOfPadded | backend/src/main/java/com/nelson/proyekoop/service/GameSessionService.java:113-113 | a number below 10^w printed in w digits reads back as itself |
| LocalDateTimes.SecondsRoundTrip | backend/src/main/java/com/nelson/proyekoop/service/GameSessionService.java:113-113 | the seconds and fraction `toString` prints (none, `:ss`, or 3, 6 or 9 fraction digits) parse back to the same values |
| LocalDateTimes.ParseShow | backend/src/main/java/com/nelson/proyekoop/service/GameSessionService.java:113-113 | printing a valid date-time and parsing the text gives it back |
| LocalDateTimes.ZoneSuffixIsRejected | backend/src/main/java/com/nelson/proyekoop/service/GameSessionService.java:63-63 | a printed date-time followed by `Z` does not parse |
| LoginForm.CheckUsername | frontend/src/components/LoginScreen.tsx:20-20 | accepts exactly the names of 3 to 20 ASCII letters, digits and underscores |
| LoginForm.CheckPassword | frontend/src/components/LoginScreen.tsx:23-23 | accepts exactly the passwords with an upper-case letter, a listed symbol, no line terminator and at least 6 UTF-16 units |
| LoginForm.DomainOk | frontend/src/components/LoginScreen.tsx:21-21 | an accepted domain is at least four characters long and ends in a label character |
| LoginForm.EmailOk | frontend/src/components/LoginScreen.tsx:21-21 | an accepted address is at least six characters long, starts with a local character and ends in a label character |
| LoginForm.DomainOkIffGrammar | frontend/src/components/LoginScreen.tsx:21-21 | the deterministic domain check accepts exactly the strings of the `([\w-]+\.)+[\w-]{2,}` grammar |
| LoginForm.EmailOkIffGrammar | frontend/src/components/LoginScreen.tsx:21-21 | the deterministic address check accepts exactly the strings of the whole email grammar |
| LoginForm.Trim | frontend/src/components/LoginScreen.tsx:43-49 | the result is the input without its leading and trailing white space, its ends are not white space, and an input without white space at either end is returned as is |
| LoginForm.Validate | frontend/src/components/LoginScreen.tsx:25-51 | username, then email when signing up, then password: the first failing rule names the error; a request is sent exactly when all apply, with the fields as typed |
| LoginForm.SignInIgnoresEmail | frontend/src/components/LoginScreen.tsx:32-32 | in sign-in mode the email field does not affect the outcome |
| LoginForm.Submit | frontend/src/components/LoginScreen.tsx:25-56 | a refused form shows the rule's message and sends nothing; a failed call shows its message or "Failed"; a sign-up switches to sign-in mode; a sign-in saves the reply's token (text "undefined" when missing) and user, then hands on that user's name, or shows the `TypeError` when the reply has no user |
| LoginForm.SignUpThenSignIn | frontend/src/components/LoginScreen.tsx:48-51 | after a successful sign-up the same username and password pass sign-in validation |
| LoginForm.SignInSavesServerReply | frontend/src/components/LoginScreen.tsx:43-47 | a sign-in the server accepts with a payload saves the server's token and the normalised user (its id and high score) and hands on the server's name, or the typed one when the payload has none |
| LoginForm.SignInWithoutUserClearsSavedUser | frontend/src/components/LoginScreen.tsx:43-53 | a reply with neither payload nor user still overwrites the token slot, empties the saved user, and ends in the form's error |
| LoginForm.SignInEnablesScoreSubmission | frontend/src/components/GameScreen.tsx:307-311 | after a form sign-in and the lookup of a stored name, the game screen submits scores exactly when the server's token (stored as "undefined" when missing) is non-empty and the stored user's id is not zero |
| ClientApp.Mounted | frontend/src/App.tsx:33-46 | the mounted shell shows home with the stored user and the stored sound settings, or the defaults |
| ClientApp.FirstTruthy | frontend/src/App.tsx:92-93 | the result is 0 exactly when no value is truthy, and otherwise the first truthy value |
| ClientApp.ZeroHighScoreFallsThrough | frontend/src/App.tsx:92-93 | a zero `highScore` is skipped in favour of `highestScore` |
| ClientApp.HandleLogin | frontend/src/App.tsx:77-105 | the first user object present is kept with its normalised high score, saved, and the screen goes home; the token is saved only when non-empty; no user object or a thrown call only raises an alert |
| ClientApp.HandleLogout | frontend/src/App.tsx:107-112 | no user, the saved user and token cleared, home, sound untouched |
| ClientApp.HandlePlayNow | frontend/src/App.tsx:135-141 | the game screen exactly for a signed-in user, the login screen otherwise |
| ClientApp.LocalHighScore | frontend/src/App.tsx:114-120 | a beaten high score is replaced in memory and in storage; anything else changes nothing |
| ClientApp.LocalHighScoreIsMonotone | frontend/src/App.tsx:114-120 | the kept high score never falls, is at least the reported score, and a repeated report changes nothing |
| ClientApp.SetSound | frontend/src/App.tsx:144-164 | the sound settings in memory and in storage become the given triple; user and screen are untouched |
| ClientApp.ClickVolume | frontend/src/App.tsx:66-75 | a click sounds exactly when not on the game screen and sound is on, at the effects volume |
| ClientApp.MountedIsInSync | frontend/src/App.tsx:33-46 | the mounted shell keeps the invariant, and its user is exactly the saved one |
| ClientApp.StepKeepsInSync | frontend/src/App.tsx:77-164 | every handler, and the form's sign-in, keeps the invariant: a signed-in user is the saved one, the saved sound is the live one, the game is shown only to a signed-in user and the login screen only to a signed-out one |
| ClientApp.RunKeepsInSync | frontend/src/App.tsx:77-164 | the same holds after any sequence of handler calls and sign-ins |
| ClientApp.WriteSaved | frontend/src/components/LoginScreen.tsx:45-46 | the form's writes set the token slot and the saved user and change nothing else |
| ClientApp.FormSignIn | frontend/src/components/LoginScreen.tsx:42-47 | off the login screen nothing happens; the form's token stays unless a lookup reply brings its own; a lookup that finds a user signs it in, saved, and goes home; otherwise the user in memory stays, the form's user stays saved and the login screen stays |
| ClientApp.FailedLookupKeepsSavedUser | frontend/src/App.tsx:35-37 | a lookup that throws after the form's writes leaves no user in memory but the form's user saved, so the page mounts signed in after a reload |
| ClientApp.SignedInSubmitsScore | frontend/src/components/GameScreen.tsx:307-311 | after a sign-in through the lookup the form's token stays, and scores are submitted exactly when that token is non-empty and the looked-up user's id is truthy |
| ClientApp.ClickFollowsStoredSound | frontend/src/App.tsx:66-75 | after any run of handlers from a mounted page, the click sounds exactly off the game screen with stored sound on, at the stored effects volume |
| ShopView.OwnedMap | frontend/src/components/Shop.tsx:64-67 | the map's keys are the listed ids, and an id's value is the quantity on its last line |
| ShopView.OptimisticBuy | frontend/src/components/Shop.tsx:77-84 | the shown quantity of the bought power-up rises by one, and every other shown quantity stays |
| ShopView.ButtonMatchesServerCheck | frontend/src/components/Shop.tsx:131-131 | for a known user and power-up, the button is enabled exactly when the server would accept the purchase |
| ShopView.IconFor | frontend/src/components/Shop.tsx:118-121 | the coin icon exactly when the lower-cased name has "coin"; else the XP icon exactly when it has "xp" (which "exp" implies); else the shield |
| ShopView.ExpContainsXp | frontend/src/components/Shop.tsx:120-120 | a name containing "exp" also contains "xp" |
| ShopView.DisplayedIsListed | frontend/src/components/Shop.tsx:122-122 | over a listing without repeated ids, the shown quantity is the listed quantity |
| ShopView.ShopShowsServerHoldings | frontend/src/components/Shop.tsx:55-68 | with one row per user and power-up, the shop shows exactly the user's total holding on the server |
| ShopView.OptimisticBuyMatchesServer | frontend/src/components/Shop.tsx:77-84 | after a successful purchase, the optimistic value equals the server's new holding |
| LeaderboardView.FindIndex | frontend/src/components/LeaderboardScreen.tsx:41-41 | the first line with the name, or -1 exactly when no line has it |
| LeaderboardView.CurrentUserRank | frontend/src/components/LeaderboardScreen.tsx:40-42 | 0 without a user or a matching line, otherwise one more than the first matching line |
| LeaderboardView.CategoryOf | frontend/src/components/LeaderboardScreen.tsx:13-37 | ranks 1, 2 and 3 get a medal category and every other rank the standard one |
| LeaderboardView.PodiumIsDistinct | frontend/src/components/LeaderboardScreen.tsx:13-37 | the three podium ranks get three different categories |
| LeaderboardView.Lines | frontend/src/components/LeaderboardScreen.tsx:127-129 | line i shows rank i + 1 with that entry's name and score, highlighted exactly when the name is the signed-in user's |
| LeaderboardView.RankIsFirstHighlight | frontend/src/components/LeaderboardScreen.tsx:127-129 | the user's rank is the rank of the first highlighted line, and no line is highlighted when the rank is 0 |
| LeaderboardView.MedalsFollowRank | frontend/src/components/LeaderboardScreen.tsx:13-37 | only the first three lines carry a medal, each a different one, and the user's own line takes its icon and rank colour from the category of the user's rank |
| LeaderboardView.SharedNameHighlightsEveryLine | frontend/src/components/LeaderboardScreen.tsx:127-129 | every line with the user's name is highlighted, while the rank names an earlier or equal line |
| ApiClient.Login | frontend/src/utils/api.ts:13-37 | a bad status throws the server's message or "Login failed"; a payload is normalised with `??` defaults; any other body comes back unchanged |
| ApiClient.SignInKeepsServerHighScore | frontend/src/App.tsx:77-98 | after the form's writes, the lookup of a stored name signs in with the server's high score (zero included) and id, goes home and keeps the form's token; an unknown name leaves the user signed out on the login screen with the form's user saved |
| ApiClient.LookupOnTheWire | backend/src/main/java/com/nelson/proyekoop/controller/UserController.java:47-52 | the lookup endpoint answers ok exactly when the service found the user, with its DTO as the payload |
| ApiClient.AsLookupReply | frontend/src/App.tsx:83-89 | a thrown lookup becomes the shell's thrown reply with its message; a returned body offers only its payload, as the user object, and no token |
| ApiClient.UnknownNameAlertsFetchFailure | frontend/src/utils/api.ts:47-53 | an unknown name reaches the player as the alert "Failed to fetch user" |
| ApiClient.Plain | frontend/src/utils/api.ts:3-11 | register and the six fetch helpers (lines 43, 51, 64, 72, 80, 98) throw their own message exactly on a bad status and otherwise return the body |
| ApiClient.FailureMessagesIdentifyTheCall | frontend/src/utils/api.ts:39-53 | two calls failing with the same message are the same call |
| ApiClient.PowerUpAction | frontend/src/utils/api.ts:84-92 | buy and use (lines 102-110) throw exactly on a bad status or `success === false`, with the server's message or the call's fallback |
| ApiClient.ClientBuyFollowsServer | frontend/src/utils/api.ts:84-92 | a purchase through the client returns exactly when the server accepted it, and a refusal surfaces the server's message |
| ApiClient.ClientUseFollowsServer | frontend/src/utils/api.ts:102-110 | a use through the client returns exactly when the server answered success; an unknown power-up surfaces the server's "Power-up not found" |

## Left out

- Rendering, particles, sound effects, background music, images and their load events: they are presentation and do not feed back into the game state.
- The frame scheduler (`requestAnimationFrame`) and the timers are events. Their timing, and React's batching of state updates, are not modelled: each frame and timer is one atomic step.
- Positions and speeds are Dafny reals, not IEEE doubles, so rounding is not modelled.
- The game-over handler's network submission is modelled by `GameSessions` and `ApiClient`, not as part of the frame.
- The game screen's unused `checkCollision` helper is not modelled, because no code path calls it.
- The mobile orientation overlay and the pause/game-over screens are left out: they only render.
- Requests, `fetch`, JSON encoding and decoding, and the browser storage encoding are left out. Each helper receives the parsed response it would have read.
- The shop's two-second polling and the leaderboard fetches are left out. Both only re-read listings the model already computes.
- Password hashing is a parameter of `Accounts.Register`, because the encoder is foreign code.
- Accounts.Register: the new user's zero high score and zero coins are assumed, because `User.java`, where the initial values would be set, is not part of this model.
- The session's creation time (`playedAt`) is left out: the clock sets it and no logic reads it.
- LocalDateTimes.Parse: only four-digit years 0000 to 9999 are modelled; the signed and longer years that Java accepts with a leading sign are rejected.
- GameSessions.ConvertToDTO: `GameSessionDTO` as shipped declares no `distanceTraveled` or `powerUps` field or setter, although the service calls `setDistanceTraveled` and `setPowerUps`. The model gives the DTO both fields, as the service evidently means.
- LoginForm.Submit: the `TypeError` text for a reply without a user is the one V8-based browsers produce. Other engines word it differently.
- LoginForm.Submit: a `null` and a missing token are one case, both stored as a truthy text. JavaScript stores "null" for the first and "undefined" for the second.
- ClientApp.StepKeepsInSync: saved user and memory are not claimed to agree while signed out. After a failed lookup the form's saved user stays in storage (`ClientApp.FailedLookupKeepsSavedUser`).
- ClientApp.SignedInSubmitsScore: the user's `userId` fallback is not modelled, because no user object the client builds has that field.
- The `User`, `GameSession` and `UserRepository` sources are not part of this model. Their fields are inferred from the getters and setters the services call.
- A freshly constructed session's usage collection is taken to be null when the service converts it.
- `PowerUp.price` does not appear in the entity source. It is modelled as a natural number, because the controller compares it with the coin balance.
- The listing of a user's sessions and the top-sessions query of `GameSessionService` are left out. They are repository queries with no logic of their own.
- Java's 32-bit `int` wrap-around on coins, scores and quantities is not modelled. The model uses unbounded integers.
- ShopView.IconFor: `ToLower` lower-cases ASCII letters only. `toLowerCase` on other letters is not modelled, because Unicode case tables are out of scope.
- ApiClient.OnTheWire: the error body Spring produces for an exception is assumed to have neither a `success` nor a `message` field.
- The loading indicator of the login form is left out. It does not change what is sent or shown.
