# Music player back end: a Dafny model

A model of the stateful core of the music player back end, with proofs about whole runs of
it. The server keeps three shared things: a pool of database connections that its threads
compete for, a store of mailed verification codes that expire, and four SQL tables behind
data access objects. On top of them sit the account handlers and the mail that carries a
code. `dafny verify dfyconfig.toml` checks everything.

| file | what it models |
|---|---|
| `ConnectionPool.dfy` | the FIFO deque, its constructor loop, take, release and the RAII guard, as classes |
| `PoolProtocol.dfy` | every interleaving of any number of threads on that pool, step by step under the mutex |
| `VerifyService.dfy` | the code store as a class, and its runs against a log of successful sends |
| `EmailAddress.dfy`, `EmailUtil.dfy` | the address pattern, the message, the generated code and the chunked upload |
| `PasswordUtil.dfy`, `JWTUtil.dfy`, `Decimal.dfy` | hex digests, tokens, and the decimal text that carries an id in a token |
| `Schema.dfy`, `Database.dfy` | tables, keys, cascades and SQL statements; the server that executes them |
| `UserDAO.dfy`, `PlaylistDAO.dfy`, `PlayHistoryDAO.dfy` | the data access objects, as classes over one server |
| `PlaylistRace.dfy`, `PlayRace.dfy` | any number of clients adding songs or plays at once, statement by statement |
| `Listing.dfy` | result sets whose order the server chooses: limits and pages |
| `UserHandler.dfy` | the account handlers, one request at a time, as a class |
| `Answers.dfy` | what each account handler answers to every request in every state, and the way from the first mail to the profile |
| `Accounts.dfy` | the account server as a state machine: requests interleaved statement by statement |
| `Wrappers.dfy`, `Arithmetic.dfy` | `Option`, integer width, small helpers, division facts |

Outside events are parameters: whether a connection opens, a mail is delivered or a
statement gets through (`Net`), the instants a clock shows, the random digits, the ids the
database passes over, the order in which it returns rows that its query leaves unordered.
The digest and the signature are uninterpreted functions. Clocks do not step back.

Results that a reader of the code might not expect:

- Paging through the play history shows every row once whatever the database does exactly
  when no two rows with the same `played_at` meet across a page boundary, because the query
  orders by that column alone (`PlayHistoryDAO.PagingIsReliableIffNoTieIsCut`).
- A name look-up that fails counts as a free name in `handleRegister`; names and addresses
  stay unique because the table's keys decide (`Accounts.RegistrationSafety`).
- However many clients add songs to playlists at once, each song ends with one row. A client
  is told that its add failed, although the song is listed, exactly when another client's
  insert came between its check and its insert (`PlaylistRace.RaceLeavesOneRow`,
  `PlaylistRace.LoserOfRace`; the other two reasons are a lost connection and a row that the
  table would not take anyway).
- Plays recorded one after the other are counted exactly
  (`PlayHistoryDAO.PlayCountAccounting`). Recorded at once they may not be. A song keeps one
  row exactly when no client that found no row is overtaken by another client's insert
  (`PlayRace.OneRowIffNobodyOvertaken`), and its counter is exact exactly when no successful
  add wrote from a look-up older than another add of the song
  (`PlayRace.CounterExactIffNoStaleAdd`). Both fail for some schedules
  (`PlayRace.TwoRowsWhenBothLookFirst`, `PlayRace.StaleWriteLowersCounter`); the counter only
  ever errs downwards (`PlayRace.NeverOvercounts`).
- `handleChangePassword` asks for a code mailed to the address in the request, which need
  not be the address of the account (`Accounts.ChangeRestsOnAddressNamed`,
  `Accounts.AnyAddressServes`).
- With no more threads than connections nobody ever waits for one, and a call goes without a
  connection only after its deadline (`PoolProtocol.NobodyGoesWithout`).
- A token never outlives its expiry: the 60 s leeway is undone by the second check
  (`JWTUtil.AcceptanceWindow`).
- A play is counted per user and song id; the source is not part of the key.

Where the code departs from its evident purpose, the model does the following. The INSERT at
`src/database/PlayHistoryDAO.cpp:38-40` lists seven columns and has six placeholders; the
model binds the six values and lets `played_at` take its default. `verifyCode` keeps a
pointer into the map after unlocking; the model makes it one atomic step. A DAO call that is
given no connection fails without touching the tables.

## Model

| member | source | states |
|---|---|---|
| ConnectionPool.DBManager.constructor | src/database/DBManager.cpp:45-58 | the pool holds the connections of the attempts before the first failure, in order, up to the configured size |
| ConnectionPool.DBManager.GetConnection | src/database/DBManager.cpp:77-111 | the front connection is taken, after a wait if the deque was empty; null exactly when the wait ended on an empty deque |
| ConnectionPool.DBManager.ReleaseConnection | src/database/DBManager.cpp:113-117 | the connection joins the back of the deque |
| ConnectionPool.SqlConnGuard.Destroy | src/database/DBManager.h:63-67 | a live guard gives back what it was given, nothing for null, and is dead afterwards, so it gives back once |
| ConnectionPool.UseInTurn | src/database/DBManager.cpp:90-116 | sequential calls serve connections as the rotation predicts |
| ConnectionPool.RotationByModulus | src/database/DBManager.cpp:90-116 | after k cycles the deque is the initial one rotated by k mod n |
| ConnectionPool.ServedByModulus | src/database/DBManager.cpp:90-116 | cycle i is served connection i mod n |
| ConnectionPool.EveryConnectionOnce | src/database/DBManager.cpp:90-116 | any n consecutive cycles use each of the n connections once |
| PoolProtocol.InvAlways | src/database/DBManager.cpp:77-117 | mutual exclusion, conservation and no lost wakeup are kept by every step of every interleaving |
| PoolProtocol.Exclusivity | src/database/DBManager.cpp:77-117 | in every reachable state each pooled connection is once in the deque or has one owner, and there are no others |
| PoolProtocol.OneOwner | src/database/DBManager.h:61-67 | a connection in transit or behind a guard has no second owner and is not pooled |
| PoolProtocol.SleeperMeansPromisedOrEmpty | src/database/DBManager.cpp:80-91 | while a thread sleeps, pooled connections are at most the notified threads that have not run; with none of those the pool is empty |
| PoolProtocol.NullOnlyAfterDeadline | src/database/DBManager.cpp:80-92 | in every reachable state null is given only to a thread whose deadline has passed and that finds the deque empty |
| PoolProtocol.ExpiredThreadLeaves | src/database/DBManager.cpp:82-92 | after its deadline a thread does not sleep again: it leaves with the front connection, or with null when there is none |
| PoolProtocol.NobodyGoesWithout | src/database/DBManager.cpp:80-92 | in every run without expired deadlines no call goes without a connection; with no more threads than connections nobody even sleeps |
| PoolProtocol.PoolIsFifo | src/database/DBManager.cpp:90-116 | in every interleaving connections go out in deque order followed by the order of their return |
| PoolProtocol.EmptyPoolHasHolder | src/database/DBManager.cpp:80-92 | with connections configured, an empty pool has an owner that is not itself waiting |
| PoolProtocol.SomebodyCanMove | src/database/DBManager.cpp:80-117 | no reachable state is deadlocked, even without timeouts |
| PoolProtocol.AllAsleepNeedsTimeout | src/database/DBManager.cpp:82-88 | only a pool that opened nothing leaves all its users asleep, and then each can time out |
| PoolProtocol.RunsAreBounded | src/database/DBManager.cpp:80-117 | a run is no longer than its start, its new requests and its spurious wake-ups allow |
| PoolProtocol.PoolComesToRest | src/database/DBManager.cpp:80-117 | once requests stop, every run ends, all threads idle and every connection back in the pool |
| VerifyService.VerifyService.SendVerifyCode | src/server/VerifyService.cpp:21-37 | the code is the six digits drawn; what goes on the wire, if complete, reads back as a mail that ends in that code; a success stores code, action and expiry, replacing the entry of the address, and a failure changes nothing |
| VerifyService.VerifyService.VerifyCode | src/server/VerifyService.cpp:39-54 | true exactly for the stored action and code, up to and including the expiry instant; the entry stays |
| VerifyService.SendThenVerify | src/server/VerifyService.cpp:21-54 | after a delivered mail exactly the digits drawn are accepted, for that action, up to and including the expiry instant |
| VerifyService.VerifyService.CleanupExpiredCodes | src/server/VerifyService.cpp:56-71 | the erase loop ends, leaves exactly the entries not expired at the reading, and returns how many it dropped |
| VerifyService.StoreRefinesLog | src/server/VerifyService.cpp:32-71 | after any run, restarts included, a verification is answered as the log of successful sends since the last start says, for every expiry |
| VerifyService.SweepIsInvisible | src/server/VerifyService.cpp:56-71 | inserting, deleting or moving sweeps changes no answer of a run |
| VerifyService.SweepKeepsNewCodes | src/server/VerifyService.cpp:56-59 | a sweep never drops a code stored after its clock reading |
| VerifyService.RetentionBound | src/server/Server.cpp:57-63 | after a sweep reading T all codes were sent at or after T minus expiry, and are at most as many as the addresses sent to since |
| EmailAddress.ScanDecidesPattern | src/handlers/UserHandler.cpp:404-408 | the scan accepts exactly the language of the regular expression |
| EmailAddress.CharacterClasses | src/handlers/UserHandler.cpp:404-408 | which characters the three bracket expressions contain, one by one |
| EmailAddress.ValidEmailIsOneLine | src/handlers/UserHandler.cpp:404-408 | an accepted address has no line break |
| EmailUtil.MessageRoundTrip | src/utils/EmailUtil.cpp:24-29 | splitting at the first empty line recovers headers and body exactly when no header value has a line break |
| EmailUtil.AcceptedRecipientRoundTrip | src/utils/EmailUtil.cpp:24-29 | for an accepted recipient and one-line sender and subject the message always reads back |
| EmailUtil.CodeMailRoundTrip | src/server/VerifyService.cpp:23-26 | an accepted recipient reads the three headers as written and a body that ends in the code |
| EmailUtil.GenerateVerificationCode | src/utils/EmailUtil.cpp:67-77 | `length` digits, the i-th being the i-th draw; none for a negative length |
| EmailUtil.EmailData.ReadCallback | src/utils/EmailUtil.cpp:79-92 | the buffer's front receives the next min(size*nmemb, left) characters, its rest is untouched, and the pointer advances by as many |
| EmailUtil.Upload | src/utils/EmailUtil.cpp:79-92 | a series of calls hands out the chunks its capacities cut |
| EmailUtil.UploadRoundTrip | src/utils/EmailUtil.cpp:79-92 | for all capacities, chunks then remainder are the message |
| EmailUtil.ConstantCapacityDrains | src/utils/EmailUtil.cpp:79-92 | capacity c drains n characters in exactly ceil(n/c) non-empty calls, then returns nothing |
| EmailUtil.SendTextEmail | src/utils/EmailUtil.cpp:14-65 | what is uploaded is the prefix of the message that the buffers have room for, and a complete upload of one-line headers reads back |
| PasswordUtil.ToHexString | src/utils/PasswordUtil.cpp:28-34 | the loop computes the hex encoding |
| PasswordUtil.UnhexOfHex | src/utils/PasswordUtil.cpp:28-34 | the encoding has two digits a byte and a decoder inverts it |
| PasswordUtil.HexOfUnhex | src/utils/PasswordUtil.cpp:28-34 | whatever decodes is the encoding of what it decodes to |
| PasswordUtil.HexCharacters | src/utils/PasswordUtil.cpp:28-34 | the digits at positions 2i and 2i+1 are those of the high and the low half of byte i |
| PasswordUtil.VerifyIsDigestEquality | src/utils/PasswordUtil.cpp:10-26 | a stored hash has 64 digits and is matched exactly by passwords of the same digest |
| Decimal.AtoiOfToString | src/handlers/UserHandler.cpp:140-183 | atoi inverts to_string on every integer |
| Decimal.AtoiOfText | src/handlers/UserHandler.cpp:183 | white space in front and a non-digit behind do not change the number read |
| Decimal.AtoiOfOther | src/handlers/UserHandler.cpp:183 | a text that does not begin with a number is read as 0 |
| JWTUtil.GenerateToken | src/utils/JWTUtil.cpp:5-27 | the builder yields the registered claims overlaid with the given ones, signed |
| JWTUtil.IssuedClaims | src/utils/JWTUtil.cpp:5-27 | header, signature and each claim of an issued token, and that there are no others |
| JWTUtil.AcceptedExactly | src/utils/JWTUtil.cpp:30-82 | for any token: accepted exactly when signed here over its content under HS256, of this issuer, with an expiry not yet over, and with no issue or start date more than a minute ahead |
| JWTUtil.AcceptanceWindow | src/utils/JWTUtil.cpp:30-82 | an untouched token is accepted exactly from a minute before its issue second to its expiry second |
| JWTUtil.LifetimeOfToken | src/utils/JWTUtil.cpp:30-82 | it lives at least the requested time less a second and never beyond it |
| JWTUtil.LoginTokenNamesAccount | src/handlers/UserHandler.cpp:140-183 | the id read out of a login token is the id put in |
| JWTUtil.LoginTokenDays | src/handlers/UserHandler.cpp:140-142 | a login token is accepted after 119 days and refused after 121 |
| Schema.SchemaAlwaysHolds | sql/MusicPlayer.sql:11-66 | any interleaving of statements keeps ids unique, foreign keys resolved, names, addresses and listed songs unique |
| Schema.IdsAreNotReused | sql/MusicPlayer.sql:11-66 | in every run a row of any table that was not there before has a new id |
| Schema.DeleteUserCascade | sql/MusicPlayer.sql:31-65 | exactly the rows whose foreign keys lead to the user disappear, everything else is unchanged |
| Schema.DeletePlaylistCascade | sql/MusicPlayer.sql:47 | exactly the playlist and its songs disappear |
| Schema.StatementTouchesTarget | src/database/UserDAO.cpp:79-165 | every insert and update touches no row but its own |
| Schema.InsertStoresRow | sql/MusicPlayer.sql:11-66 | a successful insert stores its row under an unused id |
| Schema.RunsExactlyWhen | sql/MusicPlayer.sql:11-66 | each statement runs exactly when its values fit the column widths, its source is known, its parent exists, its key is free and an id is left |
| Schema.AffectedMeansChanged | src/database/UserDAO.cpp:79-120 | a statement reports affected rows exactly when it changed the tables |
| Schema.PasswordLastWriter | src/database/UserDAO.cpp:15-165 | over any run of statements the password column holds the hash last written for that account |
| UserDAO.UserDAO.CreateUser | src/database/UserDAO.cpp:15-40 | success yields a fresh id and the row with the hashed password; the row may exist after a failure to read the id back |
| UserDAO.UserDAO.GetUserById | src/database/UserDAO.cpp:42-58 | the row with that id, NULL columns read as empty, or nothing |
| UserDAO.UserDAO.GetUserByUsername | src/database/UserDAO.cpp:60-77 | the one account of that name, or nothing, also when the query fails |
| UserDAO.UserDAO.UpdateUser | src/database/UserDAO.cpp:79-106 | true exactly when a row changed; then it reads back as given with its old hash |
| UserDAO.UserDAO.DeleteUser | src/database/UserDAO.cpp:108-120 | true exactly when the user existed; then exactly what depends on it is removed |
| UserDAO.UserDAO.UpdatePassword | src/database/UserDAO.cpp:122-135 | an existing account differs afterwards only in its hash; true also for an unknown id |
| UserDAO.UserDAO.UpdateQQId | src/database/UserDAO.cpp:137-150 | an existing account differs afterwards only in its QQ id |
| UserDAO.UserDAO.UpdateNetEaseId | src/database/UserDAO.cpp:152-165 | an existing account differs afterwards only in its NetEase id |
| PlaylistDAO.PlaylistDAO.CreatePlaylist | src/database/PlaylistDAO.cpp:11-36 | success yields a fresh id under which the playlist reads back as given |
| PlaylistDAO.PlaylistDAO.GetPlaylistById | src/database/PlaylistDAO.cpp:38-55 | the playlist with that id, or nothing |
| PlaylistDAO.PlaylistDAO.GetPlaylistsByUserId | src/database/PlaylistDAO.cpp:57-77 | all playlists of the user and of nobody else, each once |
| PlaylistDAO.PlaylistDAO.UpdatePlaylist | src/database/PlaylistDAO.cpp:79-99 | true exactly when a row changed; then it reads back as given with its old owner |
| PlaylistDAO.PlaylistDAO.DeletePlaylist | src/database/PlaylistDAO.cpp:101-113 | true exactly when it existed; then exactly the playlist and its songs are removed |
| PlaylistDAO.PlaylistDAO.AddSongToPlaylist | src/database/PlaylistDAO.cpp:115-153 | the two statements have the effect and answer that the set lemmas speak about |
| PlaylistDAO.PlaylistDAO.RemoveSongFromPlaylist | src/database/PlaylistDAO.cpp:155-174 | likewise for a removal |
| PlaylistDAO.PlaylistDAO.GetSongsInPlaylist | src/database/PlaylistDAO.cpp:176-196 | all songs of the playlist and of no other, each once, as many as the count says |
| PlaylistDAO.PlaylistDAO.CountSongsInPlaylist | src/database/PlaylistDAO.cpp:198-216 | the number of rows of the playlist, 0 when the query fails |
| PlaylistDAO.AddIsInsert | src/database/PlaylistDAO.cpp:115-153 | an add is set insertion, succeeds exactly when the song is listed or fits, and stores the song as given under a new id, touching nothing else |
| PlaylistDAO.RemoveIsDelete | src/database/PlaylistDAO.cpp:155-174 | a removal is set deletion, succeeds exactly when the song was listed, and leaves every other row as it was |
| PlaylistDAO.PlaylistRefinesSet | src/database/PlaylistDAO.cpp:115-174 | any run of adds and removals agrees with a set of (song id, source) for every playlist |
| PlaylistDAO.AddIsIdempotent | src/database/PlaylistDAO.cpp:127-129 | adding a listed song succeeds and changes nothing |
| PlaylistDAO.CountIsSizeOfSet | src/database/PlaylistDAO.cpp:198-216 | the count is the size of that set |
| PlaylistDAO.SongRoundTrip | src/database/PlaylistDAO.cpp:127-243 | a song reads back as written, an empty picture included |
| PlaylistRace.RaceLeavesOneRow | src/database/PlaylistDAO.cpp:115-153 | over any calls and any schedule each song ends with exactly one row if it was listed before or some client was told it was added, and else with none |
| PlaylistRace.LoserOfRace | src/database/PlaylistDAO.cpp:115-153 | over whole runs a client ends with a failure exactly when it was cut off, its row could not be stored, or it checked, another client's insert of the song succeeded, and then it inserted |
| PlaylistRace.TwoAtOnce | src/database/PlaylistDAO.cpp:127-147 | the schedule check, check, insert, insert leaves one row and tells the second client that it failed |
| PlayHistoryDAO.PlayHistoryDAO.AddPlayHistory | src/database/PlayHistoryDAO.cpp:13-56 | read, then update or insert, has the effect the accounting lemmas speak about |
| PlayHistoryDAO.PlayHistoryDAO.GetUserPlayHistory | src/database/PlayHistoryDAO.cpp:58-83 | the requested page of the user's rows, latest first; on the first page no row left out is later than one shown; nothing for a negative limit or offset |
| PlayHistoryDAO.PlayHistoryDAO.ClearUserPlayHistory | src/database/PlayHistoryDAO.cpp:85-98 | the user's rows go; true exactly when there were any |
| PlayHistoryDAO.PlayHistoryDAO.DeletePlayHistory | src/database/PlayHistoryDAO.cpp:100-115 | one row goes, if it is that user's |
| PlayHistoryDAO.ClearPlaysAnswers | src/database/PlayHistoryDAO.cpp:85-98 | true exactly when the user had a row; then the user's rows go and no other |
| PlayHistoryDAO.DeletePlayAnswers | src/database/PlayHistoryDAO.cpp:100-115 | true exactly when the row is there and is the user's; then that row goes and no other |
| PlayHistoryDAO.PlayHistoryDAO.GetUserTotalPlayCount | src/database/PlayHistoryDAO.cpp:117-136 | the number of the user's rows |
| PlayHistoryDAO.PlayHistoryDAO.GetUserTopArtists | src/database/PlayHistoryDAO.cpp:161-186 | the leading groups with their totals |
| PlayHistoryDAO.PlayHistoryDAO.GetUserTopSongs | src/database/PlayHistoryDAO.cpp:188-210 | the songs of the leading rows of the user, by descending counter |
| PlayHistoryDAO.PlayHistoryDAO.GetMostPlayedSongs | src/database/PlayHistoryDAO.cpp:212-236 | the leading rows of the user with their counters, descending, none left out having more plays |
| PlayHistoryDAO.TopSongsAreMostPlayed | src/database/PlayHistoryDAO.cpp:188-262 | with one tie order the top songs are the projection of the most played rows, which descend |
| PlayHistoryDAO.PlayRoundTrip | src/database/PlayHistoryDAO.cpp:37-51 | a first play reads back as written with count 0 and the current time |
| PlayHistoryDAO.AddPlayEffect | src/database/PlayHistoryDAO.cpp:17-51 | an add succeeds exactly when the song has a row or its row fits; it changes only the counter of the row found, or adds a row that reads back as the play; a failed one changes nothing |
| PlayHistoryDAO.PlayCountAccounting | src/database/PlayHistoryDAO.cpp:17-115 | one row per user and song, whose counter plus one is the successful adds since it was created, in 32-bit arithmetic, among any statements on other tables; delete, clear and deleteUser restart it |
| PlayHistoryDAO.PlayCountIsAddsLessOne | src/database/PlayHistoryDAO.cpp:23-51 | the same in plain numbers while the counter cannot have wrapped |
| PlayHistoryDAO.OtherUsersUntouched | src/database/PlayHistoryDAO.cpp:13-115 | no call changes, adds or removes another user's row, and of the statements on other tables only deleteUser removes rows, those of its user |
| PlayRace.OneRowIffNobodyOvertaken | src/database/PlayHistoryDAO.cpp:17-51 | over any calls and any schedule there is one row per user and song exactly when there was and no client found nothing, was overtaken by an insert of the song, and then inserted |
| PlayRace.CounterExactIffNoStaleAdd | src/database/PlayHistoryDAO.cpp:17-51 | over any calls and any schedule one row holds the number of successful adds less one exactly when no successful add was preceded, since its look-up, by another add of the song |
| PlayRace.NeverOvercounts | src/database/PlayHistoryDAO.cpp:23-34 | no schedule makes a counter exceed the successful adds less one |
| PlayRace.TwoRowsWhenBothLookFirst | src/database/PlayHistoryDAO.cpp:17-51 | the schedule look, look, insert, insert leaves two rows |
| PlayRace.OneRowInTurn | src/database/PlayHistoryDAO.cpp:17-51 | the same two calls one after the other leave one |
| PlayRace.StaleWriteLowersCounter | src/database/PlayHistoryDAO.cpp:23-34 | with one row and three clients a late write lowers the counter and reports success |
| PlayHistoryDAO.ReadPages | src/database/PlayHistoryDAO.cpp:58-83 | successive calls return the records of the pages joined, each page cut from the order of its request |
| PlayHistoryDAO.PagingShowsEveryPlayOnce | src/database/PlayHistoryDAO.cpp:58-136 | with one order, the records returned page by page are those of all the user's rows, latest first, each once, as many as the total says |
| PlayHistoryDAO.PagingIsReliableIffNoTieIsCut | src/database/PlayHistoryDAO.cpp:62-64 | over orders the query allows, paging is a partition exactly when no tie meets a page boundary |
| PlayHistoryDAO.TopArtists | src/database/PlayHistoryDAO.cpp:166-178 | group totals add up to all plays; the result has min(limit, artists) entries, descends, and leaves out nothing larger |
| PlayHistoryDAO.TopArtistEntries | src/database/PlayHistoryDAO.cpp:166-178 | each entry is an artist of the user, listed once, with the sum over the set of that artist's rows |
| UserHandler.UserHandler.HandleGetVerifyCode | src/handlers/UserHandler.cpp:21-59 | six drawn digits are mailed exactly on the requests `CodeRequests` describes, and stored exactly when the mail was delivered |
| UserHandler.UserHandler.HandleRegister | src/handlers/UserHandler.cpp:61-112 | the tables and the answer are those of `RegisterAnswers` and of the run that `RegisterIsARun` names |
| UserHandler.UserHandler.HandleLogin | src/handlers/UserHandler.cpp:114-173 | the answer is the one `LoginAnswers` and `TokenIdentity` speak about |
| UserHandler.UserHandler.HandleGetProfile | src/handlers/UserHandler.cpp:175-215 | the answer is the one `ProfileAnswers`, `ForeignTokenRefused` and `TokenIdentity` speak about |
| UserHandler.UserHandler.HandleChangePassword | src/handlers/UserHandler.cpp:310-353 | the tables and the answer are those of `ChangePasswordAnswers` and of the run that `ChangePasswordIsARun` names |
| Answers.CodeRequests | src/handlers/UserHandler.cpp:23-44 | a code is mailed exactly to an address of the pattern and for "register" or "reset_password" |
| Answers.LoginAnswers | src/handlers/UserHandler.cpp:118-160 | login succeeds exactly when both fields are there, the look-up works, some account has the name and the password is the one last given for it; each refusal has its answer, and a success shows that account |
| Answers.ForeignTokenRefused | src/utils/JWTUtil.cpp:35-40 | a token with another signature, algorithm or issuer is refused by both handlers and changes nothing |
| Answers.ExpiredTokenRefused | src/utils/JWTUtil.cpp:42-44 | no token, or a login token after its expiry second, is refused by both handlers and changes nothing |
| Answers.ProfileAnswers | src/handlers/UserHandler.cpp:175-205 | for every token: which answer, and that a profile is the row of the account the token names |
| Answers.ChangePasswordAnswers | src/handlers/UserHandler.cpp:310-340 | for every request: which answer, and that a change needs an accepted token and a live code and replaces the named account's hash alone |
| Answers.RegisterAnswers | src/handlers/UserHandler.cpp:61-102 | for every request: bad request, conflict, server error or the new id, in that order of checks, and exactly when an account is added |
| Answers.MailThenRegister | src/handlers/UserHandler.cpp:21-102 | with a new name and address, the code from the mail typed in time registers the account as given |
| Answers.LoginThenProfile | src/handlers/UserHandler.cpp:114-205 | an account logs in with its password, and with none of another digest, and its token shows its own profile |
| Accounts.InvAlways | src/handlers/UserHandler.cpp:78-97 | schema, mail log, licences, births, passwords and identities are kept by every interleaving, restarts of the server included |
| Accounts.RegistrationSafety | src/handlers/UserHandler.cpp:78-97 | every account was registered once, on a live "register" code that was the latest mail to its well-formed address; names and addresses are unique |
| Accounts.PasswordChangeSafety | src/handlers/UserHandler.cpp:330-337 | every password change rests on an accepted token naming the account and a live "reset_password" code for the address in the request |
| Accounts.ChangeRestsOnAddressNamed | src/handlers/UserHandler.cpp:319-337 | every change comes from one request of the run, and rests on a code for the address the account had exactly when the request named that address |
| Accounts.AnyAddressServes | src/handlers/UserHandler.cpp:319-337 | from every reachable state a run changes a password on a code mailed to any well-formed address |
| Accounts.LoginDecidesByLastPassword | src/handlers/UserHandler.cpp:126-142 | login succeeds exactly when the digests of the given and the last given password agree |
| Accounts.TokenIdentity | src/handlers/UserHandler.cpp:140-189 | after any further run a login's token gets its own account, or nothing, or is refused outside its window |
| Accounts.DeletedStaysDeleted | src/handlers/UserHandler.cpp:183-189 | an id without an account never gets one again |
| Accounts.MailIsAStep | src/handlers/UserHandler.cpp:21-59 | a code request, a sweep and a restart change the code store as the handler does, and no table |
| Accounts.RegisterIsARun | src/handlers/UserHandler.cpp:78-102 | the sequential handler is its three steps in a row, with the same tables and answer |
| Accounts.ChangePasswordIsARun | src/handlers/UserHandler.cpp:325-340 | the sequential handler is its two steps in a row |

## Left out

- Sockets, the accept loop, sessions and HTTP framing: library behaviour; only the periodic sweep is a step.
- Router, JSON parsing and response building, configuration parsing and the constant stub routes: plumbing with no state.
- Avatar handlers and platform binding: file access and single-branch checks; the two column updates behind binding are modelled.
- MySQL, libcurl, OpenSSL and jwt-cpp internals: failures, orders, digest and signature are parameters; a database restart that resets an id counter is not modelled.
- A statement whose effect is committed although its reply is lost: a statement either fails without effect or answers, except that an INSERT may succeed and the query for its id fail.
- Text comparison in SQL is exact: case-insensitive collations and byte lengths of multi-byte text are not modelled.
- Time stamps `create_at`, `update_at` and `added_at`, and getUserRecentPlayCount, a filtered count.
- Song records built by the play history carry only the five fields that are set; their `id` is indeterminate in the code.
- PlayHistoryDAO.PlayHistoryDAO.GetUserTopArtists: totals are unbounded integers, because how a SUM beyond 32 bits is read back is library behaviour.
- UserDAO.UserDAO.CreateUser: the id written into the argument is an out-parameter, so aliasing of the argument is not modelled; the same holds for createPlaylist.
- PoolProtocol.PoolComesToRest: no bound per thread, because a thread that arrives later may overtake a notified one for as long as requests keep arriving.
- PlayHistoryDAO.PlayCountAccounting: calls one after the other; `PlayRace` says what interleaved adds keep.
- PlayRace.CounterExactIffNoStaleAdd: no deletion or clear runs among the interleaved adds, and the counter stays within 32 bits.
- PlaylistRace.RaceLeavesOneRow: no removal runs among the interleaved adds.
- VerifyService.VerifyService.CleanupExpiredCodes: keys are visited in an arbitrary order, of which the map's sorted order is one.
- PlayHistoryDAO.AddPlayEffect: signed overflow of the counter, undefined in C++, is taken to wrap around in 32 bits.
- Singleton access, the pool's destructor and its unlocked, unused size query.
- Assignment of a connection guard: defaulted in the header, used nowhere.
- Account identity across a change of the user name by updateUser, which no handler calls, is by id; the trace records it.
