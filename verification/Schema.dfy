/**
 The four tables of sql/MusicPlayer.sql and the statements the DAOs send. A statement
 runs atomically and either fails without effect or yields new tables, the number of
 affected rows and, for an INSERT, the generated id. Time stamps other than `playedAt`
 are not modelled.
 */
module Schema {
  import opened Wrappers

  datatype UserRow = UserRow(username: string, passwdHash: string, email: string,
                             qqId: Option<string>, neteaseId: Option<string>)
  datatype PlaylistRow = PlaylistRow(userId: int, name: string, cover: Option<string>)
  datatype SongRow = SongRow(playlistId: int, songId: string, name: string, singer: string,
                             pic: Option<string>, source: string)
  datatype HistoryRow = HistoryRow(userId: int, songId: string, name: string, singer: string,
                                   pic: Option<string>, source: string, count: int, playedAt: int)

  datatype Store = Store(users: map<int, UserRow>, playlists: map<int, PlaylistRow>,
                         songs: map<int, SongRow>, history: map<int, HistoryRow>,
                         nextUser: int, nextPlaylist: int, nextSong: int, nextHistory: int)

  const EMPTY: Store := Store(map[], map[], map[], map[], 1, 1, 1, 1)

  /** `skip` is how many ids the engine passes over: it consumes one for a rejected INSERT too. */
  datatype Statement =
    | InsertUser(username: string, hash: string, email: string, skip: nat)
    | UpdateUser(id: int, username: string, email: string, qqId: Option<string>, neteaseId: Option<string>)
    | SetPassword(id: int, hash: string)
    | SetQQ(id: int, platformId: string)
    | SetNetEase(id: int, platformId: string)
    | DeleteUser(id: int)
    | InsertPlaylist(playlist: PlaylistRow, skip: nat)
    | UpdatePlaylist(id: int, name: string, cover: Option<string>)
    | DeletePlaylist(id: int)
    | InsertSong(song: SongRow, skip: nat)
    | DeleteSong(playlistId: int, songId: string, source: string)
    | InsertHistory(play: HistoryRow, skip: nat)
    | SetCount(id: int, count: int)
    | DeleteHistory(id: int, userId: int)
    | ClearHistory(userId: int)

  datatype Reply = SqlError | Done(store: Store, affected: nat, lastId: int)

  const SOURCES: set<string> := {"QQ", "NetEase"}

  predicate Fits(text: string, limit: nat) { |text| <= limit }

  predicate OptFits(text: Option<string>, limit: nat) { text.Some? ==> Fits(text.value, limit) }

  // ---------------------------------------------------------------------------------
  // Keys and foreign keys
  // ---------------------------------------------------------------------------------

  /** Primary keys are positive and below the table's AUTO_INCREMENT counter. */
  ghost predicate UsersInv(s: Store) {
    && s.nextUser > 0
    && (forall id :: id in s.users ==> 0 < id < s.nextUser)
    && (forall i, j :: i in s.users && j in s.users && i != j ==>
          s.users[i].username != s.users[j].username && s.users[i].email != s.users[j].email)
  }

  ghost predicate PlaylistsInv(s: Store) {
    && s.nextPlaylist > 0
    && (forall id :: id in s.playlists ==> 0 < id < s.nextPlaylist && s.playlists[id].userId in s.users)
  }

  ghost predicate SongsInv(s: Store) {
    && s.nextSong > 0
    && (forall id :: id in s.songs ==> 0 < id < s.nextSong && s.songs[id].playlistId in s.playlists)
    && (forall id :: id in s.songs ==> s.songs[id].source in SOURCES)
    && (forall i, j :: i in s.songs && j in s.songs && i != j ==> SongKey(s.songs[i]) != SongKey(s.songs[j]))
  }

  ghost predicate HistoryInv(s: Store) {
    && s.nextHistory > 0
    && (forall id :: id in s.history ==> 0 < id < s.nextHistory && s.history[id].userId in s.users)
  }

  ghost predicate StoreInv(s: Store) {
    UsersInv(s) && PlaylistsInv(s) && SongsInv(s) && HistoryInv(s)
  }

  function SongKey(row: SongRow): (int, string, string) { (row.playlistId, row.songId, row.source) }

  predicate NameTaken(s: Store, username: string, except: int) {
    exists id :: id in s.users && id != except && s.users[id].username == username
  }

  predicate EmailTaken(s: Store, email: string, except: int) {
    exists id :: id in s.users && id != except && s.users[id].email == email
  }

  predicate SongListed(s: Store, key: (int, string, string)) {
    exists id :: id in s.songs && SongKey(s.songs[id]) == key
  }

  // ---------------------------------------------------------------------------------
  // Statements
  // ---------------------------------------------------------------------------------

  function ExecInsertUser(s: Store, username: string, hash: string, email: string, skip: nat): Reply {
    var id := s.nextUser + skip;
    if !Fits(username, 50) || !Fits(hash, 255) || !Fits(email, 50) || id > INT_MAX
       || NameTaken(s, username, 0) || EmailTaken(s, email, 0) then SqlError
    else Done(s.(users := s.users[id := UserRow(username, hash, email, None, None)], nextUser := id + 1), 1, id)
  }

  /** Affected rows are rows whose values change. */
  function ExecUpdateUser(s: Store, id: int, username: string, email: string,
                          qqId: Option<string>, neteaseId: Option<string>): Reply {
    if id !in s.users then Done(s, 0, 0)
    else if !Fits(username, 50) || !Fits(email, 50) || !OptFits(qqId, 50) || !OptFits(neteaseId, 50)
            || NameTaken(s, username, id) || EmailTaken(s, email, id) then SqlError
    else
      var row := UserRow(username, s.users[id].passwdHash, email, qqId, neteaseId);
      Done(s.(users := s.users[id := row]), if row == s.users[id] then 0 else 1, 0)
  }

  function ExecSetPassword(s: Store, id: int, hash: string): Reply {
    if id !in s.users then Done(s, 0, 0)
    else if !Fits(hash, 255) then SqlError
    else Done(s.(users := s.users[id := s.users[id].(passwdHash := hash)]),
              if s.users[id].passwdHash == hash then 0 else 1, 0)
  }

  function ExecSetQQ(s: Store, id: int, platformId: string): Reply {
    if id !in s.users then Done(s, 0, 0)
    else if !Fits(platformId, 50) then SqlError
    else Done(s.(users := s.users[id := s.users[id].(qqId := Some(platformId))]),
              if s.users[id].qqId == Some(platformId) then 0 else 1, 0)
  }

  function ExecSetNetEase(s: Store, id: int, platformId: string): Reply {
    if id !in s.users then Done(s, 0, 0)
    else if !Fits(platformId, 50) then SqlError
    else Done(s.(users := s.users[id := s.users[id].(neteaseId := Some(platformId))]),
              if s.users[id].neteaseId == Some(platformId) then 0 else 1, 0)
  }

  /** ON DELETE CASCADE: the user's history and playlists, and through those their songs. */
  function ExecDeleteUser(s: Store, id: int): Reply {
    if id !in s.users then Done(s, 0, 0)
    else
      Done(s.(users := s.users - {id},
              playlists := map p | p in s.playlists && s.playlists[p].userId != id :: s.playlists[p],
              songs := map k | k in s.songs && !(s.songs[k].playlistId in s.playlists
                                                 && s.playlists[s.songs[k].playlistId].userId == id) :: s.songs[k],
              history := map h | h in s.history && s.history[h].userId != id :: s.history[h]), 1, 0)
  }

  function ExecInsertPlaylist(s: Store, row: PlaylistRow, skip: nat): Reply {
    var id := s.nextPlaylist + skip;
    if !Fits(row.name, 50) || !OptFits(row.cover, 255) || id > INT_MAX || row.userId !in s.users then SqlError
    else Done(s.(playlists := s.playlists[id := row], nextPlaylist := id + 1), 1, id)
  }

  function ExecUpdatePlaylist(s: Store, id: int, name: string, cover: Option<string>): Reply {
    if id !in s.playlists then Done(s, 0, 0)
    else if !Fits(name, 50) || !OptFits(cover, 255) then SqlError
    else
      var row := PlaylistRow(s.playlists[id].userId, name, cover);
      Done(s.(playlists := s.playlists[id := row]), if row == s.playlists[id] then 0 else 1, 0)
  }

  function ExecDeletePlaylist(s: Store, id: int): Reply {
    if id !in s.playlists then Done(s, 0, 0)
    else
      Done(s.(playlists := s.playlists - {id},
              songs := map k | k in s.songs && s.songs[k].playlistId != id :: s.songs[k]), 1, 0)
  }

  predicate SongFits(row: SongRow) {
    && Fits(row.songId, 50) && Fits(row.name, 255) && Fits(row.singer, 255) && OptFits(row.pic, 255)
    && row.source in SOURCES
  }

  function ExecInsertSong(s: Store, row: SongRow, skip: nat): Reply {
    var id := s.nextSong + skip;
    if !SongFits(row) || id > INT_MAX || row.playlistId !in s.playlists || SongListed(s, SongKey(row)) then SqlError
    else Done(s.(songs := s.songs[id := row], nextSong := id + 1), 1, id)
  }

  function ExecDeleteSong(s: Store, key: (int, string, string)): Reply {
    var gone := set id | id in s.songs && SongKey(s.songs[id]) == key;
    Done(s.(songs := s.songs - gone), |gone|, 0)
  }

  predicate PlayFits(row: HistoryRow) {
    && Fits(row.songId, 50) && Fits(row.name, 255) && Fits(row.singer, 255) && OptFits(row.pic, 255)
    && row.source in SOURCES
  }

  function ExecInsertHistory(s: Store, row: HistoryRow, skip: nat): Reply {
    var id := s.nextHistory + skip;
    if !PlayFits(row) || id > INT_MAX || row.userId !in s.users then SqlError
    else Done(s.(history := s.history[id := row], nextHistory := id + 1), 1, id)
  }

  function ExecSetCount(s: Store, id: int, count: int): Reply {
    if id !in s.history then Done(s, 0, 0)
    else Done(s.(history := s.history[id := s.history[id].(count := count)]),
              if s.history[id].count == count then 0 else 1, 0)
  }

  function ExecDeleteHistory(s: Store, id: int, userId: int): Reply {
    if id in s.history && s.history[id].userId == userId then Done(s.(history := s.history - {id}), 1, 0)
    else Done(s, 0, 0)
  }

  function ExecClearHistory(s: Store, userId: int): Reply {
    var gone := set id | id in s.history && s.history[id].userId == userId;
    Done(s.(history := s.history - gone), |gone|, 0)
  }

  function Exec(s: Store, q: Statement): Reply {
    match q
    case InsertUser(username, hash, email, skip) => ExecInsertUser(s, username, hash, email, skip)
    case UpdateUser(id, username, email, qqId, neteaseId) => ExecUpdateUser(s, id, username, email, qqId, neteaseId)
    case SetPassword(id, hash) => ExecSetPassword(s, id, hash)
    case SetQQ(id, platformId) => ExecSetQQ(s, id, platformId)
    case SetNetEase(id, platformId) => ExecSetNetEase(s, id, platformId)
    case DeleteUser(id) => ExecDeleteUser(s, id)
    case InsertPlaylist(row, skip) => ExecInsertPlaylist(s, row, skip)
    case UpdatePlaylist(id, name, cover) => ExecUpdatePlaylist(s, id, name, cover)
    case DeletePlaylist(id) => ExecDeletePlaylist(s, id)
    case InsertSong(row, skip) => ExecInsertSong(s, row, skip)
    case DeleteSong(playlistId, songId, source) => ExecDeleteSong(s, (playlistId, songId, source))
    case InsertHistory(row, skip) => ExecInsertHistory(s, row, skip)
    case SetCount(id, count) => ExecSetCount(s, id, count)
    case DeleteHistory(id, userId) => ExecDeleteHistory(s, id, userId)
    case ClearHistory(userId) => ExecClearHistory(s, userId)
  }

  /** The tables after a statement; a failed one leaves them alone. */
  function After(s: Store, q: Statement): Store {
    match Exec(s, q)
    case SqlError => s
    case Done(s', _, _) => s'
  }

  function AfterAll(s: Store, qs: seq<Statement>): Store
    decreases qs
  {
    if qs == [] then s else AfterAll(After(s, qs[0]), qs[1..])
  }

  // ---------------------------------------------------------------------------------
  // The schema is an invariant of every run
  // ---------------------------------------------------------------------------------

  lemma UserStatementsKeepInv(s: Store, q: Statement)
    requires StoreInv(s)
    requires q.InsertUser? || q.UpdateUser? || q.SetPassword? || q.SetQQ? || q.SetNetEase?
    ensures StoreInv(After(s, q))
  {
  }

  lemma DeleteUserKeepsInv(s: Store, id: int)
    requires StoreInv(s)
    ensures StoreInv(After(s, DeleteUser(id)))
  {
  }

  lemma PlaylistStatementsKeepInv(s: Store, q: Statement)
    requires StoreInv(s)
    requires q.InsertPlaylist? || q.UpdatePlaylist? || q.DeletePlaylist?
    ensures StoreInv(After(s, q))
  {
  }

  lemma SongStatementsKeepInv(s: Store, q: Statement)
    requires StoreInv(s)
    requires q.InsertSong? || q.DeleteSong?
    ensures StoreInv(After(s, q))
  {
  }

  lemma HistoryStatementsKeepInv(s: Store, q: Statement)
    requires StoreInv(s)
    requires q.InsertHistory? || q.SetCount? || q.DeleteHistory? || q.ClearHistory?
    ensures StoreInv(After(s, q))
  {
  }

  lemma StatementKeepsInv(s: Store, q: Statement)
    requires StoreInv(s)
    ensures StoreInv(After(s, q))
  {
    match q {
      case DeleteUser(id) => DeleteUserKeepsInv(s, id);
      case InsertPlaylist(_, _) => PlaylistStatementsKeepInv(s, q);
      case UpdatePlaylist(_, _, _) => PlaylistStatementsKeepInv(s, q);
      case DeletePlaylist(_) => PlaylistStatementsKeepInv(s, q);
      case InsertSong(_, _) => SongStatementsKeepInv(s, q);
      case DeleteSong(_, _, _) => SongStatementsKeepInv(s, q);
      case InsertHistory(_, _) => HistoryStatementsKeepInv(s, q);
      case SetCount(_, _) => HistoryStatementsKeepInv(s, q);
      case DeleteHistory(_, _) => HistoryStatementsKeepInv(s, q);
      case ClearHistory(_) => HistoryStatementsKeepInv(s, q);
      case _ => UserStatementsKeepInv(s, q);
    }
  }

  /** Any interleaving of the statements of any number of DAO calls keeps ids unique,
      foreign keys resolved, and user names, addresses and listed songs unique. */
  lemma {:induction false} SchemaAlwaysHolds(s: Store, qs: seq<Statement>)
    requires StoreInv(s)
    ensures StoreInv(AfterAll(s, qs))
    decreases qs
  {
    if qs != [] {
      StatementKeepsInv(s, qs[0]);
      SchemaAlwaysHolds(After(s, qs[0]), qs[1..]);
    }
  }

  // ---------------------------------------------------------------------------------
  // Ids are never used again
  // ---------------------------------------------------------------------------------

  /** `t` may come after `s`: every id `s` does not hold was free or is new. */
  ghost predicate Later(s: Store, t: Store) {
    && s.nextUser <= t.nextUser && s.nextPlaylist <= t.nextPlaylist
    && s.nextSong <= t.nextSong && s.nextHistory <= t.nextHistory
    && (forall id :: id in t.users ==> id in s.users || id >= s.nextUser)
    && (forall id :: id in t.playlists ==> id in s.playlists || id >= s.nextPlaylist)
    && (forall id :: id in t.songs ==> id in s.songs || id >= s.nextSong)
    && (forall id :: id in t.history ==> id in s.history || id >= s.nextHistory)
  }

  lemma StatementIsLater(s: Store, q: Statement)
    ensures Later(s, After(s, q))
  {
  }

  /** A row deleted in a run never comes back under its id. */
  lemma {:induction false} IdsAreNotReused(s: Store, qs: seq<Statement>)
    ensures Later(s, AfterAll(s, qs))
    decreases qs
  {
    if qs != [] {
      StatementIsLater(s, qs[0]);
      IdsAreNotReused(After(s, qs[0]), qs[1..]);
    }
  }

  // ---------------------------------------------------------------------------------
  // Cascades remove exactly what refers to the deleted row
  // ---------------------------------------------------------------------------------

  datatype RowRef = UserRef(id: int) | PlaylistRef(id: int) | SongRef(id: int) | HistoryRef(id: int)

  ghost predicate Present(s: Store, r: RowRef) {
    match r
    case UserRef(id) => id in s.users
    case PlaylistRef(id) => id in s.playlists
    case SongRef(id) => id in s.songs
    case HistoryRef(id) => id in s.history
  }

  /** The row a foreign key of `r` names. */
  ghost function Parent(s: Store, r: RowRef): Option<RowRef>
    requires Present(s, r)
  {
    match r
    case UserRef(_) => None
    case PlaylistRef(id) => Some(UserRef(s.playlists[id].userId))
    case SongRef(id) => Some(PlaylistRef(s.songs[id].playlistId))
    case HistoryRef(id) => Some(UserRef(s.history[id].userId))
  }

  function Depth(r: RowRef): nat {
    match r
    case UserRef(_) => 0
    case SongRef(_) => 2
    case _ => 1
  }

  /** Following foreign keys from `r` leads to `target`. */
  ghost predicate DependsOn(s: Store, r: RowRef, target: RowRef)
    decreases Depth(r)
  {
    r == target || (Present(s, r) && Parent(s, r).Some? && DependsOn(s, Parent(s, r).value, target))
  }

  ghost predicate SameRow(s: Store, t: Store, r: RowRef)
    requires Present(s, r) && Present(t, r)
  {
    match r
    case UserRef(id) => s.users[id] == t.users[id]
    case PlaylistRef(id) => s.playlists[id] == t.playlists[id]
    case SongRef(id) => s.songs[id] == t.songs[id]
    case HistoryRef(id) => s.history[id] == t.history[id]
  }

  /** `t` is `s` without the rows that depend on `target`, everything else untouched. */
  ghost predicate RemovesExactly(s: Store, t: Store, target: RowRef) {
    && (forall r :: Present(t, r) <==> Present(s, r) && !DependsOn(s, r, target))
    && (forall r :: Present(t, r) && Present(s, r) ==> SameRow(s, t, r))
    && t.nextUser == s.nextUser && t.nextPlaylist == s.nextPlaylist
    && t.nextSong == s.nextSong && t.nextHistory == s.nextHistory
  }

  lemma DependsInSteps(s: Store, r: RowRef, target: RowRef)
    requires StoreInv(s) && Present(s, r)
    ensures DependsOn(s, r, target) <==>
              || r == target
              || (r.PlaylistRef? && UserRef(s.playlists[r.id].userId) == target)
              || (r.HistoryRef? && UserRef(s.history[r.id].userId) == target)
              || (r.SongRef? && PlaylistRef(s.songs[r.id].playlistId) == target)
              || (r.SongRef? && UserRef(s.playlists[s.songs[r.id].playlistId].userId) == target)
  {
    if Parent(s, r).Some? {
      var up := Parent(s, r).value;
      assert DependsOn(s, r, target) == (r == target || DependsOn(s, up, target));
      if r.SongRef? {
        assert Parent(s, up) == Some(UserRef(s.playlists[up.id].userId));
        assert DependsOn(s, up, target) == (up == target || DependsOn(s, Parent(s, up).value, target));
      }
    }
  }

  /** deleteUser: the user, its history, its playlists and their songs, and nothing else. */
  lemma DeleteUserCascade(s: Store, id: int)
    requires StoreInv(s)
    ensures RemovesExactly(s, After(s, DeleteUser(id)), UserRef(id))
  {
    forall r | Present(s, r) ensures Present(After(s, DeleteUser(id)), r) <==> !DependsOn(s, r, UserRef(id)) {
      DependsInSteps(s, r, UserRef(id));
    }
  }

  /** deletePlaylist: the playlist and its songs, and nothing else. */
  lemma DeletePlaylistCascade(s: Store, id: int)
    requires StoreInv(s)
    ensures RemovesExactly(s, After(s, DeletePlaylist(id)), PlaylistRef(id))
  {
    forall r | Present(s, r) ensures Present(After(s, DeletePlaylist(id)), r) <==> !DependsOn(s, r, PlaylistRef(id)) {
      DependsInSteps(s, r, PlaylistRef(id));
    }
  }

  // ---------------------------------------------------------------------------------
  // The other statements touch at most one row
  // ---------------------------------------------------------------------------------

  /** The one row a statement may touch; None for those that may remove several. */
  function Target(s: Store, q: Statement): Option<RowRef> {
    match q
    case InsertUser(_, _, _, skip) => Some(UserRef(s.nextUser + skip))
    case UpdateUser(id, _, _, _, _) => Some(UserRef(id))
    case SetPassword(id, _) => Some(UserRef(id))
    case SetQQ(id, _) => Some(UserRef(id))
    case SetNetEase(id, _) => Some(UserRef(id))
    case InsertPlaylist(_, skip) => Some(PlaylistRef(s.nextPlaylist + skip))
    case UpdatePlaylist(id, _, _) => Some(PlaylistRef(id))
    case InsertSong(_, skip) => Some(SongRef(s.nextSong + skip))
    case InsertHistory(_, skip) => Some(HistoryRef(s.nextHistory + skip))
    case SetCount(id, _) => Some(HistoryRef(id))
    case DeleteHistory(id, _) => Some(HistoryRef(id))
    case _ => None
  }

  /** `t` has the rows of `s`, with the same values, except possibly at `r`. */
  ghost predicate OnlyTouches(s: Store, t: Store, r: RowRef) {
    && (forall other :: other != r ==> (Present(t, other) <==> Present(s, other)))
    && (forall other :: other != r && Present(s, other) && Present(t, other) ==> SameRow(s, t, other))
  }

  lemma UserStatementTouchesTarget(s: Store, q: Statement)
    requires Target(s, q).Some? && Target(s, q).value.UserRef?
    ensures OnlyTouches(s, After(s, q), Target(s, q).value)
  {
  }

  lemma PlaylistStatementTouchesTarget(s: Store, q: Statement)
    requires Target(s, q).Some? && (Target(s, q).value.PlaylistRef? || Target(s, q).value.SongRef?)
    ensures OnlyTouches(s, After(s, q), Target(s, q).value)
  {
  }

  lemma HistoryStatementTouchesTarget(s: Store, q: Statement)
    requires Target(s, q).Some? && Target(s, q).value.HistoryRef?
    ensures OnlyTouches(s, After(s, q), Target(s, q).value)
  {
  }

  lemma StatementTouchesTarget(s: Store, q: Statement)
    requires Target(s, q).Some?
    ensures OnlyTouches(s, After(s, q), Target(s, q).value)
  {
    match Target(s, q).value {
      case UserRef(_) => UserStatementTouchesTarget(s, q);
      case HistoryRef(_) => HistoryStatementTouchesTarget(s, q);
      case _ => PlaylistStatementTouchesTarget(s, q);
    }
  }

  /** When a statement is refused, in plain numbers: a value too long, an unknown source, a
      parent that is missing, a key that is taken, or no id left. Everything else runs. */
  lemma RunsExactlyWhen(s: Store, q: Statement)
    requires StoreInv(s)
    ensures Exec(s, q).Done? <==>
              match q
              case InsertUser(username, hash, email, skip) =>
                && |username| <= 50 && |hash| <= 255 && |email| <= 50 && s.nextUser + skip <= 2147483647
                && forall id :: id in s.users ==> s.users[id].username != username && s.users[id].email != email
              case UpdateUser(id, username, email, qqId, neteaseId) =>
                id in s.users ==>
                  && |username| <= 50 && |email| <= 50
                  && (qqId.Some? ==> |qqId.value| <= 50) && (neteaseId.Some? ==> |neteaseId.value| <= 50)
                  && forall other :: other in s.users && other != id ==>
                       s.users[other].username != username && s.users[other].email != email
              case SetPassword(id, hash) => id in s.users ==> |hash| <= 255
              case SetQQ(id, platformId) => id in s.users ==> |platformId| <= 50
              case SetNetEase(id, platformId) => id in s.users ==> |platformId| <= 50
              case InsertPlaylist(row, skip) =>
                && |row.name| <= 50 && (row.cover.Some? ==> |row.cover.value| <= 255)
                && row.userId in s.users && s.nextPlaylist + skip <= 2147483647
              case UpdatePlaylist(id, name, cover) =>
                id in s.playlists ==> |name| <= 50 && (cover.Some? ==> |cover.value| <= 255)
              case InsertSong(row, skip) =>
                && |row.songId| <= 50 && |row.name| <= 255 && |row.singer| <= 255
                && (row.pic.Some? ==> |row.pic.value| <= 255) && (row.source == "QQ" || row.source == "NetEase")
                && row.playlistId in s.playlists && s.nextSong + skip <= 2147483647
                && forall id :: id in s.songs ==>
                     || s.songs[id].playlistId != row.playlistId
                     || s.songs[id].songId != row.songId || s.songs[id].source != row.source
              case InsertHistory(row, skip) =>
                && |row.songId| <= 50 && |row.name| <= 255 && |row.singer| <= 255
                && (row.pic.Some? ==> |row.pic.value| <= 255) && (row.source == "QQ" || row.source == "NetEase")
                && row.userId in s.users && s.nextHistory + skip <= 2147483647
              case _ => true
  {
    match q {
      case InsertUser(_, _, _, _) => UserRunsWhen(s, q);
      case UpdateUser(_, _, _, _, _) => UserRunsWhen(s, q);
      case InsertSong(_, _) => SongRunsWhen(s, q);
      case _ =>
    }
  }

  lemma UserRunsWhen(s: Store, q: Statement)
    requires StoreInv(s) && (q.InsertUser? || q.UpdateUser?)
    ensures q.InsertUser? ==>
              (Exec(s, q).Done? <==>
                 && |q.username| <= 50 && |q.hash| <= 255 && |q.email| <= 50 && s.nextUser + q.skip <= 2147483647
                 && forall id :: id in s.users ==> s.users[id].username != q.username && s.users[id].email != q.email)
    ensures q.UpdateUser? && q.id in s.users ==>
              (Exec(s, q).Done? <==>
                 && |q.username| <= 50 && |q.email| <= 50
                 && (q.qqId.Some? ==> |q.qqId.value| <= 50) && (q.neteaseId.Some? ==> |q.neteaseId.value| <= 50)
                 && forall other :: other in s.users && other != q.id ==>
                      s.users[other].username != q.username && s.users[other].email != q.email)
  {
  }

  lemma SongRunsWhen(s: Store, q: Statement)
    requires StoreInv(s) && q.InsertSong?
    ensures Exec(s, q).Done? <==>
              && |q.song.songId| <= 50 && |q.song.name| <= 255 && |q.song.singer| <= 255
              && (q.song.pic.Some? ==> |q.song.pic.value| <= 255)
              && (q.song.source == "QQ" || q.song.source == "NetEase")
              && q.song.playlistId in s.playlists && s.nextSong + q.skip <= 2147483647
              && forall id :: id in s.songs ==>
                   || s.songs[id].playlistId != q.song.playlistId
                   || s.songs[id].songId != q.song.songId || s.songs[id].source != q.song.source
  {
    assert SongListed(s, SongKey(q.song)) <==> exists id :: id in s.songs && SongKey(s.songs[id]) == SongKey(q.song);
  }

  /** A statement reports affected rows exactly when it changed the tables. */
  lemma AffectedMeansChanged(s: Store, q: Statement)
    requires StoreInv(s) && Exec(s, q).Done?
    ensures Exec(s, q).affected > 0 <==> Exec(s, q).store != s
  {
    match q {
      case UpdateUser(id, _, _, _, _) => SameUser(s, id);
      case SetPassword(id, _) => SameUser(s, id);
      case SetQQ(id, _) => SameUser(s, id);
      case SetNetEase(id, _) => SameUser(s, id);
      case UpdatePlaylist(id, _, _) => SamePlaylist(s, id);
      case SetCount(id, _) => SamePlay(s, id);
      case DeleteSong(playlistId, songId, source) =>
        RemovedKeys(s.songs, set id | id in s.songs && SongKey(s.songs[id]) == (playlistId, songId, source));
      case ClearHistory(userId) =>
        RemovedKeys(s.history, set id | id in s.history && s.history[id].userId == userId);
      case _ =>
    }
  }

  lemma SameUser(s: Store, id: int)
    ensures id in s.users ==> s.(users := s.users[id := s.users[id]]) == s
  {
    assert id in s.users ==> s.users[id := s.users[id]] == s.users;
  }

  lemma SamePlaylist(s: Store, id: int)
    ensures id in s.playlists ==> s.(playlists := s.playlists[id := s.playlists[id]]) == s
  {
    assert id in s.playlists ==> s.playlists[id := s.playlists[id]] == s.playlists;
  }

  lemma SamePlay(s: Store, id: int)
    ensures id in s.history ==> s.(history := s.history[id := s.history[id]]) == s
  {
    assert id in s.history ==> s.history[id := s.history[id]] == s.history;
  }

  lemma RemovedKeys<V>(m: map<int, V>, gone: set<int>)
    requires gone <= m.Keys
    ensures |gone| > 0 <==> m - gone != m
  {
    if |gone| > 0 {
      var id := Pick(gone);
      assert id in m && id !in m - gone;
    } else {
      assert m - gone == m;
    }
  }

  /** An INSERT that succeeds stores its row under an id no row of the table has had: the
      next one after those the engine passed over. */
  lemma InsertStoresRow(s: Store, q: Statement)
    requires StoreInv(s) && Exec(s, q).Done?
    ensures var Done(t, affected, id) := Exec(s, q);
            match q
            case InsertUser(username, hash, email, skip) =>
              && id !in s.users && id in t.users && t.users[id] == UserRow(username, hash, email, None, None)
              && id == s.nextUser + skip == t.nextUser - 1
            case InsertPlaylist(row, skip) =>
              && id !in s.playlists && id in t.playlists && t.playlists[id] == row
              && id == s.nextPlaylist + skip == t.nextPlaylist - 1
            case InsertSong(row, skip) =>
              && id !in s.songs && id in t.songs && t.songs[id] == row
              && id == s.nextSong + skip == t.nextSong - 1
            case InsertHistory(row, skip) =>
              && id !in s.history && id in t.history && t.history[id] == row
              && id == s.nextHistory + skip == t.nextHistory - 1
            case _ => true
  {
  }

  // ---------------------------------------------------------------------------------
  // NULL and the empty string
  // ---------------------------------------------------------------------------------

  /** An empty string is written as NULL, and NULL is read as the empty string. */
  function ToColumn(text: string): Option<string> { if text == "" then None else Some(text) }

  function FromColumn(column: Option<string>): string { if column.None? then "" else column.value }

  // ---------------------------------------------------------------------------------
  // The password column
  // ---------------------------------------------------------------------------------

  /** The hash last written for account `id` by the statements that succeeded in a run. */
  function LastHash(s: Store, qs: seq<Statement>, id: int): Option<string>
    decreases qs
  {
    if qs == [] then None
    else
      var later := LastHash(After(s, qs[0]), qs[1..], id);
      if later.Some? then later else HashWritten(s, qs[0], id)
  }

  function HashWritten(s: Store, q: Statement, id: int): Option<string> {
    match Exec(s, q)
    case SqlError => None
    case Done(_, _, lastId) =>
      if q.InsertUser? && lastId == id then Some(q.hash)
      else if q.SetPassword? && q.id == id && id in s.users then Some(q.hash)
      else None
  }

  lemma StatementAndHash(s: Store, q: Statement, id: int)
    requires StoreInv(s) && id in After(s, q).users
    ensures match HashWritten(s, q, id)
            case Some(hash) => After(s, q).users[id].passwdHash == hash
            case None => id in s.users && After(s, q).users[id].passwdHash == s.users[id].passwdHash
  {
  }

  /** The password column of a surviving account holds the hash last written for it:
      no other statement, cascade or id generation touches it. */
  lemma {:induction false} PasswordLastWriter(s: Store, qs: seq<Statement>, id: int)
    requires StoreInv(s) && id in AfterAll(s, qs).users
    ensures match LastHash(s, qs, id)
            case Some(hash) => AfterAll(s, qs).users[id].passwdHash == hash
            case None => id in s.users && AfterAll(s, qs).users[id].passwdHash == s.users[id].passwdHash
    decreases qs
  {
    if qs != [] {
      StatementKeepsInv(s, qs[0]);
      PasswordLastWriter(After(s, qs[0]), qs[1..], id);
      if LastHash(After(s, qs[0]), qs[1..], id).None? {
        StatementAndHash(s, qs[0], id);
      }
    }
  }
}
