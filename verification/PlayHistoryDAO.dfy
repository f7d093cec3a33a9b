/** src/database/PlayHistoryDAO.{h,cpp}. */
module PlayHistoryDAO {
  import opened Database
  import opened Listing
  import opened Schema
  import opened Wrappers

  /** src/models/playhistory.h. */
  datatype PlayHistory = PlayHistory(id: int, userId: int, songId: string, songName: string, songSinger: string,
                                     songPic: string, songWhere: string, playedAt: int, songCount: int)

  /** The five fields buildSongFromResultSet sets; it leaves the others of Song unset. */
  datatype SongInfo = SongInfo(songId: string, name: string, singer: string, pic: string, source: string)

  function BuildFromResultSet(id: int, row: HistoryRow): PlayHistory {
    PlayHistory(id, row.userId, row.songId, row.name, row.singer, FromColumn(row.pic), row.source,
                row.playedAt, row.count)
  }

  function BuildSongFromResultSet(row: HistoryRow): SongInfo {
    SongInfo(row.songId, row.name, row.singer, FromColumn(row.pic), row.source)
  }

  /** The same projection, taken from the full record. */
  function SongOf(play: PlayHistory): SongInfo {
    SongInfo(play.songId, play.songName, play.songSinger, play.songPic, play.songWhere)
  }

  function PlaysOf(s: Store, userId: int): set<int> {
    set id | id in s.history && s.history[id].userId == userId
  }

  predicate IsPlay(s: Store, id: int, userId: int, songId: string) {
    id in s.history && s.history[id].userId == userId && s.history[id].songId == songId
  }

  /** The first row the SELECT of addPlayHistory returns: the lowest id from `id` on. */
  function FirstPlay(s: Store, userId: int, songId: string, id: nat): (found: Option<int>)
    ensures found.Some? ==> IsPlay(s, found.value, userId, songId)
    ensures found.None? ==> forall k :: id <= k < s.nextHistory ==> !IsPlay(s, k, userId, songId)
    decreases s.nextHistory - id
  {
    if id >= s.nextHistory then None
    else if IsPlay(s, id, userId, songId) then Some(id)
    else FirstPlay(s, userId, songId, id + 1)
  }

  lemma NothingFound(s: Store, userId: int, songId: string)
    requires StoreInv(s) && FirstPlay(s, userId, songId, 0).None?
    ensures forall id :: id in s.history ==> !IsPlay(s, id, userId, songId)
  {
  }

  /** The six values bound to the INSERT. Its column list names `played_at` as a seventh
      without a placeholder; the column takes its default, the current time, and
      `song_count` its default 0. */
  function NewRow(play: PlayHistory, now: int): HistoryRow {
    HistoryRow(play.userId, play.songId, play.songName, play.songSinger, ToColumn(play.songPic), play.songWhere, 0, now)
  }

  /** What a first play writes is what is read back, with the defaults filled in. */
  lemma PlayRoundTrip(play: PlayHistory, now: int, id: int)
    ensures BuildFromResultSet(id, NewRow(play, now)) == play.(id := id, playedAt := now, songCount := 0)
    ensures BuildSongFromResultSet(NewRow(play, now)) == SongOf(play)
  {
  }

  /** Read, then update or insert. The counter is a 32-bit int on its way through the DAO. */
  function AddPlay(s: Store, play: PlayHistory, now: int, skip: nat, net: Net): (Store, bool) {
    if !net.connected || !net.first || !net.second then (s, false)
    else
      var reply := match FirstPlay(s, play.userId, play.songId, 0)
                   case None => ExecInsertHistory(s, NewRow(play, now), skip)
                   case Some(id) => ExecSetCount(s, id, Wrap32(s.history[id].count + 1));
      if reply.Done? then (reply.store, reply.affected > 0) else (s, false)
  }

  class PlayHistoryDAO {
    const db: SqlServer

    constructor (db: SqlServer)
      ensures this.db == db
    {
      this.db := db;
    }

    method AddPlayHistory(play: PlayHistory, now: int, skip: nat, net: Net) returns (ok: bool)
      requires db.Valid()
      modifies db
      ensures db.Valid()
      ensures (db.tables, ok) == AddPlay(old(db.tables), play, now, skip, net)
    {
      if !net.connected || !net.first {
        return false;
      }
      var found := FirstPlay(db.tables, play.userId, play.songId, 0);
      if !net.second {
        return false;
      }
      var reply;
      if found.Some? {
        var count := db.tables.history[found.value].count;
        reply := db.Execute(SetCount(found.value, Wrap32(count + 1)));
      } else {
        reply := db.Execute(InsertHistory(NewRow(play, now), skip));
      }
      ok := reply.Done? && reply.affected > 0;
    }

    /** `order` is the order the server chose for ORDER BY played_at DESC. A negative
        limit or offset is an SQL error. */
    method GetUserPlayHistory(userId: int, limit: int, offset: int, order: seq<int>, net: Net)
      returns (plays: seq<PlayHistory>)
      requires Ordered(order, PlaysOf(db.tables, userId), PlayedAt(db.tables))
      ensures plays == if net.connected && net.first && limit >= 0 && offset >= 0
                       then BuildAll(db.tables, Page(order, limit, offset)) else []
      ensures forall i :: 0 <= i < |plays| ==> plays[i].userId == userId
      ensures forall i, j :: 0 <= i < j < |plays| ==> plays[i].playedAt >= plays[j].playedAt
      ensures offset == 0 ==>
                forall id, i ::
                  id in db.tables.history && db.tables.history[id].userId == userId && 0 <= i < |plays| ==>
                  (exists k :: 0 <= k < |plays| && plays[k].id == id)
                  || plays[i].playedAt >= db.tables.history[id].playedAt
    {
      plays := [];
      if !net.connected || !net.first || limit < 0 || offset < 0 {
        return;
      }
      var result := Page(order, limit, offset);
      for i := 0 to |result|
        invariant plays == BuildAll(db.tables, result[..i])
      {
        assert result[..i + 1] == result[..i] + [result[i]];
        BuildAllAppend(db.tables, result[..i], result[i]);
        plays := plays + Build(db.tables, result[i]);
      }
      assert result[..|result|] == result;
      PageRecords(db.tables, userId, order, limit, offset);
      if offset == 0 {
        LatestFirst(db.tables, userId, order, limit);
      }
    }

    method ClearUserPlayHistory(userId: int, net: Net) returns (ok: bool)
      requires db.Valid()
      modifies db
      ensures db.Valid()
      ensures (db.tables, ok) == ClearPlays(old(db.tables), userId, net)
    {
      if !net.connected || !net.first {
        return false;
      }
      var reply := db.Execute(ClearHistory(userId));
      ok := reply.Done? && reply.affected > 0;
    }

    method DeletePlayHistory(historyId: int, userId: int, net: Net) returns (ok: bool)
      requires db.Valid()
      modifies db
      ensures db.Valid()
      ensures (db.tables, ok) == DeletePlay(old(db.tables), historyId, userId, net)
    {
      if !net.connected || !net.first {
        return false;
      }
      var reply := db.Execute(DeleteHistory(historyId, userId));
      ok := reply.Done? && reply.affected > 0;
    }

    method GetUserTotalPlayCount(userId: int, net: Net) returns (count: int)
      ensures count == if net.connected && net.first then |PlaysOf(db.tables, userId)| else 0
    {
      if !net.connected || !net.first {
        return 0;
      }
      return |PlaysOf(db.tables, userId)|;
    }

    /** `order` lists the groups in the order the server chose for ORDER BY total_plays DESC. */
    method GetUserTopArtists(userId: int, limit: int, order: seq<string>, net: Net)
      returns (artists: seq<(string, int)>)
      requires Ordered(order, ArtistsOf(db.tables, userId), ArtistTotal(db.tables, userId))
      ensures artists == if net.connected && net.first && limit >= 0
                         then WithTotals(db.tables, userId, Page(order, limit, 0)) else []
    {
      artists := [];
      if !net.connected || !net.first || limit < 0 {
        return;
      }
      var result := Page(order, limit, 0);
      for i := 0 to |result|
        invariant artists == WithTotals(db.tables, userId, result[..i])
      {
        artists := artists + [(result[i], ArtistTotal(db.tables, userId)(result[i]))];
      }
      assert result[..|result|] == result;
    }

    /** The user's songs by plays, most played first. */
    method GetUserTopSongs(userId: int, limit: int, order: seq<int>, net: Net) returns (songs: seq<SongInfo>)
      requires Ordered(order, PlaysOf(db.tables, userId), PlayCount(db.tables))
      ensures |songs| == if net.connected && net.first && limit >= 0 then Min(limit, |order|) else 0
      ensures forall i :: 0 <= i < |songs| ==>
                i < |order| && songs[i] == BuildSongFromResultSet(db.tables.history[order[i]])
      ensures forall i :: 0 <= i < |songs| ==> db.tables.history[order[i]].userId == userId
      ensures forall i, j :: 0 <= i < |songs| && i < j < |order| ==>
                db.tables.history[order[i]].count >= db.tables.history[order[j]].count
      ensures forall id :: id in db.tables.history && db.tables.history[id].userId == userId ==> id in order
    {
      songs := [];
      if !net.connected || !net.first || limit < 0 {
        return;
      }
      var result := Page(order, limit, 0);
      for i := 0 to |result|
        invariant |songs| == i
        invariant forall k :: 0 <= k < i ==> songs[k] == BuildSongFromResultSet(db.tables.history[order[k]])
      {
        songs := songs + [BuildSongFromResultSet(db.tables.history[result[i]])];
      }
    }

    method GetMostPlayedSongs(userId: int, limit: int, order: seq<int>, net: Net)
      returns (songs: seq<(PlayHistory, int)>)
      requires Ordered(order, PlaysOf(db.tables, userId), PlayCount(db.tables))
      ensures |songs| == if net.connected && net.first && limit >= 0 then Min(limit, |order|) else 0
      ensures forall i :: 0 <= i < |songs| ==>
                i < |order| && songs[i] == (BuildFromResultSet(order[i], db.tables.history[order[i]]),
                                            db.tables.history[order[i]].count)
      ensures forall i :: 0 <= i < |songs| ==> songs[i].0.userId == userId
      ensures forall i, j :: 0 <= i < |songs| && i < j < |order| ==>
                songs[i].1 >= db.tables.history[order[j]].count
      ensures forall id :: id in db.tables.history && db.tables.history[id].userId == userId ==> id in order
    {
      songs := [];
      if !net.connected || !net.first || limit < 0 {
        return;
      }
      var result := Page(order, limit, 0);
      for i := 0 to |result|
        invariant |songs| == i
        invariant forall k :: 0 <= k < i ==> songs[k] == (BuildFromResultSet(order[k], db.tables.history[order[k]]),
                                                         db.tables.history[order[k]].count)
      {
        var row := db.tables.history[result[i]];
        songs := songs + [(BuildFromResultSet(result[i], row), row.count)];
      }
    }
  }

  /** Asked in the same order, the top songs are the songs of the most played rows. */
  method TopSongsAreMostPlayed(dao: PlayHistoryDAO, userId: int, limit: int, order: seq<int>, net: Net)
    returns (songs: seq<SongInfo>, plays: seq<(PlayHistory, int)>)
    requires Ordered(order, PlaysOf(dao.db.tables, userId), PlayCount(dao.db.tables))
    ensures |songs| == |plays|
    ensures forall i :: 0 <= i < |songs| ==> songs[i] == SongOf(plays[i].0) && plays[i].1 == plays[i].0.songCount
    ensures forall i, j :: 0 <= i < j < |plays| ==> plays[i].1 >= plays[j].1
  {
    songs := dao.GetUserTopSongs(userId, limit, order, net);
    plays := dao.GetMostPlayedSongs(userId, limit, order, net);
    assert forall i, j :: 0 <= i < j < |plays| ==>
        PlayCount(dao.db.tables)(order[i]) >= PlayCount(dao.db.tables)(order[j]);
  }

  // ---------------------------------------------------------------------------------
  // Sort keys and result sets
  // ---------------------------------------------------------------------------------

  function PlayedAt(s: Store): int -> int {
    id => if id in s.history then s.history[id].playedAt else 0
  }

  function PlayCount(s: Store): int -> int {
    id => if id in s.history then s.history[id].count else 0
  }

  function Build(s: Store, id: int): seq<PlayHistory> {
    if id in s.history then [BuildFromResultSet(id, s.history[id])] else []
  }

  function BuildAll(s: Store, ids: seq<int>): seq<PlayHistory> {
    if ids == [] then [] else BuildAll(s, ids[..|ids| - 1]) + Build(s, ids[|ids| - 1])
  }

  lemma BuildAllAppend(s: Store, ids: seq<int>, id: int)
    ensures BuildAll(s, ids + [id]) == BuildAll(s, ids) + Build(s, id)
  {
    assert (ids + [id])[..|ids|] == ids;
  }

  lemma {:induction false} BuildAllConcat(s: Store, first: seq<int>, second: seq<int>)
    ensures BuildAll(s, first + second) == BuildAll(s, first) + BuildAll(s, second)
  {
    if second == [] {
      assert first + second == first;
    } else {
      var n := |second| - 1;
      assert first + second == (first + second[..n]) + [second[n]];
      BuildAllAppend(s, first + second[..n], second[n]);
      BuildAllConcat(s, first, second[..n]);
    }
  }

  lemma {:induction false} BuildAllOfRows(s: Store, ids: seq<int>)
    requires forall i :: 0 <= i < |ids| ==> ids[i] in s.history
    ensures |BuildAll(s, ids)| == |ids|
    ensures forall i :: 0 <= i < |ids| ==> BuildAll(s, ids)[i] == BuildFromResultSet(ids[i], s.history[ids[i]])
  {
    if ids != [] {
      BuildAllOfRows(s, ids[..|ids| - 1]);
    }
  }

  lemma PageRecords(s: Store, userId: int, order: seq<int>, limit: nat, offset: nat)
    requires Ordered(order, PlaysOf(s, userId), PlayedAt(s))
    ensures var plays := BuildAll(s, Page(order, limit, offset));
            && (forall i :: 0 <= i < |plays| ==> plays[i].userId == userId)
            && (forall i, j :: 0 <= i < j < |plays| ==> plays[i].playedAt >= plays[j].playedAt)
  {
    BuildAllOfRows(s, Page(order, limit, offset));
    forall i, j | 0 <= i < j < |order| ensures s.history[order[i]].playedAt >= s.history[order[j]].playedAt {
      assert PlayedAt(s)(order[i]) >= PlayedAt(s)(order[j]);
    }
  }

  /** On the first page nothing newer is left out. */
  lemma LatestFirst(s: Store, userId: int, order: seq<int>, limit: nat)
    requires Ordered(order, PlaysOf(s, userId), PlayedAt(s))
    ensures var plays := BuildAll(s, Page(order, limit, 0));
            forall id, i :: id in s.history && s.history[id].userId == userId && 0 <= i < |plays| ==>
              (exists k :: 0 <= k < |plays| && plays[k].id == id) || plays[i].playedAt >= s.history[id].playedAt
  {
    var page := Page(order, limit, 0);
    var plays := BuildAll(s, page);
    BuildAllOfRows(s, page);
    LimitKeepsLargest(order, PlaysOf(s, userId), PlayedAt(s), limit);
    forall id, i | id in s.history && s.history[id].userId == userId && 0 <= i < |plays|
      ensures (exists k :: 0 <= k < |plays| && plays[k].id == id) || plays[i].playedAt >= s.history[id].playedAt
    {
      if id in page {
        var k :| 0 <= k < |page| && page[k] == id;
        assert plays[k].id == id;
      } else {
        assert page[i] in page && id in PlaysOf(s, userId);
        assert PlayedAt(s)(id) <= PlayedAt(s)(page[i]);
      }
    }
  }

  /** Asks for one page after the other. `orders[j]` is the order the server chose for page `j`. */
  method ReadPages(dao: PlayHistoryDAO, userId: int, limit: nat, orders: seq<seq<int>>, net: Net)
    returns (plays: seq<PlayHistory>)
    requires Admissible(orders, PlaysOf(dao.db.tables, userId), PlayedAt(dao.db.tables))
    requires net.connected && net.first
    ensures plays == BuildAll(dao.db.tables, Pages(orders, limit, 0))
  {
    plays := [];
    for j := 0 to |orders|
      invariant plays == BuildAll(dao.db.tables, Pages(orders[..j], limit, 0))
    {
      var page := dao.GetUserPlayHistory(userId, limit, j * limit, orders[j], net);
      OneMorePage(orders, limit, j);
      BuildAllConcat(dao.db.tables, Pages(orders[..j], limit, 0), Page(orders[j], limit, j * limit));
      plays := plays + page;
    }
    assert orders[..|orders|] == orders;
  }

  lemma OneMorePage(orders: seq<seq<int>>, limit: nat, j: nat)
    requires j < |orders|
    ensures Pages(orders[..j + 1], limit, 0) == Pages(orders[..j], limit, 0) + Page(orders[j], limit, j * limit)
  {
    assert orders[..j + 1] == orders[..j] + [orders[j]];
    PagesOfConcat(orders[..j], [orders[j]], limit, 0);
    assert [orders[j]][1..] == [];
  }

  /** Reading page after page with an unchanged order shows the record of each of the
      user's rows once, in order, and there are getUserTotalPlayCount of them. */
  method PagingShowsEveryPlayOnce(dao: PlayHistoryDAO, userId: int, limit: nat, order: seq<int>, k: nat, net: Net)
    returns (plays: seq<PlayHistory>, total: int)
    requires Ordered(order, PlaysOf(dao.db.tables, userId), PlayedAt(dao.db.tables)) && k * limit >= |order|
    requires net.connected && net.first
    ensures |plays| == |order| == total
    ensures forall i :: 0 <= i < |plays| ==>
              order[i] in dao.db.tables.history &&
              plays[i] == BuildFromResultSet(order[i], dao.db.tables.history[order[i]])
    ensures forall i, j :: 0 <= i < j < |plays| ==> plays[i].playedAt >= plays[j].playedAt
    ensures forall i :: 0 <= i < |plays| ==> plays[i].userId == userId
    ensures forall id :: id in dao.db.tables.history && dao.db.tables.history[id].userId == userId ==> id in order
  {
    plays := ReadPages(dao, userId, limit, Repeat(order, k), net);
    total := dao.GetUserTotalPlayCount(userId, net);
    FixedOrderPartition(order, limit, k);
    ListingLength(order, PlaysOf(dao.db.tables, userId));
    BuildAllOfRows(dao.db.tables, order);
    PageRecords(dao.db.tables, userId, order, |order|, 0);
    assert Page(order, |order|, 0) == order;
  }

  /** The statement orders by `played_at` alone. Over requests that may order ties
      differently, paging is reliable exactly when no two rows played at the same time
      meet across a page boundary. */
  lemma PagingIsReliableIffNoTieIsCut(s: Store, userId: int, order: seq<int>, limit: nat, k: nat)
    requires Ordered(order, PlaysOf(s, userId), PlayedAt(s)) && limit > 0 && k * limit >= |order|
    ensures (forall orders :: |orders| == k && Admissible(orders, PlaysOf(s, userId), PlayedAt(s))
                              ==> Lists(Pages(orders, limit, 0), PlaysOf(s, userId)))
            <==> (forall j :: 0 < j < k ==> CutsNoTie(order, PlayedAt(s), limit, j))
  {
    PagingIsPartitionIffNoTieIsCut(order, PlaysOf(s, userId), PlayedAt(s), limit, k);
  }

  // ---------------------------------------------------------------------------------
  // Play-count accounting, one call after the other
  // ---------------------------------------------------------------------------------

  function ClearPlays(s: Store, userId: int, net: Net): (Store, bool) {
    if !net.connected || !net.first then (s, false)
    else
      var gone := PlaysOf(s, userId);
      (s.(history := s.history - gone), |gone| > 0)
  }

  function DeletePlay(s: Store, historyId: int, userId: int, net: Net): (Store, bool) {
    if !net.connected || !net.first || historyId !in s.history || s.history[historyId].userId != userId then (s, false)
    else (s.(history := s.history - {historyId}), true)
  }

  /** A statement that is not about the history: of the other DAOs, deleteUser among them. */
  type Elsewhere = q: Statement |
      !q.InsertHistory? && !q.SetCount? && !q.DeleteHistory? && !q.ClearHistory?
    witness DeletePlaylist(0)

  /** deletePlayHistory succeeds exactly when that row is there and is the user's; then that
      row goes and no other. */
  lemma DeletePlayAnswers(s: Store, historyId: int, userId: int, net: Net)
    ensures var (t, ok) := DeletePlay(s, historyId, userId, net);
            && (ok <==> && net.connected && net.first
                        && historyId in s.history && s.history[historyId].userId == userId)
            && t.(history := s.history) == s
            && (forall id :: id in t.history <==> id in s.history && !(ok && id == historyId))
            && (forall id :: id in t.history ==> t.history[id] == s.history[id])
  {
  }

  /** clearUserPlayHistory succeeds exactly when the user had a row; then the user's rows go
      and no other. */
  lemma ClearPlaysAnswers(s: Store, userId: int, net: Net)
    ensures var (t, ok) := ClearPlays(s, userId, net);
            && (ok <==> net.connected && net.first && exists id :: id in s.history && s.history[id].userId == userId)
            && t.(history := s.history) == s
            && (forall id :: id in t.history <==> id in s.history && !(ok && s.history[id].userId == userId))
            && (forall id :: id in t.history ==> t.history[id] == s.history[id])
  {
    var gone := PlaysOf(s, userId);
    if id :| id in s.history && s.history[id].userId == userId {
      assert id in gone;
    }
    if |gone| > 0 {
      var id := Pick(gone);
    }
  }

  datatype HistoryCall =
    | Add(play: PlayHistory, now: int, skip: nat, net: Net)
    | Delete(historyId: int, owner: int, net: Net)
    | Clear(owner: int, net: Net)
    | Other(q: Elsewhere)

  function Call(s: Store, c: HistoryCall): (Store, bool) {
    match c
    case Add(play, now, skip, net) => AddPlay(s, play, now, skip, net)
    case Delete(id, owner, net) => DeletePlay(s, id, owner, net)
    case Clear(owner, net) => ClearPlays(s, owner, net)
    case Other(q) => (After(s, q), Exec(s, q).Done?)
  }

  function StoreAfter(s: Store, calls: seq<HistoryCall>): Store {
    if calls == [] then s else Call(StoreAfter(s, calls[..|calls| - 1]), calls[|calls| - 1]).0
  }

  /** The call removes the row of (user, song) if there is one. */
  predicate Restarts(s: Store, c: HistoryCall, ok: bool, userId: int, songId: string) {
    match c
    case Add(_, _, _, _) => false
    case Delete(id, _, _) => ok && IsPlay(s, id, userId, songId)
    case Clear(owner, _) => ok && owner == userId
    case Other(q) => q.DeleteUser? && q.id == userId
  }

  function AddsAfter(s: Store, c: HistoryCall, userId: int, songId: string, adds: nat): nat {
    var ok := Call(s, c).1;
    if Restarts(s, c, ok, userId, songId) then 0
    else if c.Add? && ok && c.play.userId == userId && c.play.songId == songId then adds + 1
    else adds
  }

  /** The successful adds of (user, song) since its row was created; 0 while there is none. */
  function AddsSince(s: Store, calls: seq<HistoryCall>, userId: int, songId: string): nat {
    if calls == [] then 0
    else
      var front, c := calls[..|calls| - 1], calls[|calls| - 1];
      AddsAfter(StoreAfter(s, front), c, userId, songId, AddsSince(s, front, userId, songId))
  }

  ghost predicate OneRowPerSong(s: Store) {
    forall i, j :: i in s.history && j in s.history && i != j ==>
      s.history[i].userId != s.history[j].userId || s.history[i].songId != s.history[j].songId
  }

  /** `adds` successful adds have made the row of (user, song) what it is. */
  ghost predicate AccountsFor(s: Store, userId: int, songId: string, adds: nat) {
    && (forall id :: IsPlay(s, id, userId, songId) ==> adds > 0 && s.history[id].count == Wrap32(adds - 1))
    && (adds > 0 ==> exists id :: IsPlay(s, id, userId, songId))
  }

  /** A failed add changes nothing. A successful one either counts up the row it found,
      touching no other value, or creates a row that reads back as the play, with count 0
      and the current time. */
  lemma AddPlayEffect(s: Store, play: PlayHistory, now: int, skip: nat, net: Net)
    returns (id: int)
    requires StoreInv(s)
    ensures var (t, ok) := AddPlay(s, play, now, skip, net);
            && (ok <==>
                  && net.connected && net.first && net.second
                  && (|| (exists k :: IsPlay(s, k, play.userId, play.songId))
                      || (&& |play.songId| <= 50 && |play.songName| <= 255 && |play.songSinger| <= 255
                          && |play.songPic| <= 255 && (play.songWhere == "QQ" || play.songWhere == "NetEase")
                          && play.userId in s.users && s.nextHistory + skip <= 2147483647)))
            && (!ok ==> t == s)
            && (ok ==> IsPlay(t, id, play.userId, play.songId)
                       && t.users == s.users && t.playlists == s.playlists && t.songs == s.songs)
            && (ok && id in s.history ==>
                  t.history == s.history[id := s.history[id].(count := Wrap32(s.history[id].count + 1))])
            && (ok && id !in s.history ==>
                  && t.history.Keys == s.history.Keys + {id}
                  && (forall k :: k in s.history ==>
                        !IsPlay(s, k, play.userId, play.songId) && t.history[k] == s.history[k])
                  && t.history[id] == HistoryRow(play.userId, play.songId, play.songName, play.songSinger,
                                                 if play.songPic == "" then None else Some(play.songPic),
                                                 play.songWhere, 0, now)
                  && BuildFromResultSet(id, t.history[id]) == play.(id := id, playedAt := now, songCount := 0))
  {
    var found := FirstPlay(s, play.userId, play.songId, 0);
    id := if found.Some? then found.value else s.nextHistory + skip;
    AddPlayAnswers(s, play, now, skip, net);
    if found.Some? {
      CountedUp(s, id, Wrap32(s.history[id].count + 1));
    } else {
      FirstPlayAdded(s, NewRow(play, now), skip);
      PlayRoundTrip(play, now, id);
    }
  }

  lemma AddPlayAnswers(s: Store, play: PlayHistory, now: int, skip: nat, net: Net)
    requires StoreInv(s)
    ensures AddPlay(s, play, now, skip, net).1 <==>
              && net.connected && net.first && net.second
              && (|| (exists k :: IsPlay(s, k, play.userId, play.songId))
                  || (&& |play.songId| <= 50 && |play.songName| <= 255 && |play.songSinger| <= 255
                      && |play.songPic| <= 255 && (play.songWhere == "QQ" || play.songWhere == "NetEase")
                      && play.userId in s.users && s.nextHistory + skip <= 2147483647))
  {
    var found := FirstPlay(s, play.userId, play.songId, 0);
    if found.None? {
      NothingFound(s, play.userId, play.songId);
    } else {
      assert IsPlay(s, found.value, play.userId, play.songId);
      CountMoves(s.history[found.value].count);
    }
  }

  /** Counting up changes the counter, even where it wraps. */
  lemma CountMoves(n: int)
    ensures Wrap32(n + 1) != n
  {
  }

  lemma CountedUp(s: Store, id: int, count: int)
    requires id in s.history
    ensures var reply := ExecSetCount(s, id, count);
            && reply.Done? && reply.store == s.(history := s.history[id := s.history[id].(count := count)])
            && (reply.affected == 0 ==> reply.store == s)
  {
    if s.history[id].count == count {
      assert s.history[id := s.history[id].(count := count)] == s.history;
    }
  }

  lemma FirstPlayAdded(s: Store, row: HistoryRow, skip: nat)
    requires StoreInv(s) && forall k :: 0 <= k < s.nextHistory ==> !IsPlay(s, k, row.userId, row.songId)
    ensures forall k :: k in s.history ==> !IsPlay(s, k, row.userId, row.songId)
    ensures var id, reply := s.nextHistory + skip, ExecInsertHistory(s, row, skip);
            reply.Done? ==>
              && reply.affected == 1 && id !in s.history
              && reply.store == s.(history := s.history[id := row], nextHistory := id + 1)
  {
  }

  lemma AddKeepsOneRow(s: Store, c: HistoryCall)
    requires c.Add? && StoreInv(s) && OneRowPerSong(s)
    ensures StoreInv(Call(s, c).0) && OneRowPerSong(Call(s, c).0)
  {
    var found := FirstPlay(s, c.play.userId, c.play.songId, 0);
    if found.None? {
      NothingFound(s, c.play.userId, c.play.songId);
    }
  }

  lemma CountUpAccounts(s: Store, found: int, userId: int, songId: string, adds: nat)
    requires OneRowPerSong(s) && AccountsFor(s, userId, songId, adds) && found in s.history
    ensures var t := ExecSetCount(s, found, Wrap32(s.history[found].count + 1)).store;
            AccountsFor(t, userId, songId, if IsPlay(s, found, userId, songId) then adds + 1 else adds)
  {
    var count := Wrap32(s.history[found].count + 1);
    Wrap32Successor(adds - 1);
    CounterSet(s, found, count, userId, songId, adds, if IsPlay(s, found, userId, songId) then adds + 1 else adds);
  }

  lemma CounterSet(s: Store, found: int, count: int, userId: int, songId: string, adds: nat, adds': nat)
    requires OneRowPerSong(s) && AccountsFor(s, userId, songId, adds) && found in s.history
    requires if IsPlay(s, found, userId, songId) then adds' > 0 && count == Wrap32(adds' - 1) else adds' == adds
    ensures AccountsFor(ExecSetCount(s, found, count).store, userId, songId, adds')
  {
    var t := ExecSetCount(s, found, count).store;
    assert forall id :: IsPlay(t, id, userId, songId) <==> IsPlay(s, id, userId, songId);
    if IsPlay(s, found, userId, songId) {
      assert IsPlay(t, found, userId, songId);
    }
  }

  lemma FirstAddAccounts(s: Store, row: HistoryRow, skip: nat, userId: int, songId: string, adds: nat)
    requires StoreInv(s) && AccountsFor(s, userId, songId, adds)
    requires ExecInsertHistory(s, row, skip).Done? && row.count == 0
    requires forall id :: id in s.history ==> !IsPlay(s, id, row.userId, row.songId)
    ensures AccountsFor(ExecInsertHistory(s, row, skip).store, userId, songId,
                        if row.userId == userId && row.songId == songId then adds + 1 else adds)
  {
    var t, id := ExecInsertHistory(s, row, skip).store, s.nextHistory + skip;
    var same := row.userId == userId && row.songId == songId;
    assert forall k :: IsPlay(t, k, userId, songId) <==> IsPlay(s, k, userId, songId) || (k == id && same);
    if same {
      assert IsPlay(t, id, userId, songId);
    }
  }

  lemma AddAccounts(s: Store, c: HistoryCall, userId: int, songId: string, adds: nat)
    requires c.Add? && StoreInv(s) && OneRowPerSong(s) && AccountsFor(s, userId, songId, adds)
    ensures var (t, ok) := Call(s, c);
            AccountsFor(t, userId, songId,
                        if ok && c.play.userId == userId && c.play.songId == songId then adds + 1 else adds)
  {
    var found := FirstPlay(s, c.play.userId, c.play.songId, 0);
    if found.Some? {
      CountUpAccounts(s, found.value, userId, songId, adds);
    } else {
      NothingFound(s, c.play.userId, c.play.songId);
      if ExecInsertHistory(s, NewRow(c.play, c.now), c.skip).Done? {
        FirstAddAccounts(s, NewRow(c.play, c.now), c.skip, userId, songId, adds);
      }
    }
  }

  lemma RemovalAccounts(s: Store, t: Store, userId: int, songId: string, adds: nat)
    requires OneRowPerSong(s) && AccountsFor(s, userId, songId, adds)
    requires t.history.Keys <= s.history.Keys
    requires forall id :: id in t.history ==> t.history[id] == s.history[id]
    ensures OneRowPerSong(t)
    ensures AccountsFor(t, userId, songId,
                        if exists id :: IsPlay(s, id, userId, songId) && id !in t.history then 0 else adds)
  {
    if id :| IsPlay(s, id, userId, songId) && id !in t.history {
      assert forall k :: IsPlay(t, k, userId, songId) ==> k == id;
    } else {
      assert forall k :: IsPlay(t, k, userId, songId) <==> IsPlay(s, k, userId, songId);
    }
  }

  lemma DeleteOrClearKeepsInv(s: Store, c: HistoryCall)
    requires (c.Delete? || c.Clear?) && StoreInv(s)
    ensures StoreInv(Call(s, c).0)
  {
  }

  lemma ElsewhereKeepsRows(s: Store, q: Elsewhere)
    ensures After(s, q).history.Keys <= s.history.Keys
    ensures forall id :: id in After(s, q).history ==> After(s, q).history[id] == s.history[id]
    ensures forall id :: id in s.history ==>
              (id in After(s, q).history <==> !(q.DeleteUser? && q.id == s.history[id].userId && q.id in s.users))
  {
  }

  /** Throughout any run of these calls one after the other, among any statements on the
      other tables, from an empty history: there is at most one row per user and song, and
      its counter, plus one, is the number of successful adds since the row was created,
      as far as 32 bits can count. */
  lemma {:induction false} PlayCountAccounting(s: Store, calls: seq<HistoryCall>, userId: int, songId: string)
    requires StoreInv(s) && s.history == map[]
    ensures var t := StoreAfter(s, calls);
            StoreInv(t) && OneRowPerSong(t) && AccountsFor(t, userId, songId, AddsSince(s, calls, userId, songId))
  {
    if calls != [] {
      var front, c := calls[..|calls| - 1], calls[|calls| - 1];
      PlayCountAccounting(s, front, userId, songId);
      var before, adds := StoreAfter(s, front), AddsSince(s, front, userId, songId);
      if c.Add? {
        AddCase(before, c, userId, songId, adds);
      } else {
        RemovalCase(before, c, userId, songId, adds);
      }
    }
  }

  lemma AddCase(s: Store, c: HistoryCall, userId: int, songId: string, adds: nat)
    requires c.Add? && StoreInv(s) && OneRowPerSong(s) && AccountsFor(s, userId, songId, adds)
    ensures var (t, ok) := Call(s, c);
            && StoreInv(t) && OneRowPerSong(t)
            && AccountsFor(t, userId, songId, AddsAfter(s, c, userId, songId, adds))
  {
    AddKeepsOneRow(s, c);
    AddAccounts(s, c, userId, songId, adds);
  }

  lemma RemovalCase(s: Store, c: HistoryCall, userId: int, songId: string, adds: nat)
    requires !c.Add? && StoreInv(s) && OneRowPerSong(s) && AccountsFor(s, userId, songId, adds)
    ensures var (t, ok) := Call(s, c);
            && StoreInv(t) && OneRowPerSong(t)
            && AccountsFor(t, userId, songId, AddsAfter(s, c, userId, songId, adds))
  {
    var (t, ok) := Call(s, c);
    if c.Other? {
      StatementKeepsInv(s, c.q);
      ElsewhereKeepsRows(s, c.q);
    } else {
      DeleteOrClearKeepsInv(s, c);
    }
    RemovalAccounts(s, t, userId, songId, adds);
    if !c.Delete? && Restarts(s, c, ok, userId, songId) {
      assert forall id :: !IsPlay(t, id, userId, songId);
    }
  }

  /** In plain numbers, while the counter has not wrapped. */
  lemma PlayCountIsAddsLessOne(s: Store, calls: seq<HistoryCall>, id: int)
    requires StoreInv(s) && s.history == map[]
    requires id in StoreAfter(s, calls).history
    requires |calls| <= INT_MAX
    ensures var row := StoreAfter(s, calls).history[id];
            row.count + 1 == AddsSince(s, calls, row.userId, row.songId)
  {
    var row := StoreAfter(s, calls).history[id];
    PlayCountAccounting(s, calls, row.userId, row.songId);
    AddsAtMostCalls(s, calls, row.userId, row.songId);
    CounterOfRow(StoreAfter(s, calls), id, AddsSince(s, calls, row.userId, row.songId));
  }

  lemma CounterOfRow(s: Store, id: int, adds: nat)
    requires id in s.history && adds <= INT_MAX
    requires AccountsFor(s, s.history[id].userId, s.history[id].songId, adds)
    ensures s.history[id].count + 1 == adds
  {
    assert IsPlay(s, id, s.history[id].userId, s.history[id].songId);
  }

  lemma {:induction false} AddsAtMostCalls(s: Store, calls: seq<HistoryCall>, userId: int, songId: string)
    ensures AddsSince(s, calls, userId, songId) <= |calls|
  {
    if calls != [] {
      AddsAtMostCalls(s, calls[..|calls| - 1], userId, songId);
    }
  }

  /** Whose rows a call is about, if anybody's. */
  function Owner(c: HistoryCall): Option<int> {
    match c
    case Add(play, _, _, _) => Some(play.userId)
    case Delete(_, owner, _) => Some(owner)
    case Clear(owner, _) => Some(owner)
    case Other(q) => if q.DeleteUser? then Some(q.id) else None
  }

  /** A call for one user leaves every row of every other user as it was. */
  lemma OtherUsersUntouched(s: Store, c: HistoryCall, id: int)
    requires StoreInv(s)
    ensures var t := Call(s, c).0;
            && (id in s.history && Some(s.history[id].userId) != Owner(c) ==>
                  id in t.history && t.history[id] == s.history[id])
            && (id in t.history && Some(t.history[id].userId) != Owner(c) ==> id in s.history)
  {
    if c.Other? {
      ElsewhereKeepsRows(s, c.q);
    }
  }

  // ---------------------------------------------------------------------------------
  // Top artists
  // ---------------------------------------------------------------------------------

  function ArtistsOf(s: Store, userId: int): set<string> {
    set id | id in s.history && s.history[id].userId == userId :: s.history[id].singer
  }

  /** SUM(song_count) over the rows below `bound` that `included` accepts. */
  function SumBelow(s: Store, bound: nat, included: HistoryRow -> bool): int {
    if bound == 0 then 0
    else
      SumBelow(s, bound - 1, included) +
      (if bound - 1 in s.history && included(s.history[bound - 1]) then s.history[bound - 1].count else 0)
  }

  function OfUser(userId: int): HistoryRow -> bool { (row: HistoryRow) => row.userId == userId }

  function OfArtist(userId: int, singer: string): HistoryRow -> bool {
    (row: HistoryRow) => row.userId == userId && row.singer == singer
  }

  function Bound(s: Store): nat { if s.nextHistory < 0 then 0 else s.nextHistory }

  /** SUM(song_count) of one group. */
  function ArtistTotal(s: Store, userId: int): string -> int {
    singer => SumBelow(s, Bound(s), OfArtist(userId, singer))
  }

  function UserTotal(s: Store, userId: int): int { SumBelow(s, Bound(s), OfUser(userId)) }

  /** The plays of a set of rows, added up in any order. */
  ghost function Plays(s: Store, rows: set<int>): int {
    if exists id :: id in rows then
      var id :| id in rows;
      PlayCount(s)(id) + Plays(s, rows - {id})
    else 0
  }

  lemma {:induction false} PlaysWithout(s: Store, rows: set<int>, id: int)
    requires id in rows
    ensures Plays(s, rows) == PlayCount(s)(id) + Plays(s, rows - {id})
  {
    var first :| first in rows && Plays(s, rows) == PlayCount(s)(first) + Plays(s, rows - {first});
    if first != id {
      PlaysWithout(s, rows - {first}, id);
      PlaysWithout(s, rows - {id}, first);
      assert rows - {first} - {id} == rows - {id} - {first};
    }
  }

  lemma {:induction false} SumIsPlays(s: Store, bound: nat, included: HistoryRow -> bool)
    ensures SumBelow(s, bound, included) ==
            Plays(s, set id | id in s.history && 0 <= id < bound && included(s.history[id]))
  {
    var rows := set id | id in s.history && 0 <= id < bound && included(s.history[id]);
    if bound > 0 {
      var fewer := set id | id in s.history && 0 <= id < bound - 1 && included(s.history[id]);
      SumIsPlays(s, bound - 1, included);
      if bound - 1 in rows {
        PlaysWithout(s, rows, bound - 1);
        assert rows - {bound - 1} == fewer;
      } else {
        assert rows == fewer;
      }
    } else {
      assert rows == {};
    }
  }

  /** A group's total is the plays of the artist's rows, and all totals are those of all rows. */
  lemma TotalsArePlays(s: Store, userId: int, singer: string)
    requires StoreInv(s)
    ensures ArtistTotal(s, userId)(singer) ==
            Plays(s, set id | id in s.history && s.history[id].userId == userId && s.history[id].singer == singer)
    ensures UserTotal(s, userId) == Plays(s, set id | id in s.history && s.history[id].userId == userId)
  {
    SumIsPlays(s, Bound(s), OfArtist(userId, singer));
    SumIsPlays(s, Bound(s), OfUser(userId));
    assert (set id | id in s.history && s.history[id].userId == userId && s.history[id].singer == singer) ==
           (set id | id in s.history && 0 <= id < Bound(s) && OfArtist(userId, singer)(s.history[id]));
    assert (set id | id in s.history && s.history[id].userId == userId) ==
           (set id | id in s.history && 0 <= id < Bound(s) && OfUser(userId)(s.history[id]));
  }

  function WithTotals(s: Store, userId: int, singers: seq<string>): seq<(string, int)> {
    seq(|singers|, i requires 0 <= i < |singers| => (singers[i], ArtistTotal(s, userId)(singers[i])))
  }

  function SumOfGroups(s: Store, bound: nat, userId: int, singers: seq<string>): int {
    if singers == [] then 0
    else SumBelow(s, bound, OfArtist(userId, singers[0])) + SumOfGroups(s, bound, userId, singers[1..])
  }

  /** One more row adds its counter to the group of its singer and to no other. */
  lemma {:induction false} RowCountsOnce(s: Store, bound: nat, userId: int, singers: seq<string>)
    requires Distinct(singers)
    ensures SumOfGroups(s, bound + 1, userId, singers) == SumOfGroups(s, bound, userId, singers) +
              (if bound in s.history && s.history[bound].userId == userId && s.history[bound].singer in singers
               then s.history[bound].count else 0)
  {
    if singers != [] {
      assert singers == [singers[0]] + singers[1..];
      RowCountsOnce(s, bound, userId, singers[1..]);
    }
  }

  lemma {:induction false} GroupsPartitionRows(s: Store, bound: nat, userId: int, singers: seq<string>)
    requires Distinct(singers)
    requires forall id :: id in s.history && s.history[id].userId == userId ==> s.history[id].singer in singers
    ensures SumOfGroups(s, bound, userId, singers) == SumBelow(s, bound, OfUser(userId))
  {
    if bound == 0 {
      EmptyGroups(s, userId, singers);
    } else {
      GroupsPartitionRows(s, bound - 1, userId, singers);
      RowCountsOnce(s, bound - 1, userId, singers);
    }
  }

  lemma {:induction false} EmptyGroups(s: Store, userId: int, singers: seq<string>)
    ensures SumOfGroups(s, 0, userId, singers) == 0
  {
    if singers != [] {
      EmptyGroups(s, userId, singers[1..]);
    }
  }

  /** Each entry is one artist of the user with the plays of that artist's rows, and no
      artist is listed twice. */
  lemma TopArtistEntries(s: Store, userId: int, order: seq<string>, limit: nat, i: nat)
    requires StoreInv(s) && Ordered(order, ArtistsOf(s, userId), ArtistTotal(s, userId))
    requires i < |WithTotals(s, userId, Page(order, limit, 0))|
    ensures var top := WithTotals(s, userId, Page(order, limit, 0));
            && top[i].1 == Plays(s, set id | id in s.history && s.history[id].userId == userId
                                             && s.history[id].singer == top[i].0)
            && (exists id :: id in s.history && s.history[id].userId == userId && s.history[id].singer == top[i].0)
            && (forall j :: 0 <= j < i ==> top[j].0 != top[i].0)
  {
    assert order[i] in ArtistsOf(s, userId);
    ArtistHasRow(s, userId, order[i]);
    TotalsArePlays(s, userId, order[i]);
  }

  lemma ArtistHasRow(s: Store, userId: int, singer: string)
    requires singer in ArtistsOf(s, userId)
    ensures exists id :: id in s.history && s.history[id].userId == userId && s.history[id].singer == singer
  {
  }

  /** Before the limit the group totals add up to all the user's plays; after it the
      length is min(limit, number of artists), the totals descend, and no artist left out
      has more plays than one returned. */
  lemma TopArtists(s: Store, userId: int, order: seq<string>, limit: nat)
    requires StoreInv(s) && Ordered(order, ArtistsOf(s, userId), ArtistTotal(s, userId))
    ensures SumOfGroups(s, Bound(s), userId, order) == UserTotal(s, userId)
    ensures var top := WithTotals(s, userId, Page(order, limit, 0));
            && |top| == Min(limit, |ArtistsOf(s, userId)|)
            && (forall i, j :: 0 <= i < j < |top| ==> top[i].1 >= top[j].1)
            && (forall i, other ::
                  0 <= i < |top| && other in ArtistsOf(s, userId) && other !in Page(order, limit, 0) ==>
                  ArtistTotal(s, userId)(other) <= top[i].1)
  {
    GroupsPartitionRows(s, Bound(s), userId, order);
    LimitKeepsLargest(order, ArtistsOf(s, userId), ArtistTotal(s, userId), limit);
    var kept := Page(order, limit, 0);
    assert forall i :: 0 <= i < |kept| ==> kept[i] in kept;
  }
}
