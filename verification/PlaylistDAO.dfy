/** src/database/PlaylistDAO.{h,cpp}. */
module PlaylistDAO {
  import opened Database
  import opened Listing
  import opened Schema
  import opened Wrappers

  /** src/models/playlist.h and song.h without their time stamps. */
  datatype Playlist = Playlist(id: int, userId: int, name: string, cover: string)
  datatype Song = Song(id: int, songId: string, name: string, singer: string, pic: string, source: string)

  function BuildPlaylist(id: int, row: PlaylistRow): Playlist {
    Playlist(id, row.userId, row.name, FromColumn(row.cover))
  }

  function BuildSong(id: int, row: SongRow): Song {
    Song(id, row.songId, row.name, row.singer, FromColumn(row.pic), row.source)
  }

  function RowOfSong(playlistId: int, song: Song): SongRow {
    SongRow(playlistId, song.songId, song.name, song.singer, ToColumn(song.pic), song.source)
  }

  function PlaylistsOf(s: Store, userId: int): set<int> {
    set id | id in s.playlists && s.playlists[id].userId == userId
  }

  function SongsIn(s: Store, playlistId: int): set<int> {
    set id | id in s.songs && s.songs[id].playlistId == playlistId
  }

  // ---------------------------------------------------------------------------------
  // Adding and removing songs
  // ---------------------------------------------------------------------------------

  function RowsOf(s: Store, key: (int, string, string)): set<int> {
    set id | id in s.songs && SongKey(s.songs[id]) == key
  }

  lemma CountIsPositiveWhenListed(s: Store, key: (int, string, string))
    ensures |RowsOf(s, key)| > 0 <==> SongListed(s, key)
  {
    if id :| id in s.songs && SongKey(s.songs[id]) == key {
      assert id in RowsOf(s, key);
    }
    if |RowsOf(s, key)| > 0 {
      var id := Pick(RowsOf(s, key));
    }
  }

  lemma ListedOnce(s: Store, key: (int, string, string))
    requires StoreInv(s) && SongListed(s, key)
    ensures |RowsOf(s, key)| == 1
  {
    var id :| id in s.songs && SongKey(s.songs[id]) == key;
    forall k | k in RowsOf(s, key) ensures k == id {
      assert SongKey(s.songs[k]) == SongKey(s.songs[id]);
    }
    assert RowsOf(s, key) == {id};
  }

  /** Check, then insert, as two statements. */
  function AddSong(s: Store, row: SongRow, skip: nat, net: Net): (Store, bool) {
    if !net.connected || !net.first then (s, false)
    else if SongListed(s, SongKey(row)) then (s, true)
    else if !net.second then (s, false)
    else
      match Exec(s, InsertSong(row, skip))
      case SqlError => (s, false)
      case Done(t, affected, _) => (t, affected > 0)
  }

  function RemoveSong(s: Store, playlistId: int, songId: string, source: string, net: Net): (Store, bool) {
    if !net.connected || !net.first then (s, false)
    else
      match Exec(s, DeleteSong(playlistId, songId, source))
      case SqlError => (s, false)
      case Done(t, affected, _) => (t, affected > 0)
  }

  class PlaylistDAO {
    const db: SqlServer

    constructor (db: SqlServer)
      ensures this.db == db
    {
      this.db := db;
    }

    /** As for users, a row whose id cannot be read back stays although the call fails. */
    method CreatePlaylist(playlist: Playlist, skip: nat, net: Net) returns (ok: bool, created: Playlist)
      requires db.Valid()
      modifies db
      ensures db.Valid()
      ensures var q := InsertPlaylist(PlaylistRow(playlist.userId, playlist.name, ToColumn(playlist.cover)), skip);
              && db.tables == (if net.connected && net.first then After(old(db.tables), q) else old(db.tables))
              && ok == (net.connected && net.first && net.second && Exec(old(db.tables), q).Done?)
      ensures ok ==> created.id !in old(db.tables).playlists && created.id in db.tables.playlists
      ensures ok ==> created == playlist.(id := created.id)
      ensures ok ==> BuildPlaylist(created.id, db.tables.playlists[created.id]) == created
      ensures ok ==> db.tables.playlists[created.id] ==
                     PlaylistRow(playlist.userId, playlist.name,
                                 if playlist.cover == "" then None else Some(playlist.cover))
      ensures !ok ==> created == playlist
    {
      created := playlist;
      if !net.connected || !net.first {
        return false, created;
      }
      var row := PlaylistRow(playlist.userId, playlist.name, ToColumn(playlist.cover));
      var reply := db.Execute(InsertPlaylist(row, skip));
      if reply.SqlError? || !net.second {
        return false, created;
      }
      created := created.(id := reply.lastId);
      return true, created;
    }

    method GetPlaylistById(id: int, net: Net) returns (playlist: Option<Playlist>)
      ensures playlist == if net.connected && net.first && id in db.tables.playlists
                          then Some(BuildPlaylist(id, db.tables.playlists[id])) else None
    {
      if !net.connected || !net.first || id !in db.tables.playlists {
        return None;
      }
      return Some(BuildPlaylist(id, db.tables.playlists[id]));
    }

    /** `order` is the order the server lists the matching rows in. */
    method GetPlaylistsByUserId(userId: int, order: seq<int>, net: Net) returns (playlists: seq<Playlist>)
      requires Lists(order, PlaylistsOf(db.tables, userId))
      ensures |playlists| == if net.connected && net.first then |PlaylistsOf(db.tables, userId)| else 0
      ensures forall i :: 0 <= i < |playlists| ==>
                i < |order| && playlists[i] == BuildPlaylist(order[i], db.tables.playlists[order[i]])
      ensures forall i :: 0 <= i < |playlists| ==> playlists[i].userId == userId
      ensures net.connected && net.first ==>
                forall id :: id in db.tables.playlists && db.tables.playlists[id].userId == userId ==>
                  exists i :: 0 <= i < |playlists| && playlists[i].id == id
    {
      playlists := [];
      if !net.connected || !net.first {
        return;
      }
      ListingLength(order, PlaylistsOf(db.tables, userId));
      for i := 0 to |order|
        invariant |playlists| == i
        invariant forall k :: 0 <= k < i ==> playlists[k] == BuildPlaylist(order[k], db.tables.playlists[order[k]])
      {
        playlists := playlists + [BuildPlaylist(order[i], db.tables.playlists[order[i]])];
      }
      forall id | id in db.tables.playlists && db.tables.playlists[id].userId == userId
        ensures exists i :: 0 <= i < |playlists| && playlists[i].id == id
      {
        assert id in order;
        var i :| 0 <= i < |order| && order[i] == id;
        assert playlists[i].id == id;
      }
    }

    method UpdatePlaylist(playlist: Playlist, net: Net) returns (ok: bool)
      requires db.Valid()
      modifies db
      ensures db.Valid()
      ensures db.tables == if net.connected && net.first
                           then After(old(db.tables), Statement.UpdatePlaylist(playlist.id, playlist.name,
                                                                               ToColumn(playlist.cover)))
                           else old(db.tables)
      ensures ok == (db.tables != old(db.tables))
      ensures ok ==> (BuildPlaylist(playlist.id, db.tables.playlists[playlist.id]) ==
                      playlist.(userId := old(db.tables).playlists[playlist.id].userId))
    {
      if !net.connected || !net.first {
        return false;
      }
      var reply := db.Execute(Statement.UpdatePlaylist(playlist.id, playlist.name, ToColumn(playlist.cover)));
      ok := reply.Done? && reply.affected > 0;
      if reply.Done? && !ok {
        assert db.tables.playlists == old(db.tables.playlists);
      }
    }

    method DeletePlaylist(id: int, net: Net) returns (ok: bool)
      requires db.Valid()
      modifies db
      ensures db.Valid()
      ensures ok == (net.connected && net.first && id in old(db.tables).playlists)
      ensures if ok then RemovesExactly(old(db.tables), db.tables, PlaylistRef(id)) else db.tables == old(db.tables)
      ensures ok ==> db.tables == After(old(db.tables), Statement.DeletePlaylist(id))
    {
      if !net.connected || !net.first {
        return false;
      }
      DeletePlaylistCascade(db.tables, id);
      var reply := db.Execute(Statement.DeletePlaylist(id));
      ok := reply.Done? && reply.affected > 0;
    }

    method AddSongToPlaylist(playlistId: int, song: Song, skip: nat, net: Net) returns (ok: bool)
      requires db.Valid()
      modifies db
      ensures db.Valid()
      ensures (db.tables, ok) == AddSong(old(db.tables), RowOfSong(playlistId, song), skip, net)
    {
      if !net.connected || !net.first {
        return false;
      }
      var row := RowOfSong(playlistId, song);
      CountIsPositiveWhenListed(db.tables, SongKey(row));
      var count := |RowsOf(db.tables, SongKey(row))|;
      if count > 0 {
        return true;
      }
      if !net.second {
        return false;
      }
      var reply := db.Execute(InsertSong(row, skip));
      ok := reply.Done? && reply.affected > 0;
    }

    method RemoveSongFromPlaylist(playlistId: int, songId: string, source: string, net: Net) returns (ok: bool)
      requires db.Valid()
      modifies db
      ensures db.Valid()
      ensures (db.tables, ok) == RemoveSong(old(db.tables), playlistId, songId, source, net)
    {
      if !net.connected || !net.first {
        return false;
      }
      var reply := db.Execute(DeleteSong(playlistId, songId, source));
      ok := reply.Done? && reply.affected > 0;
    }

    method GetSongsInPlaylist(playlistId: int, order: seq<int>, net: Net) returns (songs: seq<Song>)
      requires Lists(order, SongsIn(db.tables, playlistId))
      ensures |songs| == if net.connected && net.first then |SongsIn(db.tables, playlistId)| else 0
      ensures forall i :: 0 <= i < |songs| ==>
                i < |order| && songs[i] == BuildSong(order[i], db.tables.songs[order[i]])
      ensures forall i :: 0 <= i < |songs| ==>
                i < |order| && order[i] in db.tables.songs && db.tables.songs[order[i]].playlistId == playlistId
      ensures net.connected && net.first ==>
                forall id :: id in db.tables.songs && db.tables.songs[id].playlistId == playlistId ==>
                  exists i :: 0 <= i < |songs| && songs[i].id == id
    {
      songs := [];
      if !net.connected || !net.first {
        return;
      }
      ListingLength(order, SongsIn(db.tables, playlistId));
      for i := 0 to |order|
        invariant |songs| == i
        invariant forall k :: 0 <= k < i ==> songs[k] == BuildSong(order[k], db.tables.songs[order[k]])
      {
        songs := songs + [BuildSong(order[i], db.tables.songs[order[i]])];
      }
      forall id | id in db.tables.songs && db.tables.songs[id].playlistId == playlistId
        ensures exists i :: 0 <= i < |songs| && songs[i].id == id
      {
        assert id in order;
        var i :| 0 <= i < |order| && order[i] == id;
        assert songs[i].id == id;
      }
    }

    method CountSongsInPlaylist(playlistId: int, net: Net) returns (count: int)
      ensures count == if net.connected && net.first then |SongsIn(db.tables, playlistId)| else 0
    {
      if !net.connected || !net.first {
        return 0;
      }
      return |SongsIn(db.tables, playlistId)|;
    }
  }

  /** What is written is what is read back, an empty picture included. */
  lemma SongRoundTrip(playlistId: int, song: Song, id: int)
    ensures BuildSong(id, RowOfSong(playlistId, song)) == song.(id := id)
  {
  }

  // ---------------------------------------------------------------------------------
  // A playlist is a set of (song, source) pairs
  // ---------------------------------------------------------------------------------

  type Entry = (string, string)

  function Entries(s: Store, playlistId: int): set<Entry> {
    set id | id in s.songs && s.songs[id].playlistId == playlistId :: (s.songs[id].songId, s.songs[id].source)
  }

  datatype SongCall =
    | Add(playlistId: int, song: Song, skip: nat, net: Net)
    | Remove(playlistId: int, songId: string, source: string, net: Net)

  function Call(s: Store, c: SongCall): (Store, bool) {
    match c
    case Add(p, song, skip, net) => AddSong(s, RowOfSong(p, song), skip, net)
    case Remove(p, songId, source, net) => RemoveSong(s, p, songId, source, net)
  }

  function CallAll(s: Store, calls: seq<SongCall>): (Store, seq<bool>)
    decreases calls
  {
    if calls == [] then (s, [])
    else
      var (t, ok) := Call(s, calls[0]);
      var (u, oks) := CallAll(t, calls[1..]);
      (u, [ok] + oks)
  }

  /** The same call on a set: an add that succeeds inserts, a remove that succeeds deletes. */
  function ModelStep(entries: set<Entry>, playlistId: int, c: SongCall, ok: bool): set<Entry> {
    if c.playlistId != playlistId || !ok then entries
    else
      match c
      case Add(_, song, _, _) => entries + {(song.songId, song.source)}
      case Remove(_, songId, source, _) => entries - {(songId, source)}
  }

  function ModelAll(entries: set<Entry>, playlistId: int, calls: seq<SongCall>, oks: seq<bool>): set<Entry>
    requires |oks| == |calls|
    decreases calls
  {
    if calls == [] then entries
    else ModelAll(ModelStep(entries, playlistId, calls[0], oks[0]), playlistId, calls[1..], oks[1..])
  }

  /** Which calls succeed, said about the set alone. */
  ghost predicate MustSucceed(s: Store, c: SongCall) {
    && c.net.connected && c.net.first
    && match c
       case Add(p, song, skip, net) =>
         || (song.songId, song.source) in Entries(s, p)
         || (&& net.second && p in s.playlists && s.nextSong + skip <= 2147483647
             && |song.songId| <= 50 && |song.name| <= 255 && |song.singer| <= 255 && |song.pic| <= 255
             && (song.source == "QQ" || song.source == "NetEase"))
       case Remove(p, songId, source, _) => (songId, source) in Entries(s, p)
  }

  lemma ListedIsEntry(s: Store, row: SongRow)
    ensures SongListed(s, SongKey(row)) <==> (row.songId, row.source) in Entries(s, row.playlistId)
  {
    if (row.songId, row.source) in Entries(s, row.playlistId) {
      var id :| id in s.songs && s.songs[id].playlistId == row.playlistId
                && (s.songs[id].songId, s.songs[id].source) == (row.songId, row.source);
      assert SongKey(s.songs[id]) == SongKey(row);
    }
  }

  lemma AddIsInsert(s: Store, c: SongCall, playlistId: int)
    requires StoreInv(s) && c.Add?
    ensures var (t, ok) := Call(s, c);
            && ok == MustSucceed(s, c)
            && Entries(t, playlistId) == ModelStep(Entries(s, playlistId), playlistId, c, ok)
            && (Entries(t, c.playlistId) == Entries(s, c.playlistId) ==> t == s)
            && (t != s ==>
                  var song := c.song;
                  var row := SongRow(c.playlistId, song.songId, song.name, song.singer,
                                     if song.pic == "" then None else Some(song.pic), song.source);
                  exists id :: id !in s.songs && t.songs == s.songs[id := row]
                               && t.(songs := s.songs, nextSong := s.nextSong) == s)
  {
    var row := RowOfSong(c.playlistId, c.song);
    ListedIsEntry(s, row);
    var (t, ok) := Call(s, c);
    if t != s {
      var id := s.nextSong + c.skip;
      assert id !in s.songs && t.songs == s.songs[id := row];
      assert Entries(t, playlistId) ==
             Entries(s, playlistId) + (if c.playlistId == playlistId then {(row.songId, row.source)} else {}) by {
        forall e | e in Entries(s, playlistId) ensures e in Entries(t, playlistId) {
          var k :| k in s.songs && s.songs[k].playlistId == playlistId && (s.songs[k].songId, s.songs[k].source) == e;
          assert t.songs[k] == s.songs[k];
        }
        if c.playlistId == playlistId {
          assert t.songs[id] == row;
        }
      }
      assert (row.songId, row.source) in Entries(t, c.playlistId) by {
        assert t.songs[id] == row;
      }
    }
  }

  lemma RemoveIsDelete(s: Store, c: SongCall, playlistId: int)
    requires StoreInv(s) && c.Remove?
    ensures var (t, ok) := Call(s, c);
            && ok == MustSucceed(s, c)
            && Entries(t, playlistId) == ModelStep(Entries(s, playlistId), playlistId, c, ok)
            && (!ok ==> t == s) && t.(songs := s.songs) == s
            && (forall id :: id in t.songs ==> id in s.songs && t.songs[id] == s.songs[id])
  {
    var key := (c.playlistId, c.songId, c.source);
    var gone := set id | id in s.songs && SongKey(s.songs[id]) == key;
    ListedIsEntry(s, SongRow(c.playlistId, c.songId, "", "", None, c.source));
    if |gone| == 0 {
      assert s.songs - gone == s.songs;
    } else {
      var k := Pick(gone);
    }
    var (t, ok) := Call(s, c);
    if c.net.connected && c.net.first {
      forall e | e in Entries(s, playlistId) && (c.playlistId != playlistId || e != (c.songId, c.source))
        ensures e in Entries(t, playlistId)
      {
        var k :| k in s.songs && s.songs[k].playlistId == playlistId && (s.songs[k].songId, s.songs[k].source) == e;
        assert k in t.songs;
      }
    }
  }

  /** Refinement: any run of adds and removes, on any playlists and with any failures,
      leaves each playlist with the entries of set insertion and deletion. */
  lemma {:induction false} PlaylistRefinesSet(s: Store, calls: seq<SongCall>, playlistId: int)
    requires StoreInv(s)
    ensures var (t, oks) := CallAll(s, calls);
            && StoreInv(t) && |oks| == |calls|
            && Entries(t, playlistId) == ModelAll(Entries(s, playlistId), playlistId, calls, oks)
    decreases calls
  {
    if calls != [] {
      var c := calls[0];
      var (t, ok) := Call(s, c);
      if c.Add? {
        AddIsInsert(s, c, playlistId);
        StatementKeepsInv(s, InsertSong(RowOfSong(c.playlistId, c.song), c.skip));
      } else {
        RemoveIsDelete(s, c, playlistId);
        StatementKeepsInv(s, DeleteSong(c.playlistId, c.songId, c.source));
      }
      PlaylistRefinesSet(t, calls[1..], playlistId);
      var (u, oks) := CallAll(t, calls[1..]);
      assert ([ok] + oks)[1..] == oks;
    }
  }

  /** Adding what is already listed succeeds and changes nothing. */
  lemma AddIsIdempotent(s: Store, playlistId: int, song: Song, skip: nat, net: Net, again: Net)
    requires StoreInv(s) && again.connected && again.first
    ensures var c := Add(playlistId, song, skip, net);
            var (t, ok) := Call(s, c);
            ok ==> Call(t, Add(playlistId, song, skip, again)) == (t, true)
  {
    var c := Add(playlistId, song, skip, net);
    AddIsInsert(s, c, playlistId);
    var (t, ok) := Call(s, c);
    ListedIsEntry(t, RowOfSong(playlistId, song));
  }

  function EntryOf(row: SongRow): Entry { (row.songId, row.source) }

  function EntriesOf(s: Store, ids: set<int>): set<Entry> {
    set id | id in ids && id in s.songs :: EntryOf(s.songs[id])
  }

  lemma {:induction false} EntriesAreAsManyAsRows(s: Store, ids: set<int>, playlistId: int)
    requires StoreInv(s) && ids <= SongsIn(s, playlistId)
    ensures |EntriesOf(s, ids)| == |ids|
  {
    if |ids| > 0 {
      var id := Pick(ids);
      var rest := ids - {id};
      EntriesAreAsManyAsRows(s, rest, playlistId);
      forall k | k in rest ensures EntryOf(s.songs[k]) != EntryOf(s.songs[id]) {
        assert SongKey(s.songs[k]) != SongKey(s.songs[id]);
      }
      assert EntriesOf(s, ids) == EntriesOf(s, rest) + {EntryOf(s.songs[id])};
    } else {
      assert EntriesOf(s, ids) == {};
    }
  }

  /** countSongsInPlaylist is the size of the set. */
  lemma CountIsSizeOfSet(s: Store, playlistId: int)
    requires StoreInv(s)
    ensures |SongsIn(s, playlistId)| == |Entries(s, playlistId)|
  {
    EntriesAreAsManyAsRows(s, SongsIn(s, playlistId), playlistId);
    assert Entries(s, playlistId) == EntriesOf(s, SongsIn(s, playlistId));
  }
}
