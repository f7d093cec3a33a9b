/**
 addSongToPlaylist by any number of clients at once (src/database/PlaylistDAO.cpp:115-153).
 Each call is two statements, the check and the insert; a schedule interleaves the
 statements of all calls, which may be for the same song or for different ones.
 */
module PlaylistRace {
  import opened Database
  import opened PlaylistDAO
  import opened Schema
  import opened Wrappers

  datatype AddCall = AddCall(row: SongRow, skip: nat)

  /** Where a call stands between the check and the insert. */
  datatype Adder = Start | SawAbsent | Finished(ok: bool)

  datatype Race = Race(db: Store, adders: seq<Adder>)

  function Step(r: Race, calls: seq<AddCall>, turn: Turn): (r': Race)
    requires |r.adders| == |calls|
    ensures |r'.adders| == |calls|
  {
    var i := turn.client;
    if i >= |calls| || r.adders[i].Finished? then r
    else if !turn.through then r.(adders := r.adders[i := Finished(false)])
    else if r.adders[i].Start? then
      var listed := SongListed(r.db, SongKey(calls[i].row));
      r.(adders := r.adders[i := if listed then Finished(true) else SawAbsent])
    else
      match ExecInsertSong(r.db, calls[i].row, calls[i].skip) {
        case SqlError => r.(adders := r.adders[i := Finished(false)])
        case Done(t, affected, _) => Race(t, r.adders[i := Finished(affected > 0)])
      }
  }

  /** Without interference the two statements are the sequential addSongToPlaylist. */
  lemma AloneIsAddSong(s: Store, c: AddCall)
    ensures var looked := Step(Race(s, [Start]), [c], Turn(0, true));
            var wrote := Step(looked, [c], Turn(0, true));
            var (t, ok) := AddSong(s, c.row, c.skip, Net(true, true, true));
            wrote == Race(t, [Finished(ok)])
  {
  }

  // ---------------------------------------------------------------------------------
  // Runs and positions in them
  // ---------------------------------------------------------------------------------

  /** `states[k]` is the state before turn `k`; the last one is the state at the end. */
  datatype Run = Run(calls: seq<AddCall>, turns: seq<Turn>, states: seq<Race>)

  ghost predicate Shaped(run: Run) {
    && |run.states| == |run.turns| + 1
    && forall k :: 0 <= k < |run.states| ==> |run.states[k].adders| == |run.calls|
  }

  ghost predicate StepAt(run: Run, k: nat)
    requires Shaped(run) && k < |run.turns|
  {
    run.states[k + 1] == Step(run.states[k], run.calls, run.turns[k])
  }

  /** A run of calls that all start now, on tables that satisfy the schema. */
  ghost predicate IsRun(run: Run) {
    && Shaped(run)
    && StoreInv(run.states[0].db) && (forall i :: 0 <= i < |run.calls| ==> run.states[0].adders[i].Start?)
    && forall k :: 0 <= k < |run.turns| ==> StepAt(run, k)
  }

  ghost function Final(run: Run): Race
    requires Shaped(run)
  {
    run.states[|run.turns|]
  }

  ghost function KeyOf(run: Run, i: nat): (int, string, string)
    requires i < |run.calls|
  {
    SongKey(run.calls[i].row)
  }

  /** Client `i` checks at turn `a` and finds nothing. */
  ghost predicate FindsNothingAt(run: Run, a: nat, i: nat)
    requires Shaped(run)
  {
    && a < |run.turns| && i < |run.calls| && run.turns[a] == Turn(i, true)
    && run.states[a].adders[i].Start? && run.states[a + 1].adders[i].SawAbsent?
  }

  /** Client `i` sends its insert at turn `c`. */
  ghost predicate SendsAt(run: Run, c: nat, i: nat)
    requires Shaped(run)
  {
    c < |run.turns| && i < |run.calls| && run.turns[c] == Turn(i, true) && run.states[c].adders[i].SawAbsent?
  }

  ghost predicate InsertsAt(run: Run, b: nat, j: nat)
    requires Shaped(run)
  {
    SendsAt(run, b, j) && run.states[b + 1].adders[j] == Finished(true)
  }

  /** Client `i` checks and finds nothing, then `j` inserts the song, then `i` tries to. */
  ghost predicate Overtaken(run: Run, a: nat, b: nat, c: nat, i: nat, j: nat)
    requires Shaped(run)
  {
    && a < b < c && FindsNothingAt(run, a, i) && InsertsAt(run, b, j) && SendsAt(run, c, i)
    && KeyOf(run, i) == KeyOf(run, j)
  }

  /** The database cannot be reached when client `i` is to send a statement. */
  ghost predicate CutOffAt(run: Run, c: nat, i: nat)
    requires Shaped(run)
  {
    c < |run.turns| && i < |run.calls| && run.turns[c] == Turn(i, false) && !run.states[c].adders[i].Finished?
  }

  /** Client `i` sends a row that could not be stored on its own either. */
  ghost predicate UnfitAt(run: Run, c: nat, i: nat)
    requires Shaped(run)
  {
    && SendsAt(run, c, i)
    && var call, s := run.calls[i], run.states[c].db;
       !SongFits(call.row) || call.row.playlistId !in s.playlists || s.nextSong + call.skip > INT_MAX
  }

  // ---------------------------------------------------------------------------------
  // Invariants of a run
  // ---------------------------------------------------------------------------------

  lemma {:induction false} SchemaAlways(run: Run, n: nat)
    requires IsRun(run) && n <= |run.turns|
    ensures StoreInv(run.states[n].db)
  {
    if n > 0 {
      SchemaAlways(run, n - 1);
      assert StepAt(run, n - 1);
    }
  }

  /** An insert that reports success stores its row; every other turn leaves the tables alone. */
  lemma TurnOrInsert(run: Run, k: nat)
    requires IsRun(run) && k < |run.turns|
    ensures var s, t, j := run.states[k].db, run.states[k + 1].db, run.turns[k].client;
            if InsertsAt(run, k, j)
            then !SongListed(s, KeyOf(run, j))
                 && t.songs == s.songs[s.nextSong + run.calls[j].skip := run.calls[j].row]
            else t == s
  {
    assert StepAt(run, k);
  }

  lemma SongsAfterTurn(run: Run, k: nat, key: (int, string, string))
    requires IsRun(run) && k < |run.turns|
    ensures var s, t, j := run.states[k].db, run.states[k + 1].db, run.turns[k].client;
            SongListed(t, key) <==> SongListed(s, key) || (InsertsAt(run, k, j) && KeyOf(run, j) == key)
  {
    var s, t, j := run.states[k].db, run.states[k + 1].db, run.turns[k].client;
    SchemaAlways(run, k);
    TurnOrInsert(run, k);
    if InsertsAt(run, k, j) {
      assert t.songs[s.nextSong + run.calls[j].skip] == run.calls[j].row;
      if id :| id in s.songs && SongKey(s.songs[id]) == key {
        assert t.songs[id] == s.songs[id];
      }
    }
  }

  lemma {:induction false} ListedStays(run: Run, a: nat, n: nat, key: (int, string, string))
    requires IsRun(run) && a <= n <= |run.turns| && SongListed(run.states[a].db, key)
    ensures SongListed(run.states[n].db, key)
  {
    if a < n {
      ListedStays(run, a, n - 1, key);
      SongsAfterTurn(run, n - 1, key);
    }
  }

  /** A song that was not listed at turn `a` has been inserted since. */
  lemma {:induction false} ListedAppears(run: Run, a: nat, n: nat, key: (int, string, string)) returns (b: nat, j: nat)
    requires IsRun(run) && a <= n <= |run.turns|
    requires !SongListed(run.states[a].db, key) && SongListed(run.states[n].db, key)
    ensures a <= b < n && InsertsAt(run, b, j) && KeyOf(run, j) == key
  {
    SongsAfterTurn(run, n - 1, key);
    if SongListed(run.states[n - 1].db, key) {
      b, j := ListedAppears(run, a, n - 1, key);
    } else {
      b, j := n - 1, run.turns[n - 1].client;
    }
  }

  lemma {:induction false} CheckedSince(run: Run, n: nat, i: nat) returns (a: nat)
    requires IsRun(run) && n <= |run.turns| && i < |run.calls| && run.states[n].adders[i].SawAbsent?
    ensures a < n && FindsNothingAt(run, a, i) && !SongListed(run.states[a].db, KeyOf(run, i))
  {
    assert StepAt(run, n - 1);
    if run.states[n - 1].adders[i].SawAbsent? {
      a := CheckedSince(run, n - 1, i);
    } else {
      a := n - 1;
    }
  }

  lemma {:induction false} FinishedStays(run: Run, a: nat, n: nat, i: nat)
    requires IsRun(run) && a <= n <= |run.turns| && i < |run.calls| && run.states[a].adders[i].Finished?
    ensures run.states[n].adders[i] == run.states[a].adders[i]
  {
    if a < n {
      FinishedStays(run, a, n - 1, i);
      assert StepAt(run, n - 1);
    }
  }

  /** A finished call finished at one turn. */
  lemma {:induction false} FinishedAt(run: Run, n: nat, i: nat) returns (c: nat)
    requires IsRun(run) && n <= |run.turns| && i < |run.calls| && run.states[n].adders[i].Finished?
    ensures c < n && run.turns[c].client == i && !run.states[c].adders[i].Finished?
    ensures run.states[c + 1].adders[i] == run.states[n].adders[i]
  {
    assert StepAt(run, n - 1);
    if run.states[n - 1].adders[i].Finished? {
      c := FinishedAt(run, n - 1, i);
      FinishedStays(run, c + 1, n, i);
    } else {
      c := n - 1;
    }
  }

  // ---------------------------------------------------------------------------------
  // How a race ends
  // ---------------------------------------------------------------------------------

  ghost predicate SomebodyAdded(run: Run, key: (int, string, string))
    requires Shaped(run)
  {
    exists i :: 0 <= i < |run.calls| && KeyOf(run, i) == key && Final(run).adders[i] == Finished(true)
  }

  /** However the checks and inserts interleave, a playlist ends with exactly one row for
      each song that it held before or that somebody was told was added, and no other. */
  lemma RaceLeavesOneRow(run: Run, key: (int, string, string))
    requires IsRun(run)
    ensures |RowsOf(Final(run).db, key)| ==
              if SongListed(run.states[0].db, key) || SomebodyAdded(run, key) then 1 else 0
  {
    var n := |run.turns|;
    SchemaAlways(run, n);
    CountIsPositiveWhenListed(Final(run).db, key);
    if SongListed(Final(run).db, key) {
      ListedOnce(Final(run).db, key);
      if !SongListed(run.states[0].db, key) {
        var b, j := ListedAppears(run, 0, n, key);
        FinishedStays(run, b + 1, n, j);
      }
    }
    if SongListed(run.states[0].db, key) {
      ListedStays(run, 0, n, key);
    } else if i :| 0 <= i < |run.calls| && KeyOf(run, i) == key && Final(run).adders[i] == Finished(true) {
      AddedIsListed(run, i);
    }
  }

  lemma AddedIsListed(run: Run, i: nat)
    requires IsRun(run) && i < |run.calls| && Final(run).adders[i] == Finished(true)
    ensures SongListed(Final(run).db, KeyOf(run, i))
  {
    var c := FinishedAt(run, |run.turns|, i);
    assert StepAt(run, c);
    SongsAfterTurn(run, c, KeyOf(run, i));
    ListedStays(run, c + 1, |run.turns|, KeyOf(run, i));
  }

  /** A client is told that its add failed exactly when the database was out of its reach,
      its row could not be stored on its own either, or between its check and its insert
      another client's insert of the song succeeded. */
  lemma LoserOfRace(run: Run, i: nat)
    requires IsRun(run) && i < |run.calls|
    ensures Final(run).adders[i] == Finished(false) <==>
              || (exists c :: CutOffAt(run, c, i))
              || (exists c :: UnfitAt(run, c, i))
              || (exists a, b, c, j :: Overtaken(run, a, b, c, i, j))
  {
    var n := |run.turns|;
    if Final(run).adders[i] == Finished(false) {
      FailureHasReason(run, i);
    }
    if c: nat :| CutOffAt(run, c, i) {
      assert StepAt(run, c);
      FinishedStays(run, c + 1, n, i);
    }
    if c: nat :| UnfitAt(run, c, i) {
      assert StepAt(run, c);
      FinishedStays(run, c + 1, n, i);
    }
    if a: nat, b: nat, c: nat, j: nat :| Overtaken(run, a, b, c, i, j) {
      SongsAfterTurn(run, b, KeyOf(run, i));
      ListedStays(run, b + 1, c, KeyOf(run, i));
      assert StepAt(run, c);
      FinishedStays(run, c + 1, n, i);
    }
  }

  lemma FailureHasReason(run: Run, i: nat)
    requires IsRun(run) && i < |run.calls| && Final(run).adders[i] == Finished(false)
    ensures exists c :: CutOffAt(run, c, i) || UnfitAt(run, c, i) || exists a, b, j :: Overtaken(run, a, b, c, i, j)
  {
    var c := FinishedAt(run, |run.turns|, i);
    assert StepAt(run, c);
    if run.turns[c].through && !UnfitAt(run, c, i) {
      var a := CheckedSince(run, c, i);
      var b, j := ListedAppears(run, a, c, KeyOf(run, i));
      assert a != b;
      assert Overtaken(run, a, b, c, i, j);
    } else {
      assert CutOffAt(run, c, i) || UnfitAt(run, c, i);
    }
  }

  lemma CheckTurn(run: Run, k: nat, i: nat)
    requires IsRun(run) && k < |run.turns| && i < |run.calls| && run.turns[k] == Turn(i, true)
    requires run.states[k].adders[i].Start? && !SongListed(run.states[k].db, KeyOf(run, i))
    ensures run.states[k + 1] == Race(run.states[k].db, run.states[k].adders[i := SawAbsent])
  {
    assert StepAt(run, k);
  }

  lemma InsertTurn(run: Run, k: nat, i: nat)
    requires IsRun(run) && SendsAt(run, k, i)
    ensures var ok := !UnfitAt(run, k, i) && !SongListed(run.states[k].db, KeyOf(run, i));
            run.states[k + 1].adders == run.states[k].adders[i := Finished(ok)]
  {
    assert StepAt(run, k);
  }

  /** Two first adds of one song, under different names perhaps, that both check before
      either inserts: the first to insert wins and the other is told that it failed. */
  lemma TwoAtOnce(run: Run)
    requires IsRun(run) && |run.calls| == 2 && KeyOf(run, 0) == KeyOf(run, 1)
    requires run.turns == [Turn(0, true), Turn(1, true), Turn(0, true), Turn(1, true)]
    requires !SongListed(run.states[0].db, KeyOf(run, 0)) && !UnfitAt(run, 2, 0)
    ensures Final(run).adders == [Finished(true), Finished(false)]
    ensures |RowsOf(Final(run).db, KeyOf(run, 0))| == 1
  {
    CheckTurn(run, 0, 0);
    CheckTurn(run, 1, 1);
    InsertTurn(run, 2, 0);
    SongsAfterTurn(run, 2, KeyOf(run, 1));
    InsertTurn(run, 3, 1);
    RaceLeavesOneRow(run, KeyOf(run, 0));
    assert Final(run).adders[0] == Finished(true);
  }
}
