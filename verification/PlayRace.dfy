/**
 addPlayHistory by any number of clients at once (src/database/PlayHistoryDAO.cpp:13-56).
 Each call is two statements, the look-up and the write that its result leads to; a
 schedule interleaves the statements of all calls in any order.
 */
module PlayRace {
  import opened Database
  import opened PlayHistoryDAO
  import opened Schema
  import opened Wrappers

  datatype PlayCall = PlayCall(play: PlayHistory, now: int, skip: nat)

  /** What the SELECT returned: the row and its counter. */
  datatype Seen = Seen(id: int, count: int)

  datatype Phase = Start | Looked(found: Option<Seen>) | Finished(ok: bool)

  datatype Race = Race(db: Store, phases: seq<Phase>)

  function Look(s: Store, play: PlayHistory): Option<Seen> {
    match FirstPlay(s, play.userId, play.songId, 0)
    case None => None
    case Some(id) => Some(Seen(id, s.history[id].count))
  }

  /** The second statement and what it reports. */
  function Write(s: Store, c: PlayCall, found: Option<Seen>): (Store, bool) {
    var reply := match found
                 case None => ExecInsertHistory(s, NewRow(c.play, c.now), c.skip)
                 case Some(seen) => ExecSetCount(s, seen.id, Wrap32(seen.count + 1));
    if reply.Done? then (reply.store, reply.affected > 0) else (s, false)
  }

  /** Without interference the two statements are the sequential addPlayHistory. */
  lemma AloneIsAddPlay(s: Store, c: PlayCall)
    ensures Write(s, c, Look(s, c.play)) == AddPlay(s, c.play, c.now, c.skip, Net(true, true, true))
  {
  }

  function Step(r: Race, calls: seq<PlayCall>, turn: Turn): (r': Race)
    requires |r.phases| == |calls|
    ensures |r'.phases| == |calls|
  {
    var i := turn.client;
    if i >= |calls| || r.phases[i].Finished? then r
    else if !turn.through then r.(phases := r.phases[i := Finished(false)])
    else if r.phases[i].Start? then r.(phases := r.phases[i := Looked(Look(r.db, calls[i].play))])
    else
      var (t, ok) := Write(r.db, calls[i], r.phases[i].found);
      Race(t, r.phases[i := Finished(ok)])
  }

  // ---------------------------------------------------------------------------------
  // Runs and positions in them
  // ---------------------------------------------------------------------------------

  /** `states[k]` is the state before turn `k`; the last one is the state at the end. */
  datatype Run = Run(calls: seq<PlayCall>, turns: seq<Turn>, states: seq<Race>)

  ghost predicate Shaped(run: Run) {
    && |run.states| == |run.turns| + 1
    && forall k :: 0 <= k < |run.states| ==> |run.states[k].phases| == |run.calls|
  }

  ghost predicate StepAt(run: Run, k: nat)
    requires Shaped(run) && k < |run.turns|
  {
    run.states[k + 1] == Step(run.states[k], run.calls, run.turns[k])
  }

  /** A run of calls that all start now, on tables that satisfy the schema. */
  ghost predicate IsRun(run: Run) {
    && Shaped(run)
    && StoreInv(run.states[0].db) && (forall i :: 0 <= i < |run.calls| ==> run.states[0].phases[i].Start?)
    && forall k :: 0 <= k < |run.turns| ==> StepAt(run, k)
  }

  ghost function Final(run: Run): Store
    requires Shaped(run)
  {
    run.states[|run.turns|].db
  }

  function States(r: Race, calls: seq<PlayCall>, turns: seq<Turn>): (states: seq<Race>)
    requires |r.phases| == |calls|
    ensures |states| == |turns| + 1 && states[0] == r
    ensures forall k :: 0 <= k < |states| ==> |states[k].phases| == |calls|
    ensures forall k :: 0 <= k < |turns| ==> states[k + 1] == Step(states[k], calls, turns[k])
    decreases turns
  {
    if turns == [] then [r] else [r] + States(Step(r, calls, turns[0]), calls, turns[1..])
  }

  function Conduct(s: Store, calls: seq<PlayCall>, turns: seq<Turn>): Run {
    Run(calls, turns, States(Race(s, seq(|calls|, _ => Start)), calls, turns))
  }

  /** Every schedule over all calls is a run. */
  lemma EveryScheduleIsARun(s: Store, calls: seq<PlayCall>, turns: seq<Turn>)
    requires StoreInv(s)
    ensures IsRun(Conduct(s, calls, turns)) && Conduct(s, calls, turns).states[0].db == s
  {
  }

  predicate HasKey(c: PlayCall, userId: int, songId: string) { c.play.userId == userId && c.play.songId == songId }

  predicate SameKey(c: PlayCall, d: PlayCall) { HasKey(c, d.play.userId, d.play.songId) }

  /** Client `i` looks at turn `a`. */
  ghost predicate LooksAt(run: Run, a: nat, i: nat)
    requires Shaped(run)
  {
    a < |run.turns| && i < |run.calls| && run.turns[a] == Turn(i, true) && run.states[a].phases[i].Start?
  }

  /** Client `i` writes at turn `b` and reports success. */
  ghost predicate AddsAt(run: Run, b: nat, i: nat)
    requires Shaped(run)
  {
    && b < |run.turns| && i < |run.calls| && run.turns[b].client == i
    && run.states[b].phases[i].Looked? && run.states[b + 1].phases[i] == Finished(true)
  }

  /** It does so by inserting a row, having seen none. */
  ghost predicate InsertsAt(run: Run, b: nat, i: nat)
    requires Shaped(run)
  {
    AddsAt(run, b, i) && run.states[b].phases[i].found.None?
  }

  // ---------------------------------------------------------------------------------
  // What a look-up and a write do
  // ---------------------------------------------------------------------------------

  lemma LookIsCurrent(s: Store, play: PlayHistory)
    requires StoreInv(s)
    ensures match Look(s, play)
            case None => forall id :: !IsPlay(s, id, play.userId, play.songId)
            case Some(seen) => IsPlay(s, seen.id, play.userId, play.songId) && s.history[seen.id].count == seen.count
  {
  }

  lemma FailedWrite(s: Store, c: PlayCall, found: Option<Seen>)
    requires !Write(s, c, found).1
    ensures Write(s, c, found).0 == s
  {
    if found.Some? && found.value.id in s.history {
      assert Write(s, c, found).0.history == s.history;
    }
  }

  lemma Insertion(s: Store, c: PlayCall, userId: int, songId: string)
    requires StoreInv(s) && Write(s, c, None).1
    ensures var t, new_ := Write(s, c, None).0, s.nextHistory + c.skip;
            && new_ !in s.history && new_ in t.history && t.history[new_].count == 0
            && (forall id :: IsPlay(t, id, userId, songId) <==>
                  IsPlay(s, id, userId, songId) || (id == new_ && HasKey(c, userId, songId)))
            && (forall id :: id in s.history ==> id in t.history && t.history[id] == s.history[id])
  {
  }

  lemma CountingUp(s: Store, c: PlayCall, seen: Seen, userId: int, songId: string)
    requires StoreInv(s) && IsPlay(s, seen.id, c.play.userId, c.play.songId) && Write(s, c, Some(seen)).1
    ensures var t := Write(s, c, Some(seen)).0;
            && (forall id :: IsPlay(t, id, userId, songId) <==> IsPlay(s, id, userId, songId))
            && t.history.Keys == s.history.Keys && t.history[seen.id].count == Wrap32(seen.count + 1)
            && (forall id :: id in s.history && id != seen.id ==> t.history[id] == s.history[id])
  {
  }

  lemma WriteKeepsInv(s: Store, c: PlayCall, found: Option<Seen>)
    requires StoreInv(s)
    ensures StoreInv(Write(s, c, found).0)
  {
  }

  lemma WriteKeepsRow(s: Store, c: PlayCall, found: Option<Seen>, id: int, userId: int, songId: string)
    requires StoreInv(s) && IsPlay(s, id, userId, songId)
    ensures IsPlay(Write(s, c, found).0, id, userId, songId)
  {
  }

  lemma WriteFromNothing(s: Store, c: PlayCall, found: Option<Seen>, id: int, userId: int, songId: string)
    requires forall k :: !IsPlay(s, k, userId, songId)
    requires IsPlay(Write(s, c, found).0, id, userId, songId)
    ensures found.None? && HasKey(c, userId, songId) && Write(s, c, found).1
  {
    assert !IsPlay(s, id, userId, songId);
  }

  // ---------------------------------------------------------------------------------
  // Invariants of a run
  // ---------------------------------------------------------------------------------

  /** A row that somebody has seen is there, with the key it was sought by. */
  ghost predicate RaceInv(r: Race, calls: seq<PlayCall>) {
    && |r.phases| == |calls| && StoreInv(r.db)
    && (forall i :: 0 <= i < |calls| && r.phases[i].Looked? && r.phases[i].found.Some? ==>
          IsPlay(r.db, r.phases[i].found.value.id, calls[i].play.userId, calls[i].play.songId))
  }

  lemma StepKeepsInv(r: Race, calls: seq<PlayCall>, turn: Turn)
    requires RaceInv(r, calls)
    ensures RaceInv(Step(r, calls, turn), calls)
  {
    var i, r' := turn.client, Step(r, calls, turn);
    if i < |calls| && turn.through {
      if r.phases[i].Start? {
        LookIsCurrent(r.db, calls[i].play);
      } else if r.phases[i].Looked? {
        WriteKeepsInv(r.db, calls[i], r.phases[i].found);
        forall k | 0 <= k < |calls| && r'.phases[k].Looked? && r'.phases[k].found.Some?
          ensures IsPlay(r'.db, r'.phases[k].found.value.id, calls[k].play.userId, calls[k].play.songId)
        {
          WriteKeepsRow(r.db, calls[i], r.phases[i].found, r.phases[k].found.value.id,
                        calls[k].play.userId, calls[k].play.songId);
        }
      }
    }
  }

  lemma {:induction false} InvAlways(run: Run, n: nat)
    requires IsRun(run) && n <= |run.turns|
    ensures RaceInv(run.states[n], run.calls)
  {
    if n > 0 {
      InvAlways(run, n - 1);
      assert StepAt(run, n - 1);
      StepKeepsInv(run.states[n - 1], run.calls, run.turns[n - 1]);
    }
  }

  /** A turn either leaves the tables alone or is a write by its client. */
  lemma TurnOrWrite(run: Run, k: nat)
    requires IsRun(run) && k < |run.turns|
    ensures var i := run.turns[k].client;
            if AddsAt(run, k, i)
            then run.states[k + 1].db == Write(run.states[k].db, run.calls[i], run.states[k].phases[i].found).0
                 && Write(run.states[k].db, run.calls[i], run.states[k].phases[i].found).1
            else run.states[k + 1].db == run.states[k].db
  {
    var i, r := run.turns[k].client, run.states[k];
    assert StepAt(run, k);
    if i < |run.calls| && r.phases[i].Looked? && !Write(r.db, run.calls[i], r.phases[i].found).1 {
      FailedWrite(r.db, run.calls[i], r.phases[i].found);
    }
  }

  /** A client that has looked did so at one turn, has done nothing since, and still holds
      what it saw then. */
  lemma {:induction false} LookedSince(run: Run, n: nat, i: nat) returns (a: nat)
    requires IsRun(run) && n <= |run.turns| && i < |run.calls| && run.states[n].phases[i].Looked?
    ensures a < n && LooksAt(run, a, i)
    ensures run.states[n].phases[i] == Looked(Look(run.states[a].db, run.calls[i].play))
    ensures forall k :: a < k <= n ==> run.states[k].phases[i] == run.states[n].phases[i]
  {
    assert StepAt(run, n - 1);
    if run.states[n - 1].phases[i].Looked? {
      a := LookedSince(run, n - 1, i);
    } else {
      a := n - 1;
    }
  }

  /** What a client that adds holds: it looked at turn `a`, and writes from what it saw. */
  lemma View(run: Run, c: nat, i: nat) returns (a: nat)
    requires IsRun(run) && AddsAt(run, c, i)
    ensures a < c && LooksAt(run, a, i) && forall k :: a < k <= c ==> run.states[k].phases[i].Looked?
    ensures var sa, s, call := run.states[a].db, run.states[c].db, run.calls[i];
            var found := Look(sa, call.play);
            && StoreInv(sa) && StoreInv(s)
            && (found.Some? ==> IsPlay(s, found.value.id, call.play.userId, call.play.songId))
            && Write(s, call, found) == (run.states[c + 1].db, true)
  {
    a := LookedSince(run, c, i);
    InvAlways(run, a);
    InvAlways(run, c);
    TurnOrWrite(run, c);
  }

  lemma {:induction false} StartsOnce(run: Run, a: nat, n: nat, i: nat)
    requires IsRun(run) && a <= n <= |run.turns| && i < |run.calls| && !run.states[a].phases[i].Start?
    ensures !run.states[n].phases[i].Start?
  {
    if a < n {
      StartsOnce(run, a, n - 1, i);
      assert StepAt(run, n - 1);
    }
  }

  lemma LooksOnce(run: Run, a: nat, a': nat, i: nat)
    requires IsRun(run) && LooksAt(run, a, i) && LooksAt(run, a', i)
    ensures a == a'
  {
    assert StepAt(run, a) && StepAt(run, a');
    if a < a' {
      StartsOnce(run, a + 1, a', i);
    } else if a' < a {
      StartsOnce(run, a' + 1, a, i);
    }
  }

  // ---------------------------------------------------------------------------------
  // One row per user and song
  // ---------------------------------------------------------------------------------

  /** Client `i` looks and finds nothing, then `j` inserts the row, then `i` inserts it too. */
  ghost predicate Overtaken(run: Run, a: nat, b: nat, c: nat, i: nat, j: nat)
    requires Shaped(run)
  {
    && a < b < c && i != j
    && LooksAt(run, a, i) && InsertsAt(run, b, j) && InsertsAt(run, c, i)
    && SameKey(run.calls[i], run.calls[j])
  }

  ghost predicate SomebodyOvertaken(run: Run)
    requires Shaped(run)
  {
    exists a, b, c, i, j :: Overtaken(run, a, b, c, i, j)
  }

  lemma {:induction false} RowsStay(run: Run, a: nat, n: nat, id: int, userId: int, songId: string)
    requires IsRun(run) && a <= n <= |run.turns| && IsPlay(run.states[a].db, id, userId, songId)
    ensures IsPlay(run.states[n].db, id, userId, songId)
  {
    if a < n {
      RowsStay(run, a, n - 1, id, userId, songId);
      InvAlways(run, n - 1);
      TurnOrWrite(run, n - 1);
      var r, i := run.states[n - 1], run.turns[n - 1].client;
      if AddsAt(run, n - 1, i) {
        WriteKeepsRow(r.db, run.calls[i], r.phases[i].found, id, userId, songId);
      }
    }
  }

  /** A row that was not there at turn `a` has been inserted since. */
  lemma {:induction false} RowsAppear(run: Run, a: nat, n: nat, id: int, userId: int, songId: string)
    returns (b: nat, j: nat)
    requires IsRun(run) && a <= n <= |run.turns|
    requires forall k :: !IsPlay(run.states[a].db, k, userId, songId)
    requires IsPlay(run.states[n].db, id, userId, songId)
    ensures a <= b < n && InsertsAt(run, b, j) && HasKey(run.calls[j], userId, songId)
  {
    var r := run.states[n - 1];
    if k :| IsPlay(r.db, k, userId, songId) {
      b, j := RowsAppear(run, a, n - 1, k, userId, songId);
    } else {
      b, j := n - 1, run.turns[n - 1].client;
      TurnOrWrite(run, n - 1);
      WriteFromNothing(r.db, run.calls[j], r.phases[j].found, id, userId, songId);
    }
  }

  /** An insert adds a row of its key under a new id. */
  lemma InsertAddsRow(run: Run, b: nat, j: nat) returns (id: int)
    requires IsRun(run) && InsertsAt(run, b, j)
    ensures id !in run.states[b].db.history
    ensures IsPlay(run.states[b + 1].db, id, run.calls[j].play.userId, run.calls[j].play.songId)
  {
    InvAlways(run, b);
    TurnOrWrite(run, b);
    Insertion(run.states[b].db, run.calls[j], run.calls[j].play.userId, run.calls[j].play.songId);
    id := run.states[b].db.nextHistory + run.calls[j].skip;
  }

  lemma OvertakingMakesTwoRows(run: Run, a: nat, b: nat, c: nat, i: nat, j: nat)
    requires IsRun(run) && Overtaken(run, a, b, c, i, j)
    ensures !OneRowPerSong(Final(run))
  {
    var n, play := |run.turns|, run.calls[i].play;
    var first := InsertAddsRow(run, b, j);
    var second := InsertAddsRow(run, c, i);
    RowsStay(run, b + 1, c, first, play.userId, play.songId);
    RowsStay(run, b + 1, n, first, play.userId, play.songId);
    RowsStay(run, c + 1, n, second, play.userId, play.songId);
  }

  lemma TwoRowsStay(run: Run)
    requires IsRun(run) && !OneRowPerSong(run.states[0].db)
    ensures !OneRowPerSong(Final(run))
  {
    var s := run.states[0].db;
    var i, j :| i in s.history && j in s.history && i != j && s.history[i].userId == s.history[j].userId
                && s.history[i].songId == s.history[j].songId;
    RowsStay(run, 0, |run.turns|, i, s.history[i].userId, s.history[i].songId);
    RowsStay(run, 0, |run.turns|, j, s.history[i].userId, s.history[i].songId);
  }

  lemma OneMoreRow(s: Store, c: PlayCall)
    requires StoreInv(s) && OneRowPerSong(s) && forall id :: !IsPlay(s, id, c.play.userId, c.play.songId)
    ensures OneRowPerSong(Write(s, c, None).0)
  {
    assert forall id :: id in s.history ==> !IsPlay(s, id, c.play.userId, c.play.songId);
  }

  lemma CountingKeepsOneRow(s: Store, c: PlayCall, seen: Seen)
    requires OneRowPerSong(s)
    ensures OneRowPerSong(Write(s, c, Some(seen)).0)
  {
  }

  /** An insert that meets a row of its key was overtaken. */
  lemma RowMeansOvertaken(run: Run, c: nat, i: nat, id: int)
    requires IsRun(run) && InsertsAt(run, c, i)
    requires IsPlay(run.states[c].db, id, run.calls[i].play.userId, run.calls[i].play.songId)
    ensures exists a, b, j :: Overtaken(run, a, b, c, i, j)
  {
    var play := run.calls[i].play;
    var a := LookedSince(run, c, i);
    InvAlways(run, a);
    LookIsCurrent(run.states[a].db, play);
    var b, j := RowsAppear(run, a, c, id, play.userId, play.songId);
    assert Overtaken(run, a, b, c, i, j);
  }

  lemma {:induction false} NobodyOvertakenKeepsOneRow(run: Run, n: nat)
    requires IsRun(run) && OneRowPerSong(run.states[0].db) && !SomebodyOvertaken(run) && n <= |run.turns|
    ensures OneRowPerSong(run.states[n].db)
  {
    if n > 0 {
      NobodyOvertakenKeepsOneRow(run, n - 1);
      InvAlways(run, n - 1);
      TurnOrWrite(run, n - 1);
      var r, i := run.states[n - 1], run.turns[n - 1].client;
      if AddsAt(run, n - 1, i) {
        var c := run.calls[i];
        if r.phases[i].found.Some? {
          CountingKeepsOneRow(r.db, c, r.phases[i].found.value);
        } else {
          if id :| IsPlay(r.db, id, c.play.userId, c.play.songId) {
            RowMeansOvertaken(run, n - 1, i, id);
          }
          OneMoreRow(r.db, c);
        }
      }
    }
  }

  /** Whatever the calls and the schedule, the table has one row per user and song
      afterwards exactly when it had before and nobody was overtaken. */
  lemma OneRowIffNobodyOvertaken(run: Run)
    requires IsRun(run)
    ensures OneRowPerSong(Final(run)) <==> OneRowPerSong(run.states[0].db) && !SomebodyOvertaken(run)
  {
    if !OneRowPerSong(run.states[0].db) {
      TwoRowsStay(run);
    } else if a, b, c, i, j :| Overtaken(run, a, b, c, i, j) {
      OvertakingMakesTwoRows(run, a, b, c, i, j);
    } else {
      NobodyOvertakenKeepsOneRow(run, |run.turns|);
    }
  }

  // ---------------------------------------------------------------------------------
  // The play counter
  // ---------------------------------------------------------------------------------

  ghost predicate AddsSongAt(run: Run, k: nat, userId: int, songId: string)
    requires Shaped(run) && k < |run.turns|
  {
    var i := run.turns[k].client;
    AddsAt(run, k, i) && HasKey(run.calls[i], userId, songId)
  }

  /** The adds of (user, song) before turn `n` that reported success. */
  ghost function Adds(run: Run, n: nat, userId: int, songId: string): (adds: nat)
    requires Shaped(run) && n <= |run.turns|
    ensures adds <= n
  {
    if n == 0 then 0
    else Adds(run, n - 1, userId, songId) + if AddsSongAt(run, n - 1, userId, songId) then 1 else 0
  }

  /** Client `i` looks, then `j` adds the same song, then `i` adds it from what it saw. */
  ghost predicate StaleAdd(run: Run, a: nat, b: nat, c: nat, i: nat, j: nat, userId: int, songId: string)
    requires Shaped(run)
  {
    && a < b < c && i != j
    && LooksAt(run, a, i) && AddsAt(run, b, j) && AddsAt(run, c, i)
    && HasKey(run.calls[i], userId, songId) && HasKey(run.calls[j], userId, songId)
  }

  /** The add at turn `c` is stale. */
  ghost predicate StaleAt(run: Run, c: nat, userId: int, songId: string)
    requires Shaped(run)
  {
    exists a: nat, b: nat, i: nat, j: nat :: StaleAdd(run, a, b, c, i, j, userId, songId)
  }

  ghost predicate StaleBefore(run: Run, n: nat, userId: int, songId: string)
    requires Shaped(run)
  {
    exists c :: 0 <= c < n && StaleAt(run, c, userId, songId)
  }

  /** One row holding `adds` - 1, or none when there were no adds. */
  ghost predicate Exact(s: Store, userId: int, songId: string, adds: nat) {
    && (forall id, id' :: IsPlay(s, id, userId, songId) && IsPlay(s, id', userId, songId) ==> id == id')
    && (forall id :: IsPlay(s, id, userId, songId) ==> s.history[id].count + 1 == adds)
    && (adds > 0 ==> exists id :: IsPlay(s, id, userId, songId))
  }

  /** No row counts more than `adds` - 1, and there is a row once there was an add. */
  ghost predicate AtMost(s: Store, userId: int, songId: string, adds: nat) {
    && (forall id :: IsPlay(s, id, userId, songId) ==> 0 <= s.history[id].count < adds)
    && (adds > 0 ==> exists id :: IsPlay(s, id, userId, songId))
  }

  ghost predicate SameRows(s: Store, t: Store, userId: int, songId: string) {
    && (forall id :: IsPlay(s, id, userId, songId) <==> IsPlay(t, id, userId, songId))
    && (forall id :: IsPlay(s, id, userId, songId) ==> s.history[id] == t.history[id])
  }

  lemma {:induction false} AddsGrow(run: Run, a: nat, n: nat, userId: int, songId: string)
    requires Shaped(run) && a <= n <= |run.turns|
    ensures Adds(run, a, userId, songId) <= Adds(run, n, userId, songId)
  {
    if a < n {
      AddsGrow(run, a, n - 1, userId, songId);
    }
  }

  /** Adds that were not there at turn `a` were made since. */
  lemma {:induction false} AddedSince(run: Run, a: nat, n: nat, userId: int, songId: string) returns (b: nat)
    requires Shaped(run) && a <= n <= |run.turns|
    requires Adds(run, a, userId, songId) < Adds(run, n, userId, songId)
    ensures a <= b < n && AddsSongAt(run, b, userId, songId)
  {
    if AddsSongAt(run, n - 1, userId, songId) {
      b := n - 1;
    } else {
      b := AddedSince(run, a, n - 1, userId, songId);
    }
  }

  lemma OtherTurnKeepsRows(run: Run, k: nat, userId: int, songId: string)
    requires IsRun(run) && k < |run.turns| && !AddsSongAt(run, k, userId, songId)
    ensures SameRows(run.states[k].db, run.states[k + 1].db, userId, songId)
  {
    InvAlways(run, k);
    TurnOrWrite(run, k);
    var r, i := run.states[k], run.turns[k].client;
    if AddsAt(run, k, i) {
      if r.phases[i].found.None? {
        Insertion(r.db, run.calls[i], userId, songId);
      } else {
        CountingUp(r.db, run.calls[i], r.phases[i].found.value, userId, songId);
      }
    }
  }

  /** While nobody adds the song, its rows stay as they are. */
  lemma {:induction false} QuietWithoutAdds(run: Run, a: nat, n: nat, userId: int, songId: string)
    requires IsRun(run) && a <= n <= |run.turns|
    requires Adds(run, a, userId, songId) == Adds(run, n, userId, songId)
    ensures SameRows(run.states[a].db, run.states[n].db, userId, songId)
  {
    if a < n {
      AddsGrow(run, a, n - 1, userId, songId);
      QuietWithoutAdds(run, a, n - 1, userId, songId);
      OtherTurnKeepsRows(run, n - 1, userId, songId);
    }
  }

  /** `sa` is what the client saw, after `then_` adds, and `s` what it writes to, after `now`. */
  lemma AddStaysBelow(sa: Store, s: Store, c: PlayCall, then_: nat, now: nat)
    requires StoreInv(sa) && AtMost(sa, c.play.userId, c.play.songId, then_)
    requires StoreInv(s) && AtMost(s, c.play.userId, c.play.songId, now) && then_ <= now < INT_MAX
    requires Look(sa, c.play).Some? ==> IsPlay(s, Look(sa, c.play).value.id, c.play.userId, c.play.songId)
    requires Write(s, c, Look(sa, c.play)).1
    ensures AtMost(Write(s, c, Look(sa, c.play)).0, c.play.userId, c.play.songId, now + 1)
  {
    var found := Look(sa, c.play);
    var t := Write(s, c, found).0;
    LookIsCurrent(sa, c.play);
    if found.None? {
      Insertion(s, c, c.play.userId, c.play.songId);
      assert IsPlay(t, s.nextHistory + c.skip, c.play.userId, c.play.songId);
    } else {
      CountingUp(s, c, found.value, c.play.userId, c.play.songId);
      assert IsPlay(t, found.value.id, c.play.userId, c.play.songId);
    }
  }

  lemma SameRowsAtMost(s: Store, t: Store, userId: int, songId: string, adds: nat)
    requires SameRows(s, t, userId, songId) && AtMost(s, userId, songId, adds)
    ensures AtMost(t, userId, songId, adds)
  {
    if id :| IsPlay(s, id, userId, songId) {
      assert IsPlay(t, id, userId, songId);
    }
  }

  /** Interference only loses plays: no schedule makes a counter run ahead of the adds. */
  lemma {:induction false} NeverOvercounts(run: Run, n: nat, userId: int, songId: string, base: nat)
    requires IsRun(run) && n <= |run.turns| && base + |run.turns| <= INT_MAX
    requires AtMost(run.states[0].db, userId, songId, base)
    ensures AtMost(run.states[n].db, userId, songId, base + Adds(run, n, userId, songId))
  {
    if n > 0 {
      var c, i := n - 1, run.turns[n - 1].client;
      NeverOvercounts(run, c, userId, songId, base);
      if AddsSongAt(run, c, userId, songId) {
        var a := View(run, c, i);
        NeverOvercounts(run, a, userId, songId, base);
        AddsGrow(run, a, c, userId, songId);
        AddStaysBelow(run.states[a].db, run.states[c].db, run.calls[i],
                      base + Adds(run, a, userId, songId), base + Adds(run, c, userId, songId));
      } else {
        OtherTurnKeepsRows(run, c, userId, songId);
        SameRowsAtMost(run.states[c].db, run.states[n].db, userId, songId, base + Adds(run, c, userId, songId));
      }
    }
  }

  lemma FreshAddCounts(s: Store, c: PlayCall, found: Option<Seen>, adds: nat)
    requires StoreInv(s) && AtMost(s, c.play.userId, c.play.songId, adds) && adds < INT_MAX
    requires match found
             case None => forall id :: !IsPlay(s, id, c.play.userId, c.play.songId)
             case Some(seen) =>
               IsPlay(s, seen.id, c.play.userId, c.play.songId) && s.history[seen.id].count == seen.count
    requires Write(s, c, found).1
    ensures Exact(Write(s, c, found).0, c.play.userId, c.play.songId, adds + 1)
            <==> Exact(s, c.play.userId, c.play.songId, adds)
  {
    var t, userId, songId := Write(s, c, found).0, c.play.userId, c.play.songId;
    if found.None? {
      Insertion(s, c, userId, songId);
      assert IsPlay(t, s.nextHistory + c.skip, userId, songId);
    } else {
      CountingUp(s, c, found.value, userId, songId);
      if Exact(s, userId, songId, adds) {
        assert forall id :: IsPlay(t, id, userId, songId) ==> id == found.value.id;
      }
      if Exact(t, userId, songId, adds + 1) {
        assert forall id :: IsPlay(s, id, userId, songId) ==> IsPlay(t, id, userId, songId);
        assert IsPlay(t, found.value.id, userId, songId);
      }
    }
  }

  lemma StaleAddMiscounts(s: Store, c: PlayCall, found: Option<Seen>, then_: nat, adds: nat)
    requires StoreInv(s) && AtMost(s, c.play.userId, c.play.songId, adds) && then_ < adds < INT_MAX
    requires found.Some? ==> IsPlay(s, found.value.id, c.play.userId, c.play.songId) && 0 <= found.value.count < then_
    requires Write(s, c, found).1
    ensures !Exact(Write(s, c, found).0, c.play.userId, c.play.songId, adds + 1)
  {
    if found.None? {
      Insertion(s, c, c.play.userId, c.play.songId);
    } else {
      CountingUp(s, c, found.value, c.play.userId, c.play.songId);
    }
  }

  /** `sa` is what the client saw, after `then_` adds, and `s` what it writes to, after `now`. */
  lemma ExactAfterAdd(sa: Store, s: Store, c: PlayCall, then_: nat, now: nat)
    requires StoreInv(sa) && AtMost(sa, c.play.userId, c.play.songId, then_)
    requires StoreInv(s) && AtMost(s, c.play.userId, c.play.songId, now) && then_ <= now < INT_MAX
    requires then_ == now ==> SameRows(sa, s, c.play.userId, c.play.songId)
    requires Look(sa, c.play).Some? ==> IsPlay(s, Look(sa, c.play).value.id, c.play.userId, c.play.songId)
    requires Write(s, c, Look(sa, c.play)).1
    ensures Exact(Write(s, c, Look(sa, c.play)).0, c.play.userId, c.play.songId, now + 1)
            <==> Exact(s, c.play.userId, c.play.songId, now) && then_ == now
  {
    LookIsCurrent(sa, c.play);
    if then_ == now {
      FreshAddCounts(s, c, Look(sa, c.play), now);
    } else {
      StaleAddMiscounts(s, c, Look(sa, c.play), then_, now);
    }
  }

  lemma AddedSinceIsStale(run: Run, a: nat, c: nat, i: nat)
    requires IsRun(run) && a < c && LooksAt(run, a, i) && AddsAt(run, c, i)
    requires forall k :: a < k <= c ==> run.states[k].phases[i].Looked?
    requires Adds(run, a, run.calls[i].play.userId, run.calls[i].play.songId)
             < Adds(run, c, run.calls[i].play.userId, run.calls[i].play.songId)
    ensures StaleAt(run, c, run.calls[i].play.userId, run.calls[i].play.songId)
  {
    var play := run.calls[i].play;
    var b := AddedSince(run, a, c, play.userId, play.songId);
    assert StaleAdd(run, a, b, c, i, run.turns[b].client, play.userId, play.songId);
  }

  lemma StaleIsAddedSince(run: Run, a: nat, a': nat, b: nat, c: nat, i: nat, j: nat, userId: int, songId: string)
    requires IsRun(run) && LooksAt(run, a, i) && StaleAdd(run, a', b, c, i, j, userId, songId)
    ensures a < c && Adds(run, a, userId, songId) < Adds(run, c, userId, songId)
  {
    LooksOnce(run, a, a', i);
    AddsGrow(run, a, b, userId, songId);
    assert AddsSongAt(run, b, userId, songId);
    AddsGrow(run, b + 1, c, userId, songId);
  }

  /** An add is stale exactly when the song was added since its client looked. */
  lemma StaleIffAddedSince(run: Run, a: nat, c: nat, i: nat)
    requires IsRun(run) && a < c && LooksAt(run, a, i) && AddsAt(run, c, i)
    requires forall k :: a < k <= c ==> run.states[k].phases[i].Looked?
    ensures var play := run.calls[i].play;
            StaleAt(run, c, play.userId, play.songId)
            <==> Adds(run, a, play.userId, play.songId) < Adds(run, c, play.userId, play.songId)
  {
    var play := run.calls[i].play;
    if Adds(run, a, play.userId, play.songId) < Adds(run, c, play.userId, play.songId) {
      AddedSinceIsStale(run, a, c, i);
    } else if a': nat, b: nat, i': nat, j: nat :| StaleAdd(run, a', b, c, i', j, play.userId, play.songId) {
      StaleIsAddedSince(run, a, a', b, c, i, j, play.userId, play.songId);
    }
  }

  /** What an adding client saw at turn `a`, in numbers. */
  lemma ViewInNumbers(run: Run, c: nat, i: nat, base: nat) returns (a: nat, then_: nat, now: nat)
    requires IsRun(run) && AddsAt(run, c, i) && base + |run.turns| <= INT_MAX
    requires AtMost(run.states[0].db, run.calls[i].play.userId, run.calls[i].play.songId, base)
    ensures a < c && then_ <= now < INT_MAX
    ensures var play := run.calls[i].play;
            && now == base + Adds(run, c, play.userId, play.songId)
            && (StaleAt(run, c, play.userId, play.songId) <==> then_ < now)
    ensures var sa, s, play := run.states[a].db, run.states[c].db, run.calls[i].play;
            && StoreInv(sa) && AtMost(sa, play.userId, play.songId, then_)
            && StoreInv(s) && AtMost(s, play.userId, play.songId, now)
            && (then_ == now ==> SameRows(sa, s, play.userId, play.songId))
            && (Look(sa, play).Some? ==> IsPlay(s, Look(sa, play).value.id, play.userId, play.songId))
            && Write(s, run.calls[i], Look(sa, play)) == (run.states[c + 1].db, true)
  {
    var play := run.calls[i].play;
    a := View(run, c, i);
    then_, now := base + Adds(run, a, play.userId, play.songId), base + Adds(run, c, play.userId, play.songId);
    StaleIffAddedSince(run, a, c, i);
    NeverOvercounts(run, a, play.userId, play.songId, base);
    NeverOvercounts(run, c, play.userId, play.songId, base);
    AddsGrow(run, a, c, play.userId, play.songId);
    if then_ == now {
      QuietWithoutAdds(run, a, c, play.userId, play.songId);
    }
  }

  lemma AddTurn(run: Run, c: nat, i: nat, base: nat)
    requires IsRun(run) && AddsAt(run, c, i) && base + |run.turns| <= INT_MAX
    requires AtMost(run.states[0].db, run.calls[i].play.userId, run.calls[i].play.songId, base)
    ensures var play := run.calls[i].play;
            var adds := base + Adds(run, c, play.userId, play.songId);
            Exact(run.states[c + 1].db, play.userId, play.songId, adds + 1) <==>
              && Exact(run.states[c].db, play.userId, play.songId, adds)
              && !StaleAt(run, c, play.userId, play.songId)
  {
    var a, then_, now := ViewInNumbers(run, c, i, base);
    ExactAfterAdd(run.states[a].db, run.states[c].db, run.calls[i], then_, now);
  }

  lemma SameRowsExact(s: Store, t: Store, userId: int, songId: string, adds: nat)
    requires SameRows(s, t, userId, songId)
    ensures Exact(s, userId, songId, adds) <==> Exact(t, userId, songId, adds)
  {
    if id :| IsPlay(s, id, userId, songId) {
      assert IsPlay(t, id, userId, songId);
    }
  }

  lemma StaleOrBefore(run: Run, c: nat, userId: int, songId: string)
    requires Shaped(run) && c < |run.turns|
    ensures StaleBefore(run, c + 1, userId, songId) <==>
              || StaleBefore(run, c, userId, songId)
              || (AddsSongAt(run, c, userId, songId) && StaleAt(run, c, userId, songId))
  {
    if d :| 0 <= d < c && StaleAt(run, d, userId, songId) {
      assert StaleBefore(run, c + 1, userId, songId);
    }
  }

  ghost predicate ExactIffNotStale(run: Run, n: nat, userId: int, songId: string, base: nat)
    requires Shaped(run) && n <= |run.turns|
  {
    Exact(run.states[n].db, userId, songId, base + Adds(run, n, userId, songId))
    <==> !StaleBefore(run, n, userId, songId)
  }

  lemma OtherTurnCounts(run: Run, c: nat, userId: int, songId: string, base: nat)
    requires IsRun(run) && c < |run.turns| && !AddsSongAt(run, c, userId, songId)
    requires ExactIffNotStale(run, c, userId, songId, base)
    ensures ExactIffNotStale(run, c + 1, userId, songId, base)
  {
    OtherTurnKeepsRows(run, c, userId, songId);
    SameRowsExact(run.states[c].db, run.states[c + 1].db, userId, songId, base + Adds(run, c, userId, songId));
    StaleOrBefore(run, c, userId, songId);
  }

  lemma AddTurnCounts(run: Run, c: nat, userId: int, songId: string, base: nat)
    requires IsRun(run) && c < |run.turns| && AddsSongAt(run, c, userId, songId) && base + |run.turns| <= INT_MAX
    requires AtMost(run.states[0].db, userId, songId, base) && ExactIffNotStale(run, c, userId, songId, base)
    ensures ExactIffNotStale(run, c + 1, userId, songId, base)
  {
    AddTurn(run, c, run.turns[c].client, base);
    StaleOrBefore(run, c, userId, songId);
  }

  lemma {:induction false} CountsAlong(run: Run, n: nat, userId: int, songId: string, base: nat)
    requires IsRun(run) && n <= |run.turns| && base + |run.turns| <= INT_MAX
    requires AtMost(run.states[0].db, userId, songId, base) && ExactIffNotStale(run, 0, userId, songId, base)
    ensures ExactIffNotStale(run, n, userId, songId, base)
  {
    if n > 0 {
      CountsAlong(run, n - 1, userId, songId, base);
      if AddsSongAt(run, n - 1, userId, songId) {
        AddTurnCounts(run, n - 1, userId, songId, base);
      } else {
        OtherTurnCounts(run, n - 1, userId, songId, base);
      }
    }
  }

  /** Whatever the calls and the schedule, the counter of a song plus one is the number of
      its successful adds exactly when none of them wrote from a stale look-up. */
  lemma CounterExactIffNoStaleAdd(run: Run, n: nat, userId: int, songId: string, base: nat)
    requires IsRun(run) && n <= |run.turns| && base + |run.turns| <= INT_MAX
    requires Exact(run.states[0].db, userId, songId, base) && AtMost(run.states[0].db, userId, songId, base)
    ensures Exact(run.states[n].db, userId, songId, base + Adds(run, n, userId, songId))
            <==> !StaleBefore(run, n, userId, songId)
  {
    assert ExactIffNotStale(run, 0, userId, songId, base);
    CountsAlong(run, n, userId, songId, base);
  }

  // ---------------------------------------------------------------------------------
  // Both failures happen
  // ---------------------------------------------------------------------------------

  function Schedule(clients: seq<nat>): seq<Turn> {
    seq(|clients|, k requires 0 <= k < |clients| => Turn(clients[k], true))
  }

  lemma LookTurn(run: Run, k: nat, i: nat)
    requires IsRun(run) && k < |run.turns| && run.turns[k] == Turn(i, true)
    requires i < |run.calls| && run.states[k].phases[i].Start?
    ensures var r := run.states[k];
            run.states[k + 1] == r.(phases := r.phases[i := Looked(Look(r.db, run.calls[i].play))])
  {
    assert StepAt(run, k);
  }

  lemma WriteTurn(run: Run, k: nat, i: nat)
    requires IsRun(run) && k < |run.turns| && run.turns[k] == Turn(i, true)
    requires i < |run.calls| && run.states[k].phases[i].Looked?
    ensures var r := run.states[k];
            var (t, ok) := Write(r.db, run.calls[i], r.phases[i].found);
            run.states[k + 1] == Race(t, r.phases[i := Finished(ok)])
  {
    assert StepAt(run, k);
  }

  lemma CanInsertTwice(s: Store, c: PlayCall)
    requires c.play.userId in s.users && PlayFits(NewRow(c.play, c.now)) && s.nextHistory + 2 * c.skip < INT_MAX
    ensures Write(s, c, None).1 && Write(Write(s, c, None).0, c, None).1
  {
  }

  /** Two first plays of a song that both look before either writes leave two rows. */
  lemma TwoRowsWhenBothLookFirst(s: Store, c: PlayCall)
    requires StoreInv(s) && Look(s, c.play) == None
    requires c.play.userId in s.users && PlayFits(NewRow(c.play, c.now)) && s.nextHistory + 2 * c.skip < INT_MAX
    ensures !OneRowPerSong(Final(Conduct(s, [c, c], Schedule([0, 1, 0, 1]))))
  {
    var run := Conduct(s, [c, c], Schedule([0, 1, 0, 1]));
    EveryScheduleIsARun(s, [c, c], run.turns);
    CanInsertTwice(s, c);
    LookTurn(run, 0, 0);
    LookTurn(run, 1, 1);
    WriteTurn(run, 2, 0);
    WriteTurn(run, 3, 1);
    OvertakingMakesTwoRows(run, 1, 2, 3, 1, 0);
  }

  /** One after the other they leave one, as long as there was no more than one before. */
  lemma OneRowInTurn(s: Store, c: PlayCall)
    requires StoreInv(s) && OneRowPerSong(s)
    ensures OneRowPerSong(Final(Conduct(s, [c, c], Schedule([0, 0, 1, 1]))))
  {
    var run := Conduct(s, [c, c], Schedule([0, 0, 1, 1]));
    EveryScheduleIsARun(s, [c, c], run.turns);
    LookTurn(run, 0, 0);
    WriteTurn(run, 1, 0);
    if a, b, d, i, j :| Overtaken(run, a, b, d, i, j) {
      assert false;
    }
    OneRowIffNobodyOvertaken(run);
  }

  function WithCount(s: Store, id: int, count: int): Store
    requires id in s.history
  {
    s.(history := s.history[id := s.history[id].(count := count)])
  }

  lemma WriteCount(s: Store, c: PlayCall, id: int, n: int, m: int)
    requires id in s.history && 0 <= n < INT_MAX
    ensures Write(WithCount(s, id, m), c, Some(Seen(id, n))) == (WithCount(s, id, n + 1), m != n + 1)
  {
    assert WithCount(WithCount(s, id, m), id, n + 1) == WithCount(s, id, n + 1);
  }

  lemma OnlyRow(s: Store, c: PlayCall, adds: nat, id: int, m: nat)
    requires StoreInv(s) && Exact(s, c.play.userId, c.play.songId, adds) && IsPlay(s, id, c.play.userId, c.play.songId)
    ensures Look(WithCount(s, id, m), c.play) == Some(Seen(id, m))
    ensures Exact(WithCount(s, id, m), c.play.userId, c.play.songId, m + 1)
    ensures s == WithCount(s, id, adds - 1)
  {
    var t := WithCount(s, id, m);
    assert forall k :: IsPlay(t, k, c.play.userId, c.play.songId) <==> IsPlay(s, k, c.play.userId, c.play.songId);
    LookIsCurrent(t, c.play);
  }

  lemma SeeTurn(run: Run, k: nat, i: nat, s: Store, adds: nat, id: int, m: nat)
    requires IsRun(run) && k < |run.turns| && run.turns[k] == Turn(i, true)
    requires i < |run.calls| && run.states[k].phases[i].Start?
    requires StoreInv(s) && Exact(s, run.calls[i].play.userId, run.calls[i].play.songId, adds)
    requires IsPlay(s, id, run.calls[i].play.userId, run.calls[i].play.songId)
    requires run.states[k].db == WithCount(s, id, m)
    ensures run.states[k + 1] == Race(WithCount(s, id, m), run.states[k].phases[i := Looked(Some(Seen(id, m)))])
  {
    LookTurn(run, k, i);
    OnlyRow(s, run.calls[i], adds, id, m);
  }

  lemma CountTurn(run: Run, k: nat, i: nat, s: Store, id: int, n: nat, m: nat)
    requires IsRun(run) && k < |run.turns| && run.turns[k] == Turn(i, true)
    requires i < |run.calls| && run.states[k].phases[i] == Looked(Some(Seen(id, n)))
    requires id in s.history && n < INT_MAX && run.states[k].db == WithCount(s, id, m)
    ensures run.states[k + 1] == Race(WithCount(s, id, n + 1), run.states[k].phases[i := Finished(m != n + 1)])
  {
    WriteTurn(run, k, i);
    WriteCount(s, run.calls[i], id, n, m);
  }

  ghost predicate ThreeAtOnce(run: Run, s: Store, c: PlayCall, adds: nat, id: int) {
    && IsRun(run) && run.calls == [c, c, c] && run.turns == Schedule([0, 1, 1, 2, 2, 0])
    && StoreInv(s) && Exact(s, c.play.userId, c.play.songId, adds) && 0 < adds < INT_MAX - 2
    && IsPlay(s, id, c.play.userId, c.play.songId)
  }

  lemma FirstHalf(run: Run, s: Store, c: PlayCall, adds: nat, id: int)
    requires ThreeAtOnce(run, s, c, adds, id)
    requires run.states[0] == Race(WithCount(s, id, adds - 1), [Start, Start, Start])
    ensures run.states[3] == Race(WithCount(s, id, adds), [Looked(Some(Seen(id, adds - 1))), Finished(true), Start])
  {
    SeeTurn(run, 0, 0, s, adds, id, adds - 1);
    SeeTurn(run, 1, 1, s, adds, id, adds - 1);
    CountTurn(run, 2, 1, s, id, adds - 1, adds - 1);
  }

  lemma SecondHalf(run: Run, s: Store, c: PlayCall, adds: nat, id: int)
    requires ThreeAtOnce(run, s, c, adds, id)
    requires run.states[3] == Race(WithCount(s, id, adds), [Looked(Some(Seen(id, adds - 1))), Finished(true), Start])
    ensures run.states[5].db == WithCount(s, id, adds + 1)
    ensures run.states[6] == Race(WithCount(s, id, adds), [Finished(true), Finished(true), Finished(true)])
  {
    SeeTurn(run, 3, 2, s, adds, id, adds);
    CountTurn(run, 4, 2, s, id, adds, adds);
    CountTurn(run, 5, 0, s, id, adds - 1, adds + 1);
  }

  /** With one row and nobody inserting: client 0 writes from what it saw before the plays of
      1 and 2 were counted. All three report success, and the counter moved by one. */
  lemma StaleWriteLowersCounter(s: Store, c: PlayCall, adds: nat)
    requires StoreInv(s) && Exact(s, c.play.userId, c.play.songId, adds) && 0 < adds < INT_MAX - 2
    ensures var run := Conduct(s, [c, c, c], Schedule([0, 1, 1, 2, 2, 0]));
            && run.states[6].phases == [Finished(true), Finished(true), Finished(true)]
            && Exact(run.states[5].db, c.play.userId, c.play.songId, adds + 2)
            && Exact(run.states[6].db, c.play.userId, c.play.songId, adds + 1)
  {
    var run := Conduct(s, [c, c, c], Schedule([0, 1, 1, 2, 2, 0]));
    EveryScheduleIsARun(s, [c, c, c], run.turns);
    var id := OneRowId(s, c.play, adds);
    OnlyRow(s, c, adds, id, adds - 1);
    assert ThreeAtOnce(run, s, c, adds, id);
    FirstHalf(run, s, c, adds, id);
    SecondHalf(run, s, c, adds, id);
    OnlyRow(s, c, adds, id, adds);
    OnlyRow(s, c, adds, id, adds + 1);
  }

  lemma OneRowId(s: Store, play: PlayHistory, adds: nat) returns (id: int)
    requires Exact(s, play.userId, play.songId, adds) && adds > 0
    ensures IsPlay(s, id, play.userId, play.songId)
  {
    id :| IsPlay(s, id, play.userId, play.songId);
  }
}
