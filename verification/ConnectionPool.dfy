/**
 The connection pool of src/database/DBManager.{h,cpp} as a sequential object:
 the FIFO deque, its constructor loop, take, release and the RAII guard.
 How threads interleave on it is the subject of module PoolProtocol.
 */
module ConnectionPool {
  import opened Arithmetic
  import opened Wrappers

  /** A connection, named by the number of the constructor's attempt that opened it. */
  type Conn = nat

  class DBManager {
    var connections: seq<Conn>

    /** `opens(k)` says whether attempt `k` connects and selects the schema; the first
        failure is an exception that ends the loop and keeps what was pooled before it. */
    constructor (poolSize: nat, opens: nat -> bool)
      ensures |connections| <= poolSize
      ensures forall k :: 0 <= k < |connections| ==> connections[k] == k && opens(k)
      ensures |connections| < poolSize ==> !opens(|connections|)
    {
      connections := [];
      new;
      var i := 0;
      while i < poolSize
        invariant i == |connections| <= poolSize
        invariant forall k :: 0 <= k < i ==> connections[k] == k && opens(k)
      {
        if !opens(i) {
          break;
        }
        connections := connections + [i];
        i := i + 1;
      }
    }

    /** `returned` is what other threads push back while this one waits, if it waits;
        it is empty when the wait times out. The reconnect attempt cannot change the
        result: its exceptions are caught and the connection is returned either way. */
    method GetConnection(returned: seq<Conn>) returns (conn: Option<Conn>)
      modifies this
      ensures var seen := if old(connections) == [] then returned else old(connections);
              if seen == [] then conn == None && connections == []
              else conn == Some(seen[0]) && connections == seen[1..]
    {
      if connections == [] {
        connections := returned;
      }
      if connections == [] {
        return None;
      }
      conn := Some(connections[0]);
      connections := connections[1..];
    }

    method ReleaseConnection(conn: Conn)
      modifies this
      ensures connections == old(connections) + [conn]
    {
      connections := connections + [conn];
    }
  }

  /** RAII wrapper: what it was given is given back by its destructor, once. */
  class SqlConnGuard {
    const conn: Option<Conn>
    ghost var live: bool

    constructor (conn: Option<Conn>)
      ensures this.conn == conn && live
    {
      this.conn, live := conn, true;
    }

    method Destroy(pool: DBManager)
      requires live
      modifies pool, this
      ensures !live
      ensures pool.connections == old(pool.connections) + (if conn.Some? then [conn.value] else [])
    {
      live := false;
      if conn.Some? {
        pool.ReleaseConnection(conn.value);
      }
    }
  }

  // ---------------------------------------------------------------------------------
  // FIFO rotation
  // ---------------------------------------------------------------------------------

  /** The deque after one acquire/release cycle. */
  function Rotated(deque: seq<Conn>): seq<Conn> {
    if deque == [] then [] else deque[1..] + [deque[0]]
  }

  function AfterCycles(deque: seq<Conn>, k: nat): seq<Conn> {
    if k == 0 then deque else Rotated(AfterCycles(deque, k - 1))
  }

  /** The connections handed out by `k` cycles, in order. */
  function Served(deque: seq<Conn>, k: nat): seq<Conn>
    requires deque != []
  {
    if k == 0 then [] else Served(deque, k - 1) + RotatedFront(deque, k - 1)
  }

  function RotatedFront(deque: seq<Conn>, k: nat): seq<Conn> {
    if AfterCycles(deque, k) == [] then [] else [AfterCycles(deque, k)[0]]
  }

  /** `k` DAO calls in a row on an otherwise idle pool. */
  method UseInTurn(pool: DBManager, k: nat) returns (used: seq<Conn>)
    requires pool.connections != []
    modifies pool
    ensures pool.connections == AfterCycles(old(pool.connections), k)
    ensures used == Served(old(pool.connections), k)
  {
    used := [];
    ghost var start := pool.connections;
    for i := 0 to k
      invariant pool.connections == AfterCycles(start, i)
      invariant |pool.connections| == |start|
      invariant used == Served(start, i)
    {
      var conn := pool.GetConnection([]);
      var guard := new SqlConnGuard(conn);
      used := used + [conn.value];
      guard.Destroy(pool);
    }
  }

  /** After `k` cycles the deque is the initial one rotated by `k mod n`. */
  lemma RotationByModulus(deque: seq<Conn>, k: nat)
    requires deque != []
    ensures AfterCycles(deque, k) == RotatedBy(deque, k % |deque|)
  {
    RotationByPhase(deque, k);
    PhaseIsModulus(k, |deque|);
  }

  /** Where a counter that wraps at `n` stands after `k` increments. */
  function Phase(k: nat, n: nat): (m: nat)
    requires n > 0
    ensures m < n
  {
    if k == 0 || Phase(k - 1, n) == n - 1 then 0 else Phase(k - 1, n) + 1
  }

  lemma {:induction false} PhaseIsModulus(k: nat, n: nat)
    requires n > 0
    ensures Phase(k, n) == k % n
  {
    if k == 0 {
      SmallRemainder(0, n);
    } else {
      PhaseIsModulus(k - 1, n);
      ModuloSuccessor(k - 1, n);
    }
  }

  lemma {:induction false} RotationByPhase(deque: seq<Conn>, k: nat)
    requires deque != []
    ensures AfterCycles(deque, k) == RotatedBy(deque, Phase(k, |deque|))
  {
    if k == 0 {
      assert RotatedBy(deque, 0) == deque;
    } else {
      RotationByPhase(deque, k - 1);
      RotateOnce(deque, Phase(k - 1, |deque|));
    }
  }

  function RotatedBy(deque: seq<Conn>, m: nat): seq<Conn>
    requires m <= |deque|
  {
    deque[m..] + deque[..m]
  }

  lemma RotateOnce(deque: seq<Conn>, m: nat)
    requires m < |deque|
    ensures Rotated(RotatedBy(deque, m)) == RotatedBy(deque, if m == |deque| - 1 then 0 else m + 1)
  {
  }

  /** Cycle `i` is served connection `i mod n` of the initial deque. */
  lemma {:induction false} ServedByModulus(deque: seq<Conn>, k: nat)
    requires deque != []
    ensures |Served(deque, k)| == k
    ensures forall i :: 0 <= i < k ==> Served(deque, k)[i] == deque[i % |deque|]
  {
    if k > 0 {
      ServedByModulus(deque, k - 1);
      RotationByModulus(deque, k - 1);
    }
  }

  /** Whatever went before, `n` consecutive cycles use each of the `n` connections once. */
  lemma EveryConnectionOnce(deque: seq<Conn>, k: nat)
    requires deque != []
    ensures var later := AfterCycles(deque, k);
            && later != []
            && multiset(Served(later, |deque|)) == multiset(deque)
  {
    RotationByModulus(deque, k);
    SameConnections(deque, k % |deque|);
    ServedInOrder(AfterCycles(deque, k));
  }

  lemma SameConnections(deque: seq<Conn>, m: nat)
    requires m <= |deque|
    ensures |RotatedBy(deque, m)| == |deque| && multiset(RotatedBy(deque, m)) == multiset(deque)
  {
    assert deque == deque[..m] + deque[m..];
  }

  lemma ServedInOrder(deque: seq<Conn>)
    requires deque != []
    ensures Served(deque, |deque|) == deque
  {
    ServedByModulus(deque, |deque|);
    forall i | 0 <= i < |deque| ensures Served(deque, |deque|)[i] == deque[i] {
      SmallRemainder(i, |deque|);
    }
  }
}
