/** The server the DAOs talk to, and what can go wrong on the way. */
module Database {
  import opened Schema
  import opened Wrappers

  /** How one DAO call fares: whether the pool gave it a connection (a timed-out wait
      gives none, and the call fails), and whether its first and second statement get
      through or throw before they take effect. */
  datatype Net = Net(connected: bool, first: bool, second: bool)

  /** In a schedule of several clients' statements: whose statement is next, and whether it
      gets through. */
  datatype Turn = Turn(client: nat, through: bool)

  class SqlServer {
    var tables: Store

    ghost predicate Valid()
      reads this
    {
      StoreInv(tables)
    }

    constructor ()
      ensures Valid() && tables == EMPTY
    {
      tables := EMPTY;
    }

    method Execute(q: Statement) returns (reply: Reply)
      requires Valid()
      modifies this
      ensures Valid()
      ensures reply == Exec(old(tables), q) && tables == After(old(tables), q)
    {
      reply := Exec(tables, q);
      StatementKeepsInv(tables, q);
      if reply.Done? {
        tables := reply.store;
      }
    }
  }
}
