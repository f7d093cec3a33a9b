/** src/database/UserDAO.{h,cpp}. */
module UserDAO {
  import opened Database
  import opened PasswordUtil
  import opened Schema
  import opened Wrappers

  /** src/models/user.h without its time stamps. */
  datatype User = User(id: int, username: string, passwdHash: string, email: string,
                       qqId: string, neteaseId: string)

  function BuildFromResultSet(id: int, row: UserRow): User {
    User(id, row.username, row.passwdHash, row.email, FromColumn(row.qqId), FromColumn(row.neteaseId))
  }

  /** The account a user name belongs to; unique by the schema. */
  ghost function AccountNamed(s: Store, username: string): Option<int> {
    if NameTaken(s, username, 0) then
      var id :| id in s.users && id != 0 && s.users[id].username == username;
      Some(id)
    else None
  }

  lemma AccountNamedIs(s: Store, id: int)
    requires StoreInv(s) && id in s.users
    ensures AccountNamed(s, s.users[id].username) == Some(id)
  {
    assert NameTaken(s, s.users[id].username, 0);
  }

  class UserDAO {
    const db: SqlServer

    constructor (db: SqlServer)
      ensures this.db == db
    {
      this.db := db;
    }

    /** The plain password arrives in `user.passwdHash`; the new id leaves in `created`.
        When only the id cannot be read back, the row exists although the call fails. */
    method CreateUser(digest: string -> Digest, user: User, skip: nat, net: Net) returns (ok: bool, created: User)
      requires db.Valid()
      modifies db
      ensures db.Valid()
      ensures var q := InsertUser(user.username, HashPassword(digest, user.passwdHash), user.email, skip);
              && db.tables == (if net.connected && net.first then After(old(db.tables), q) else old(db.tables))
              && ok == (net.connected && net.first && net.second && Exec(old(db.tables), q).Done?)
      ensures ok ==> created.id !in old(db.tables).users && created.id in db.tables.users
                     && created == user.(id := created.id)
      ensures ok ==> (db.tables.users[created.id] ==
                      UserRow(user.username, HashPassword(digest, user.passwdHash), user.email, None, None))
      ensures !ok ==> created == user
    {
      created := user;
      var hashed := HashPassword(digest, user.passwdHash);
      if !net.connected || !net.first {
        return false, created;
      }
      var reply := db.Execute(InsertUser(user.username, hashed, user.email, skip));
      if reply.SqlError? || !net.second {
        return false, created;
      }
      created := created.(id := reply.lastId);
      return true, created;
    }

    method GetUserById(id: int, net: Net) returns (user: Option<User>)
      ensures user == if net.connected && net.first && id in db.tables.users
                      then Some(BuildFromResultSet(id, db.tables.users[id])) else None
    {
      if !net.connected || !net.first || id !in db.tables.users {
        return None;
      }
      return Some(BuildFromResultSet(id, db.tables.users[id]));
    }

    /** A failed look-up is indistinguishable from an unknown name. */
    method GetUserByUsername(username: string, net: Net) returns (user: Option<User>)
      requires db.Valid()
      ensures user == if net.connected && net.first && AccountNamed(db.tables, username).Some?
                      then Some(BuildFromResultSet(AccountNamed(db.tables, username).value,
                                                   db.tables.users[AccountNamed(db.tables, username).value]))
                      else None
    {
      if !net.connected || !net.first {
        return None;
      }
      if id :| id in db.tables.users && db.tables.users[id].username == username {
        AccountNamedIs(db.tables, id);
        return Some(BuildFromResultSet(id, db.tables.users[id]));
      }
      return None;
    }

    method UpdateUser(user: User, net: Net) returns (ok: bool)
      requires db.Valid()
      modifies db
      ensures db.Valid()
      ensures !(net.connected && net.first) ==> !ok && db.tables == old(db.tables)
      ensures net.connected && net.first ==>
                db.tables == After(old(db.tables), Statement.UpdateUser(user.id, user.username, user.email,
                                                                        ToColumn(user.qqId), ToColumn(user.neteaseId)))
      ensures ok == (db.tables != old(db.tables))
      ensures ok ==> (BuildFromResultSet(user.id, db.tables.users[user.id]) ==
                      user.(passwdHash := old(db.tables).users[user.id].passwdHash))
    {
      if !net.connected || !net.first {
        return false;
      }
      var reply := db.Execute(Statement.UpdateUser(user.id, user.username, user.email,
                                                   ToColumn(user.qqId), ToColumn(user.neteaseId)));
      ok := reply.Done? && reply.affected > 0;
      if reply.Done? && !ok {
        assert db.tables.users == old(db.tables.users);
      }
    }

    method DeleteUser(id: int, net: Net) returns (ok: bool)
      requires db.Valid()
      modifies db
      ensures db.Valid()
      ensures ok == (net.connected && net.first && id in old(db.tables).users)
      ensures if ok then RemovesExactly(old(db.tables), db.tables, UserRef(id)) else db.tables == old(db.tables)
      ensures ok ==> db.tables == After(old(db.tables), Statement.DeleteUser(id))
    {
      if !net.connected || !net.first {
        return false;
      }
      DeleteUserCascade(db.tables, id);
      var reply := db.Execute(Statement.DeleteUser(id));
      ok := reply.Done? && reply.affected > 0;
    }

    /** True also when no account has this id. */
    method UpdatePassword(digest: string -> Digest, id: int, password: string, net: Net) returns (ok: bool)
      requires db.Valid()
      modifies db
      ensures db.Valid()
      ensures ok == (net.connected && net.first)
      ensures db.tables == if ok then After(old(db.tables), SetPassword(id, HashPassword(digest, password)))
                           else old(db.tables)
      ensures ok && id in db.tables.users ==>
                (BuildFromResultSet(id, db.tables.users[id]) ==
                 BuildFromResultSet(id, old(db.tables).users[id]).(passwdHash := HashPassword(digest, password)))
    {
      if !net.connected || !net.first {
        return false;
      }
      VerifyIsDigestEquality(digest, password, password);
      var reply := db.Execute(SetPassword(id, HashPassword(digest, password)));
      return reply.Done?;
    }

    /** The platform id is stored as it is: an empty one is not turned into NULL. */
    method UpdateQQId(id: int, qqId: string, net: Net) returns (ok: bool)
      requires db.Valid()
      modifies db
      ensures db.Valid()
      ensures ok == (net.connected && net.first && (id in old(db.tables).users ==> Fits(qqId, 50)))
      ensures db.tables == if ok then After(old(db.tables), SetQQ(id, qqId)) else old(db.tables)
      ensures ok && id in db.tables.users ==>
                (BuildFromResultSet(id, db.tables.users[id]) ==
                 BuildFromResultSet(id, old(db.tables).users[id]).(qqId := qqId))
    {
      if !net.connected || !net.first {
        return false;
      }
      var reply := db.Execute(SetQQ(id, qqId));
      return reply.Done?;
    }

    method UpdateNetEaseId(id: int, neteaseId: string, net: Net) returns (ok: bool)
      requires db.Valid()
      modifies db
      ensures db.Valid()
      ensures ok == (net.connected && net.first && (id in old(db.tables).users ==> Fits(neteaseId, 50)))
      ensures db.tables == if ok then After(old(db.tables), SetNetEase(id, neteaseId)) else old(db.tables)
      ensures ok && id in db.tables.users ==>
                (BuildFromResultSet(id, db.tables.users[id]) ==
                 BuildFromResultSet(id, old(db.tables).users[id]).(neteaseId := neteaseId))
    {
      if !net.connected || !net.first {
        return false;
      }
      var reply := db.Execute(SetNetEase(id, neteaseId));
      return reply.Done?;
    }
  }
}
