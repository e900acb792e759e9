/**
  The PostgreSQL-backed user repository (internal/database/repositories/user_repository.go)
  over an in-memory users table. The table enforces the unique indexes that the gorm tags of
  User.go declare; a store failure (connection loss, timeout) is an explicit parameter
  `fault` of each operation, since the database is I/O.
*/
module Repositories {
  import opened Wrappers
  import opened Models

  datatype DbError =
    | Unavailable(reason: string)   // the query did not reach or was aborted by the database
    | UniqueViolation               // a unique index on email, username or apple_id rejected the row
    | PrimaryKeyViolation           // an INSERT with an id already in use

  /** The `users` table, keyed by primary key. */
  type Table = map<nat, User>

  /** Every row is stored under its own id. */
  ghost predicate KeyedByID(t: Table)
  {
    forall id :: id in t ==> t[id].id == id
  }

  /** The unique indexes of User.go: email, username, and apple_id where it is not NULL. */
  ghost predicate UniqueColumns(t: Table)
  {
    && (forall a, b :: a in t && b in t && t[a].email == t[b].email ==> a == b)
    && (forall a, b :: a in t && b in t && t[a].username == t[b].username ==> a == b)
    && (forall a, b :: a in t && b in t && t[a].appleID.Some? && t[a].appleID == t[b].appleID ==> a == b)
  }

  ghost predicate WellFormed(t: Table)
  {
    KeyedByID(t) && UniqueColumns(t)
  }

  /** Writing `u` under `u.id` would give some other row the same unique value. */
  predicate Conflicts(t: Table, u: User)
  {
    exists id :: id in t && id != u.id &&
      (t[id].email == u.email || t[id].username == u.username ||
       (u.appleID.Some? && t[id].appleID == u.appleID))
  }

  predicate HasEmail(t: Table, email: string)
  {
    exists id :: id in t && t[id].email == email
  }

  predicate HasUsername(t: Table, username: string)
  {
    exists id :: id in t && t[id].username == username
  }

  predicate HasAppleID(t: Table, appleID: string)
  {
    exists id :: id in t && t[id].appleID == Some(appleID)
  }

  /** A write that the unique indexes accept keeps the table well formed. */
  lemma {:induction false} PutPreservesWellFormed(t: Table, u: User)
    requires WellFormed(t) && !Conflicts(t, u)
    ensures WellFormed(t[u.id := u])
  {
    var t' := t[u.id := u];
    forall a, b | a in t' && b in t' && a != b
      ensures t'[a].email != t'[b].email && t'[a].username != t'[b].username
      ensures t'[a].appleID.Some? ==> t'[a].appleID != t'[b].appleID
    {
      if a == u.id {
        assert b in t && b != u.id;
      } else if b == u.id {
        assert a in t && a != u.id;
      }
    }
  }

  /** An email already in the table makes any new row carrying it a conflict. */
  lemma DuplicateEmailConflicts(t: Table, u: User)
    requires HasEmail(t, u.email) && u.id !in t
    ensures Conflicts(t, u)
  {
    var id :| id in t && t[id].email == u.email;
    assert id != u.id;
  }

  /** The database `database.DB` points at: the users table and its id sequence. */
  class Database {
    var users: Table
    var nextID: nat   // next value of the id column's sequence

    ghost predicate Valid()
      reads this
    {
      WellFormed(users)
    }

    constructor ()
      ensures Valid() && users == map[] && nextID == 1
    {
      users := map[];
      nextID := 1;
    }
  }

  /** The id an INSERT of `u` stores the row under: its own id, or the next sequence value when zero. */
  function AssignedID(u: User, nextID: nat): nat
  {
    if u.id == 0 then nextID else u.id
  }

  /**
    `UserRepository`: a handle on the shared database. Two repositories built by
    `NewUserRepository` see the same table.
  */
  class UserRepository {
    const db: Database

    /** `NewUserRepository()` with `database.DB` passed in. */
    constructor (db: Database)
      ensures this.db == db
    {
      this.db := db;
    }

    /**
      `Create`: INSERT. A zero id takes the next sequence value (which is consumed even
      when the INSERT then fails); on success gorm writes the id back into `user`.
    */
    method Create(user: UserRef, fault: Option<string>) returns (err: Option<DbError>)
      requires db.Valid()
      modifies db, user
      ensures db.Valid()
      ensures fault.Some? ==> err == Some(Unavailable(fault.value))
      ensures fault.Some? ==> db.users == old(db.users) && db.nextID == old(db.nextID) && user.value == old(user.value)
      ensures fault.None? ==> db.nextID == old(db.nextID) + (if old(user.value).id == 0 then 1 else 0)
      ensures var row := old(user.value).(id := AssignedID(old(user.value), old(db.nextID)));
        && (fault.None? && row.id in old(db.users) ==> err == Some(PrimaryKeyViolation))
        && (fault.None? && row.id !in old(db.users) && Conflicts(old(db.users), row) ==> err == Some(UniqueViolation))
        && (err.None? <==> fault.None? && row.id !in old(db.users) && !Conflicts(old(db.users), row))
        && (err.None? ==> db.users == old(db.users)[row.id := row] && user.value == row)
        && (err.Some? ==> db.users == old(db.users) && user.value == old(user.value))
    {
      if fault.Some? {
        return Some(Unavailable(fault.value));
      }
      var id := user.value.id;
      if id == 0 {
        id := db.nextID;
        db.nextID := db.nextID + 1;
      }
      var row := user.value.(id := id);
      if id in db.users {
        err := Some(PrimaryKeyViolation);
      } else if Conflicts(db.users, row) {
        err := Some(UniqueViolation);
      } else {
        PutPreservesWellFormed(db.users, row);
        db.users := db.users[id := row];
        user.value := row;
        err := None;
      }
    }

    /** `FindByID`: the row with that primary key; "not found" is `Success(None)`. */
    method FindByID(id: nat, fault: Option<string>) returns (r: Result<Option<User>, DbError>)
      requires db.Valid()
      ensures fault.Some? ==> r == Failure(Unavailable(fault.value))
      ensures fault.None? ==> r.Success? && (r.value.Some? <==> id in db.users)
      ensures fault.None? && r.value.Some? ==> r.value.value == db.users[id] && r.value.value.id == id
    {
      if fault.Some? {
        return Failure(Unavailable(fault.value));
      }
      r := Success(if id in db.users then Some(db.users[id]) else None);
    }

    /** `FindByEmail`: the row whose email is `email`, if any. */
    method FindByEmail(email: string, fault: Option<string>) returns (r: Result<Option<User>, DbError>)
      requires db.Valid()
      ensures fault.Some? ==> r == Failure(Unavailable(fault.value))
      ensures fault.None? ==> r.Success? && (r.value.Some? <==> HasEmail(db.users, email))
      ensures fault.None? && r.value.Some? ==>
        r.value.value.email == email && r.value.value.id in db.users && db.users[r.value.value.id] == r.value.value
    {
      if fault.Some? {
        return Failure(Unavailable(fault.value));
      }
      if id :| id in db.users && db.users[id].email == email {
        r := Success(Some(db.users[id]));
      } else {
        r := Success(None);
      }
    }

    /** `FindByUsername`: the row whose username is `username`, if any. */
    method FindByUsername(username: string, fault: Option<string>) returns (r: Result<Option<User>, DbError>)
      requires db.Valid()
      ensures fault.Some? ==> r == Failure(Unavailable(fault.value))
      ensures fault.None? ==> r.Success? && (r.value.Some? <==> HasUsername(db.users, username))
      ensures fault.None? && r.value.Some? ==>
        r.value.value.username == username && r.value.value.id in db.users && db.users[r.value.value.id] == r.value.value
    {
      if fault.Some? {
        return Failure(Unavailable(fault.value));
      }
      if id :| id in db.users && db.users[id].username == username {
        r := Success(Some(db.users[id]));
      } else {
        r := Success(None);
      }
    }

    /** `FindByAppleID`: the row whose (non-null) apple_id is `appleID`, if any. */
    method FindByAppleID(appleID: string, fault: Option<string>) returns (r: Result<Option<User>, DbError>)
      requires db.Valid()
      ensures fault.Some? ==> r == Failure(Unavailable(fault.value))
      ensures fault.None? ==> r.Success? && (r.value.Some? <==> HasAppleID(db.users, appleID))
      ensures fault.None? && r.value.Some? ==>
        r.value.value.appleID == Some(appleID) && r.value.value.id in db.users && db.users[r.value.value.id] == r.value.value
    {
      if fault.Some? {
        return Failure(Unavailable(fault.value));
      }
      if id :| id in db.users && db.users[id].appleID == Some(appleID) {
        r := Success(Some(db.users[id]));
      } else {
        r := Success(None);
      }
    }

    /**
      `Update`: gorm's `Save`. A zero id makes it an INSERT exactly like `Create`; any other
      id writes the whole row under that id (UPDATE, or INSERT when no row has it yet),
      unless a unique index rejects it. No other row changes.
    */
    method Update(user: UserRef, fault: Option<string>) returns (err: Option<DbError>)
      requires db.Valid()
      modifies db, user
      ensures db.Valid()
      ensures fault.Some? ==> err == Some(Unavailable(fault.value)) && db.users == old(db.users)
      ensures fault.Some? ==> user.value == old(user.value) && db.nextID == old(db.nextID)
      ensures old(user.value).id != 0 ==> user.value == old(user.value) && db.nextID == old(db.nextID)
      ensures old(user.value).id != 0 && fault.None? ==>
        && (err.None? <==> !Conflicts(old(db.users), user.value))
        && (err.Some? ==> err == Some(UniqueViolation) && db.users == old(db.users))
        && (err.None? ==> db.users == old(db.users)[user.value.id := user.value])
      ensures old(user.value).id == 0 && fault.None? ==>
        var row := old(user.value).(id := old(db.nextID));
        && db.nextID == old(db.nextID) + 1
        && (row.id in old(db.users) ==> err == Some(PrimaryKeyViolation))
        && (row.id !in old(db.users) && Conflicts(old(db.users), row) ==> err == Some(UniqueViolation))
        && (err.None? <==> row.id !in old(db.users) && !Conflicts(old(db.users), row))
        && (err.None? ==> db.users == old(db.users)[row.id := row] && user.value == row)
        && (err.Some? ==> db.users == old(db.users) && user.value == old(user.value))
    {
      if user.value.id == 0 {
        err := Create(user, fault);
        return;
      }
      if fault.Some? {
        return Some(Unavailable(fault.value));
      }
      if Conflicts(db.users, user.value) {
        err := Some(UniqueViolation);
      } else {
        PutPreservesWellFormed(db.users, user.value);
        db.users := db.users[user.value.id := user.value];
        err := None;
      }
    }

    /** `Delete`: DELETE by primary key; a missing id is not an error. */
    method Delete(id: nat, fault: Option<string>) returns (err: Option<DbError>)
      requires db.Valid()
      modifies db
      ensures db.Valid() && db.nextID == old(db.nextID)
      ensures fault.Some? ==> err == Some(Unavailable(fault.value)) && db.users == old(db.users)
      ensures fault.None? ==> err.None? && db.users == old(db.users) - {id}
    {
      if fault.Some? {
        return Some(Unavailable(fault.value));
      }
      db.users := db.users - {id};
      err := None;
    }

    /** `EmailExists`: whether some row has this email (a COUNT greater than zero). */
    method EmailExists(email: string, fault: Option<string>) returns (r: Result<bool, DbError>)
      requires db.Valid()
      ensures fault.Some? ==> r == Failure(Unavailable(fault.value))
      ensures fault.None? ==> r.Success? && (r.value <==> exists id :: id in db.users && db.users[id].email == email)
    {
      if fault.Some? {
        return Failure(Unavailable(fault.value));
      }
      r := Success(HasEmail(db.users, email));
    }

    /** `UsernameExists`: whether some row has this username. */
    method UsernameExists(username: string, fault: Option<string>) returns (r: Result<bool, DbError>)
      requires db.Valid()
      ensures fault.Some? ==> r == Failure(Unavailable(fault.value))
      ensures fault.None? ==> r.Success? && (r.value <==> exists id :: id in db.users && db.users[id].username == username)
    {
      if fault.Some? {
        return Failure(Unavailable(fault.value));
      }
      r := Success(HasUsername(db.users, username));
    }
  }
}
