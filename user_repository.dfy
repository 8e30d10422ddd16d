/** The user table: exact-email and uuid lookups, insertion under the
    table's uniqueness constraints, and the password update. */
module UserRepo {
  import opened Outcomes

  /** One row of the `user` table; `passwordHash` is the stored `User_pwd`. */
  datatype User = User(uuid: string, email: string, passwordHash: string)

  /** Cause the store reports when an insert would repeat a unique key. */
  const UniqueConstraintFailed := "Unique constraint failed"
  /** Cause the store reports when an update by uuid matches no row. */
  const RecordToUpdateNotFound := "Record to update not found."

  /** The table's constraints: `user_email` and `uuid` are each unique. */
  ghost predicate UniqueKeys(rows: seq<User>)
  {
    forall i, j :: 0 <= i < j < |rows| ==> rows[i].email != rows[j].email && rows[i].uuid != rows[j].uuid
  }

  /** `findByEmail`: the user whose email equals `email` exactly, if any. */
  function FindByEmail(rows: seq<User>, email: string): (r: Option<User>)
    ensures r.Some? ==> r.value in rows && r.value.email == email
    ensures r.None? ==> forall u :: u in rows ==> u.email != email
  {
    if rows == [] then None
    else if rows[0].email == email then Some(rows[0])
    else FindByEmail(rows[1..], email)
  }

  /** `findByUuid`: the user with that uuid, if any. */
  function FindByUuid(rows: seq<User>, uuid: string): (r: Option<User>)
    ensures r.Some? ==> r.value in rows && r.value.uuid == uuid
    ensures r.None? ==> forall u :: u in rows ==> u.uuid != uuid
  {
    if rows == [] then None
    else if rows[0].uuid == uuid then Some(rows[0])
    else FindByUuid(rows[1..], uuid)
  }

  /** The table after `update({ where: { uuid }, data: { User_pwd } })`. */
  function WithPassword(rows: seq<User>, uuid: string, passwordHash: string): (r: seq<User>)
    ensures |r| == |rows|
    ensures forall i :: 0 <= i < |rows| && rows[i].uuid != uuid ==> r[i] == rows[i]
    ensures forall i :: 0 <= i < |rows| ==>
      r[i].uuid == rows[i].uuid && r[i].email == rows[i].email
      && (rows[i].uuid == uuid ==> r[i].passwordHash == passwordHash)
  {
    seq(|rows|, i requires 0 <= i < |rows| =>
      if rows[i].uuid == uuid then rows[i].(passwordHash := passwordHash) else rows[i])
  }

  /** The in-memory `user` table. */
  class UserRepository {
    var rows: seq<User>

    ghost predicate Valid()
      reads this
    {
      UniqueKeys(rows)
    }

    constructor()
      ensures Valid() && rows == []
    {
      rows := [];
    }

    /** `create`: inserts a user with the given email and hash and the uuid the
        store generates (`uuid`); an insert that would repeat an email or a
        uuid is refused by the store and changes nothing. */
    method Create(email: string, passwordHash: string, uuid: string) returns (r: Result<User>)
      requires Valid()
      modifies this
      ensures Valid()
      ensures (FindByEmail(old(rows), email).Some? || FindByUuid(old(rows), uuid).Some?) ==>
        r == Err(UniqueConstraintFailed) && rows == old(rows)
      ensures (FindByEmail(old(rows), email).None? && FindByUuid(old(rows), uuid).None?) ==>
        r == Ok(User(uuid, email, passwordHash)) && rows == old(rows) + [r.value]
    {
      if FindByEmail(rows, email).Some? || FindByUuid(rows, uuid).Some? {
        return Err(UniqueConstraintFailed);
      }
      var u := User(uuid, email, passwordHash);
      rows := rows + [u];
      r := Ok(u);
    }

    /** `updatePassword`: replaces the hash of the user with that uuid and
        nothing else; fails with the store's not-found cause otherwise. */
    method UpdatePassword(uuid: string, passwordHash: string) returns (r: Result<User>)
      requires Valid()
      modifies this
      ensures Valid()
      ensures FindByUuid(old(rows), uuid).None? ==> r == Err(RecordToUpdateNotFound) && rows == old(rows)
      ensures FindByUuid(old(rows), uuid).Some? ==>
        r == Ok(FindByUuid(old(rows), uuid).value.(passwordHash := passwordHash))
        && rows == WithPassword(old(rows), uuid, passwordHash)
    {
      var found := FindByUuid(rows, uuid);
      if found.None? {
        return Err(RecordToUpdateNotFound);
      }
      rows := WithPassword(rows, uuid, passwordHash);
      r := Ok(found.value.(passwordHash := passwordHash));
    }
  }

  /** Email is a key: in a table that keeps the constraint, the lookup by a
      stored user's email returns that very user. */
  lemma {:induction false} EmailIsKey(rows: seq<User>, u: User)
    requires UniqueKeys(rows) && u in rows
    ensures FindByEmail(rows, u.email) == Some(u)
  {
    if rows[0] != u {
      var k :| 0 < k < |rows| && rows[k] == u;
      assert rows[1..][k - 1] == u;
      EmailIsKey(rows[1..], u);
    }
  }

  /** Adding a user with a new email makes that email find the new user and
      leaves every other email's lookup as it was. */
  lemma {:induction false} FindByEmailAfterInsert(rows: seq<User>, u: User, email: string)
    requires FindByEmail(rows, u.email).None?
    ensures FindByEmail(rows + [u], email) == if email == u.email then Some(u) else FindByEmail(rows, email)
  {
    if rows != [] {
      assert (rows + [u])[1..] == rows[1..] + [u];
      if rows[0].email != email {
        FindByEmailAfterInsert(rows[1..], u, email);
      }
    }
  }
}
