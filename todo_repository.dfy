/** The todo table and the store operations over it: insertion with a fresh
    auto-increment id, owner-scoped lookup, owner-scoped update and delete,
    and the per-owner listing ordered newest first. */
module TodoRepo {
  import opened Outcomes

  /** One row of the `todo` table. `createdAt` is the store clock's reading
      when the row was inserted. */
  datatype Todo = Todo(id: nat, uuid: string, content: string, userUuid: string, createdAt: nat)

  /** Cause the store reports when an owner-scoped update matches no row. */
  const RecordToUpdateNotFound := "Record to update not found."
  /** Cause the store reports when an owner-scoped delete matches no row. */
  const RecordToDeleteNotFound := "Record to delete does not exist."

  /** The `where: { id, user_uuid }` filter of every scoped operation. */
  predicate Owns(t: Todo, id: int, owner: string)
  {
    t.id == id && t.userUuid == owner
  }

  /** Rows are kept in insertion order, so ids strictly increase along the table. */
  ghost predicate IdsIncreasing(rows: seq<Todo>)
  {
    forall i, j :: 0 <= i < j < |rows| ==> rows[i].id < rows[j].id
  }

  /** Newest first: `createdAt` never increases along the sequence. */
  predicate NewestFirst(s: seq<Todo>)
  {
    forall i, j :: 0 <= i < j < |s| ==> s[i].createdAt >= s[j].createdAt
  }

  /** The rows of one owner, in table order (`where: { user_uuid }`). */
  function OwnedBy(rows: seq<Todo>, owner: string): (r: seq<Todo>)
    ensures forall t :: t in r <==> t in rows && t.userUuid == owner
    ensures forall t :: multiset(r)[t] == if t.userUuid == owner then multiset(rows)[t] else 0
    ensures |r| <= |rows|
  {
    if rows == [] then []
    else
      var last := rows[|rows| - 1];
      assert rows == rows[..|rows| - 1] + [last];
      OwnedBy(rows[..|rows| - 1], owner) + (if last.userUuid == owner then [last] else [])
  }

  /** Inserts `t` into a newest-first sequence, before every row not newer than it. */
  function InsertByDate(t: Todo, s: seq<Todo>): (r: seq<Todo>)
    requires NewestFirst(s)
    ensures NewestFirst(r)
    ensures multiset(r) == multiset(s) + multiset{t}
  {
    if s == [] || t.createdAt >= s[0].createdAt then
      PrependNewest(t, s);
      [t] + s
    else
      var rest := InsertByDate(t, s[1..]);
      assert s == [s[0]] + s[1..];
      forall x | x in rest ensures s[0].createdAt >= x.createdAt {
        assert x in multiset(rest);
      }
      PrependNewest(s[0], rest);
      [s[0]] + rest
  }

  /** A row at least as new as every row of a newest-first sequence may go in front. */
  lemma PrependNewest(x: Todo, s: seq<Todo>)
    requires NewestFirst(s)
    requires forall y :: y in s ==> x.createdAt >= y.createdAt
    ensures NewestFirst([x] + s)
  {
    forall i, j | 0 <= i < j < |[x] + s| ensures ([x] + s)[i].createdAt >= ([x] + s)[j].createdAt {
      if i > 0 {
        assert ([x] + s)[i] == s[i - 1] && ([x] + s)[j] == s[j - 1];
      } else {
        assert ([x] + s)[j] in s;
      }
    }
  }

  /** `orderBy: { createdAt: 'desc' }`: a newest-first permutation of `s`. */
  function SortNewestFirst(s: seq<Todo>): (r: seq<Todo>)
    ensures NewestFirst(r)
    ensures multiset(r) == multiset(s)
  {
    if s == [] then []
    else
      assert s == [s[0]] + s[1..];
      InsertByDate(s[0], SortNewestFirst(s[1..]))
  }

  /** `findByUserUuid`: exactly the owner's rows, newest first. */
  function FindByUserUuid(rows: seq<Todo>, owner: string): (r: seq<Todo>)
    ensures NewestFirst(r)
    ensures multiset(r) == multiset(OwnedBy(rows, owner))
    ensures forall t :: t in r <==> t in rows && t.userUuid == owner
  {
    var r := SortNewestFirst(OwnedBy(rows, owner));
    assert forall t :: t in r <==> t in multiset(r);
    assert forall t :: t in OwnedBy(rows, owner) <==> t in multiset(OwnedBy(rows, owner));
    r
  }

  /** `findByIdAndUserUuid`: the first row matching both id and owner, if any. */
  function FindByIdAndUserUuid(rows: seq<Todo>, id: int, owner: string): (r: Option<Todo>)
    ensures r.Some? ==> r.value in rows && Owns(r.value, id, owner)
    ensures r.None? ==> forall t :: t in rows ==> !Owns(t, id, owner)
  {
    if rows == [] then None
    else if Owns(rows[0], id, owner) then Some(rows[0])
    else FindByIdAndUserUuid(rows[1..], id, owner)
  }

  /** The table after `update({ where: { id, user_uuid }, data: { content } })`. */
  function WithContent(rows: seq<Todo>, id: int, owner: string, content: string): (r: seq<Todo>)
    ensures |r| == |rows|
    ensures forall i :: 0 <= i < |rows| && !Owns(rows[i], id, owner) ==> r[i] == rows[i]
    ensures forall i :: 0 <= i < |rows| && Owns(rows[i], id, owner) ==> r[i].content == content
    ensures forall i :: 0 <= i < |rows| ==>
      r[i].id == rows[i].id && r[i].uuid == rows[i].uuid
      && r[i].userUuid == rows[i].userUuid && r[i].createdAt == rows[i].createdAt
  {
    seq(|rows|, i requires 0 <= i < |rows| =>
      if Owns(rows[i], id, owner) then rows[i].(content := content) else rows[i])
  }

  /** The table after `delete({ where: { id, user_uuid } })`. */
  function Without(rows: seq<Todo>, id: int, owner: string): (r: seq<Todo>)
    ensures forall t :: t in r <==> t in rows && !Owns(t, id, owner)
    ensures |r| <= |rows|
  {
    if rows == [] then []
    else
      var last := rows[|rows| - 1];
      Without(rows[..|rows| - 1], id, owner) + (if Owns(last, id, owner) then [] else [last])
  }

  /** The in-memory `todo` table with its auto-increment counter. */
  class TodoRepository {
    var rows: seq<Todo>
    var nextId: nat

    ghost predicate Valid()
      reads this
    {
      IdsIncreasing(rows) && forall t :: t in rows ==> t.id < nextId
    }

    constructor()
      ensures Valid() && rows == [] && nextId == 1
    {
      rows := [];
      nextId := 1;
    }

    /** `create`: inserts a row with the next id; `uuid` and `now` stand for
        the store's uuid generator and clock. */
    method Create(content: string, userUuid: string, uuid: string, now: nat) returns (t: Todo)
      requires Valid()
      modifies this
      ensures Valid()
      ensures t.content == content && t.userUuid == userUuid
      ensures t.uuid == uuid && t.createdAt == now && t.id == old(nextId)
      ensures forall u :: u in old(rows) ==> u.id != t.id
      ensures rows == old(rows) + [t]
      ensures nextId == old(nextId) + 1
    {
      t := Todo(nextId, uuid, content, userUuid, now);
      rows := rows + [t];
      nextId := nextId + 1;
    }

    /** `update`: sets the content of the row matching `(id, owner)`; fails
        with the store's not-found cause when no row matches. */
    method Update(id: int, owner: string, content: string) returns (r: Result<Todo>)
      requires Valid()
      modifies this
      ensures Valid() && nextId == old(nextId)
      ensures FindByIdAndUserUuid(old(rows), id, owner).None? ==>
        r == Err(RecordToUpdateNotFound) && rows == old(rows)
      ensures FindByIdAndUserUuid(old(rows), id, owner).Some? ==>
        r == Ok(FindByIdAndUserUuid(old(rows), id, owner).value.(content := content))
        && rows == WithContent(old(rows), id, owner, content)
        && r.value in rows
    {
      var found := FindByIdAndUserUuid(rows, id, owner);
      if found.None? {
        return Err(RecordToUpdateNotFound);
      }
      var k :| 0 <= k < |rows| && rows[k] == found.value;
      rows := WithContent(rows, id, owner, content);
      r := Ok(found.value.(content := content));
      assert rows[k] == r.value;
    }

    /** `delete`: removes the row matching `(id, owner)` and returns it; fails
        with the store's not-found cause when no row matches. */
    method Delete(id: int, owner: string) returns (r: Result<Todo>)
      requires Valid()
      modifies this
      ensures Valid() && nextId == old(nextId)
      ensures FindByIdAndUserUuid(old(rows), id, owner).None? ==>
        r == Err(RecordToDeleteNotFound) && rows == old(rows)
      ensures FindByIdAndUserUuid(old(rows), id, owner).Some? ==>
        r == Ok(FindByIdAndUserUuid(old(rows), id, owner).value)
        && rows == Without(old(rows), id, owner)
        && |rows| == |old(rows)| - 1
    {
      var found := FindByIdAndUserUuid(rows, id, owner);
      if found.None? {
        return Err(RecordToDeleteNotFound);
      }
      WithoutKeepsOrder(rows, id, owner);
      WithoutRemovesOne(rows, id, owner);
      rows := Without(rows, id, owner);
      r := Ok(found.value);
    }
  }

  /** Deleting keeps the remaining rows in order, so ids still increase. */
  lemma {:induction false} WithoutKeepsOrder(rows: seq<Todo>, id: int, owner: string)
    requires IdsIncreasing(rows)
    ensures IdsIncreasing(Without(rows, id, owner))
  {
    if rows != [] {
      var init := rows[..|rows| - 1];
      WithoutKeepsOrder(init, id, owner);
      var w := Without(init, id, owner);
      forall t | t in w ensures t.id < rows[|rows| - 1].id {
        var k :| 0 <= k < |init| && init[k] == t;
      }
    }
  }

  /** When ids are unique and some row matches, deleting removes exactly one row. */
  lemma {:induction false} WithoutRemovesOne(rows: seq<Todo>, id: int, owner: string)
    requires IdsIncreasing(rows)
    requires exists t :: t in rows && Owns(t, id, owner)
    ensures |Without(rows, id, owner)| == |rows| - 1
  {
    var init := rows[..|rows| - 1];
    var last := rows[|rows| - 1];
    if Owns(last, id, owner) {
      forall t | t in init ensures !Owns(t, id, owner) {
        var k :| 0 <= k < |init| && init[k] == t;
      }
      WithoutNoMatch(init, id, owner);
    } else {
      var t :| t in rows && Owns(t, id, owner);
      assert rows == init + [last];
      assert t in init;
      WithoutRemovesOne(init, id, owner);
    }
  }

  /** Deleting a key no row matches leaves the table as it is. */
  lemma {:induction false} WithoutNoMatch(rows: seq<Todo>, id: int, owner: string)
    requires forall t :: t in rows ==> !Owns(t, id, owner)
    ensures Without(rows, id, owner) == rows
  {
    if rows != [] {
      var init := rows[..|rows| - 1];
      var last := rows[|rows| - 1];
      assert rows == init + [last];
      assert last in rows;
      WithoutNoMatch(init, id, owner);
      assert Without(rows, id, owner) == Without(init, id, owner) + [last];
    }
  }

  /** Creating a row adds it to its owner's listing and to no other owner's. */
  lemma {:induction false} ListAfterCreate(rows: seq<Todo>, t: Todo, owner: string)
    ensures multiset(FindByUserUuid(rows + [t], owner))
         == multiset(FindByUserUuid(rows, owner)) + (if t.userUuid == owner then multiset{t} else multiset{})
  {
    assert (rows + [t])[..|rows + [t]| - 1] == rows;
  }

  /** An update scoped to `owner` leaves every other owner's rows as they were. */
  lemma {:induction false} UpdateIsolation(rows: seq<Todo>, id: int, owner: string, content: string, other: string)
    requires other != owner
    ensures OwnedBy(WithContent(rows, id, owner, content), other) == OwnedBy(rows, other)
    ensures FindByUserUuid(WithContent(rows, id, owner, content), other) == FindByUserUuid(rows, other)
  {
    if rows != [] {
      var init := rows[..|rows| - 1];
      var w := WithContent(rows, id, owner, content);
      assert w[..|w| - 1] == WithContent(init, id, owner, content);
      UpdateIsolation(init, id, owner, content, other);
    }
  }

  /** A delete scoped to `owner` leaves every other owner's rows as they were. */
  lemma {:induction false} DeleteIsolation(rows: seq<Todo>, id: int, owner: string, other: string)
    requires other != owner
    ensures OwnedBy(Without(rows, id, owner), other) == OwnedBy(rows, other)
    ensures FindByUserUuid(Without(rows, id, owner), other) == FindByUserUuid(rows, other)
  {
    if rows != [] {
      var init := rows[..|rows| - 1];
      var last := rows[|rows| - 1];
      assert rows == init + [last];
      DeleteIsolation(init, id, owner, other);
      OwnedBySnoc(init, last, other);
      var w := Without(init, id, owner);
      if Owns(last, id, owner) {
        assert Without(rows, id, owner) == w;
      } else {
        assert Without(rows, id, owner) == w + [last];
        OwnedBySnoc(w, last, other);
      }
    }
  }

  /** Filtering by owner distributes over appending one row. */
  lemma OwnedBySnoc(rows: seq<Todo>, x: Todo, owner: string)
    ensures OwnedBy(rows + [x], owner) == OwnedBy(rows, owner) + (if x.userUuid == owner then [x] else [])
  {
    assert (rows + [x])[..|rows|] == rows;
  }

  /** With unique ids, the owner's lookup of a row by its id finds exactly that row. */
  lemma {:induction false} OwnRowVisible(rows: seq<Todo>, t: Todo)
    requires IdsIncreasing(rows) && t in rows
    ensures FindByIdAndUserUuid(rows, t.id, t.userUuid) == Some(t)
  {
    if rows[0] != t {
      assert rows == [rows[0]] + rows[1..];
      var k :| 0 < k < |rows| && rows[k] == t;
      assert !Owns(rows[0], t.id, t.userUuid);
      OwnRowVisible(rows[1..], t);
    }
  }

  /** With unique ids, a row owned by someone else is invisible to another user's
      lookup by its id: the lookup answers as if no such row existed. */
  lemma ForeignRowInvisible(rows: seq<Todo>, t: Todo, other: string)
    requires IdsIncreasing(rows) && t in rows && other != t.userUuid
    ensures FindByIdAndUserUuid(rows, t.id, other).None?
  {
    forall u | u in rows ensures !Owns(u, t.id, other) {
      var i :| 0 <= i < |rows| && rows[i] == u;
      var j :| 0 <= j < |rows| && rows[j] == t;
    }
  }
}
