/** The ownership-scoped todo operations: every read, update and delete first
    looks the row up by `(id, owner)`, and a missing row and another user's
    row give the same error. */
module TodoSvc {
  import opened Outcomes
  import opened TodoRepo

  /** The one error of the three guarded operations. */
  const NotFoundOrDenied := "Todo not found or access denied"

  class TodoService {
    const repo: TodoRepository

    ghost predicate Valid()
      reads this, repo
    {
      repo.Valid()
    }

    constructor()
      ensures Valid() && fresh(repo) && repo.rows == []
    {
      repo := new TodoRepository();
    }

    /** `createTodo`: a new row with the given content and owner and an id no
        row had before; every existing row is kept. */
    method CreateTodo(content: string, userUuid: string, uuid: string, now: nat) returns (t: Todo)
      requires Valid()
      modifies repo
      ensures Valid()
      ensures t.content == content && t.userUuid == userUuid && t.uuid == uuid && t.createdAt == now
      ensures t.id == old(repo.nextId) && repo.nextId == old(repo.nextId) + 1
      ensures forall u :: u in old(repo.rows) ==> u.id != t.id
      ensures repo.rows == old(repo.rows) + [t]
    {
      t := repo.Create(content, userUuid, uuid, now);
    }

    /** `getUserTodos`: the store's listing, which is exactly the caller's rows,
        newest first. */
    method GetUserTodos(userUuid: string) returns (todos: seq<Todo>)
      ensures todos == FindByUserUuid(repo.rows, userUuid)
      ensures NewestFirst(todos)
      ensures forall t :: t in todos <==> t in repo.rows && t.userUuid == userUuid
      ensures multiset(todos) == multiset(OwnedBy(repo.rows, userUuid))
    {
      todos := FindByUserUuid(repo.rows, userUuid);
    }

    /** `updateTodo`: on the caller's own row, sets its content and nothing
        else; otherwise fails with `NotFoundOrDenied` and changes nothing. */
    method UpdateTodo(id: int, userUuid: string, content: string) returns (r: Result<Todo>)
      requires Valid()
      modifies repo
      ensures Valid() && repo.nextId == old(repo.nextId)
      ensures r.Err? <==> forall t :: t in old(repo.rows) ==> !Owns(t, id, userUuid)
      ensures r.Err? ==> r.message == NotFoundOrDenied && repo.rows == old(repo.rows)
      ensures r.Ok? ==>
        Owns(r.value, id, userUuid) && r.value.content == content && r.value in repo.rows
        && repo.rows == WithContent(old(repo.rows), id, userUuid, content)
    {
      var found := FindByIdAndUserUuid(repo.rows, id, userUuid);
      if found.None? {
        return Err(NotFoundOrDenied);
      }
      r := repo.Update(id, userUuid, content);
    }

    /** `deleteTodo`: on the caller's own row, removes exactly that row and
        returns it; otherwise fails with `NotFoundOrDenied` and removes nothing. */
    method DeleteTodo(id: int, userUuid: string) returns (r: Result<Todo>)
      requires Valid()
      modifies repo
      ensures Valid() && repo.nextId == old(repo.nextId)
      ensures r.Err? <==> forall t :: t in old(repo.rows) ==> !Owns(t, id, userUuid)
      ensures r.Err? ==> r.message == NotFoundOrDenied && repo.rows == old(repo.rows)
      ensures r.Ok? ==>
        r.value in old(repo.rows) && Owns(r.value, id, userUuid)
        && repo.rows == Without(old(repo.rows), id, userUuid)
        && |repo.rows| == |old(repo.rows)| - 1
        && r.value !in FindByUserUuid(repo.rows, userUuid)
    {
      var found := FindByIdAndUserUuid(repo.rows, id, userUuid);
      if found.None? {
        return Err(NotFoundOrDenied);
      }
      r := repo.Delete(id, userUuid);
    }

    /** `getTodoById`: the caller's own row as stored; otherwise `NotFoundOrDenied`.
        Reads only. */
    method GetTodoById(id: int, userUuid: string) returns (r: Result<Todo>)
      ensures r.Err? <==> forall t :: t in repo.rows ==> !Owns(t, id, userUuid)
      ensures r.Err? ==> r.message == NotFoundOrDenied
      ensures r.Ok? ==> r.value in repo.rows && Owns(r.value, id, userUuid)
    {
      var found := FindByIdAndUserUuid(repo.rows, id, userUuid);
      if found.None? {
        return Err(NotFoundOrDenied);
      }
      r := Ok(found.value);
    }
  }
}
