/** The todo route handlers: who is asking, what the service did, and which
    status, code and message the response carries. */
module TodoHandlers {
  import opened Outcomes
  import opened Http
  import opened TodoRepo
  import opened TodoSvc
  import opened AuthGate

  const UnauthorizedMessage := "Unauthorized"
  const FetchTodosFailed := "Failed to fetch todos"

  /** `req.user?.sub` is truthy: a user is attached and its subject is not empty. */
  predicate Authorized(user: Option<Payload>)
  {
    user.Some? && user.value.sub != ""
  }

  /** The reply of every handler when no subject is attached. */
  function UnauthorizedReply<D>(): (r: Reply<D>)
    ensures Answers(r, 401, "UNAUTHORIZED") && r.body.error.value.message == UnauthorizedMessage
  {
    ErrorReply(401, UnauthorizedMessage, "UNAUTHORIZED")
  }

  /** `error instanceof Error ? error.message : fallback` */
  function MessageOf(t: Thrown, fallback: string): (m: string)
    ensures t.ErrorInstance? ==> m == t.message
    ensures t.NonError? ==> m == fallback
  {
    match t
    case ErrorInstance(msg) => msg
    case NonError => fallback
  }

  /** `error instanceof Error && error.message === 'Todo not found or access denied'` */
  predicate IsNotFound(t: Thrown)
  {
    t == ErrorInstance(NotFoundOrDenied)
  }

  function NotFoundReply<D>(): (r: Reply<D>)
    ensures Answers(r, 404, "TODO_NOT_FOUND") && r.body.error.value.message == NotFoundOrDenied
  {
    ErrorReply(404, NotFoundOrDenied, "TODO_NOT_FOUND")
  }

  /** `createTodo`: 201 with the created row, or 400 `CREATE_TODO_ERROR` carrying
      the error's message. */
  function CreateTodoReply(c: Completion<Todo>): (r: Reply<Todo>)
    ensures c.Returned? <==> r.status == 201
    ensures c.Returned? ==> r == DataReply(201, c.value)
    ensures c.Threw? ==>
      Answers(r, 400, "CREATE_TODO_ERROR")
      && r.body.error.value.message == MessageOf(c.thrown, "Failed to create todo")
  {
    match c
    case Returned(t) => DataReply(201, t)
    case Threw(e) => ErrorReply(400, MessageOf(e, "Failed to create todo"), "CREATE_TODO_ERROR")
  }

  /** `getUserTodos`: 200 with the rows, or 500 `FETCH_TODOS_ERROR` with a fixed
      message whatever was thrown. */
  function GetUserTodosReply(c: Completion<seq<Todo>>): (r: Reply<seq<Todo>>)
    ensures c.Returned? <==> r.status == 200
    ensures c.Returned? ==> r == DataReply(200, c.value)
    ensures c.Threw? ==> r == ErrorReply(500, FetchTodosFailed, "FETCH_TODOS_ERROR")
  {
    match c
    case Returned(ts) => DataReply(200, ts)
    case Threw(_) => ErrorReply(500, FetchTodosFailed, "FETCH_TODOS_ERROR")
  }

  /** `updateTodo`: 200 with the updated row; 404 `TODO_NOT_FOUND` exactly for the
      service's not-found error; 400 `UPDATE_TODO_ERROR` for anything else. */
  function UpdateTodoReply(c: Completion<Todo>): (r: Reply<Todo>)
    ensures c.Returned? <==> r.status == 200
    ensures c.Returned? ==> r == DataReply(200, c.value)
    ensures (c.Threw? && IsNotFound(c.thrown)) <==> r.status == 404
    ensures r.status == 404 ==> r == NotFoundReply()
    ensures c.Threw? && !IsNotFound(c.thrown) ==>
      Answers(r, 400, "UPDATE_TODO_ERROR")
      && r.body.error.value.message == MessageOf(c.thrown, "Failed to update todo")
  {
    match c
    case Returned(t) => DataReply(200, t)
    case Threw(e) =>
      if IsNotFound(e) then NotFoundReply()
      else ErrorReply(400, MessageOf(e, "Failed to update todo"), "UPDATE_TODO_ERROR")
  }

  /** `deleteTodo`: 204 with no body; 404 `TODO_NOT_FOUND` exactly for the
      service's not-found error; 400 `DELETE_TODO_ERROR` for anything else. */
  function DeleteTodoReply<D>(c: Completion<Todo>): (r: Reply<D>)
    ensures c.Returned? <==> r.status == 204
    ensures c.Returned? ==> r.body.Empty?
    ensures (c.Threw? && IsNotFound(c.thrown)) <==> r.status == 404
    ensures r.status == 404 ==> r == NotFoundReply()
    ensures c.Threw? && !IsNotFound(c.thrown) ==>
      Answers(r, 400, "DELETE_TODO_ERROR")
      && r.body.error.value.message == MessageOf(c.thrown, "Failed to delete todo")
  {
    match c
    case Returned(_) => Reply(204, Empty)
    case Threw(e) =>
      if IsNotFound(e) then NotFoundReply()
      else ErrorReply(400, MessageOf(e, "Failed to delete todo"), "DELETE_TODO_ERROR")
  }

  /** The handlers over one todo service. `Number(id)` is taken as already an
      integer; the store's uuid generator and clock are parameters of create. */
  class TodoController {
    const service: TodoService

    ghost predicate Valid()
      reads this, service, service.repo
    {
      service.Valid()
    }

    constructor()
      ensures Valid() && fresh(service) && fresh(service.repo) && service.repo.rows == []
    {
      service := new TodoService();
    }

    method CreateTodo(req: Request, content: string, uuid: string, now: nat, res: Response<Todo>)
      requires Valid()
      modifies service.repo, res
      ensures Valid()
      ensures service.repo.nextId == old(service.repo.nextId) + (if Authorized(req.user) then 1 else 0)
      ensures !Authorized(req.user) ==>
        res.sent == Some(UnauthorizedReply()) && service.repo.rows == old(service.repo.rows)
      ensures Authorized(req.user) ==>
        |service.repo.rows| == |old(service.repo.rows)| + 1
        && var t := service.repo.rows[|old(service.repo.rows)|];
           service.repo.rows == old(service.repo.rows) + [t]
           && t.uuid == uuid && t.content == content && t.userUuid == req.user.value.sub
           && t.id == old(service.repo.nextId) && t.createdAt == now
           && res.sent == Some(DataReply(201, t))
    {
      if !Authorized(req.user) {
        res.Send(UnauthorizedReply());
        return;
      }
      var t := service.CreateTodo(content, req.user.value.sub, uuid, now);
      res.Send(CreateTodoReply(Returned(t)));
    }

    method GetUserTodos(req: Request, res: Response<seq<Todo>>)
      modifies res
      ensures !Authorized(req.user) ==> res.sent == Some(UnauthorizedReply())
      ensures Authorized(req.user) ==>
        res.sent == Some(DataReply(200, FindByUserUuid(service.repo.rows, req.user.value.sub)))
    {
      if !Authorized(req.user) {
        res.Send(UnauthorizedReply());
        return;
      }
      var todos := service.GetUserTodos(req.user.value.sub);
      res.Send(GetUserTodosReply(Returned(todos)));
    }

    method UpdateTodo(req: Request, id: int, content: string, res: Response<Todo>)
      requires Valid()
      modifies service.repo, res
      ensures Valid() && service.repo.nextId == old(service.repo.nextId)
      ensures !Authorized(req.user) ==>
        res.sent == Some(UnauthorizedReply()) && service.repo.rows == old(service.repo.rows)
      ensures Authorized(req.user) ==>
        var found := FindByIdAndUserUuid(old(service.repo.rows), id, req.user.value.sub);
        (found.None? ==> res.sent == Some(NotFoundReply()) && service.repo.rows == old(service.repo.rows))
        && (found.Some? ==>
              res.sent == Some(DataReply(200, found.value.(content := content)))
              && service.repo.rows == WithContent(old(service.repo.rows), id, req.user.value.sub, content))
    {
      if !Authorized(req.user) {
        res.Send(UnauthorizedReply());
        return;
      }
      var r := service.UpdateTodo(id, req.user.value.sub, content);
      res.Send(UpdateTodoReply(Await(r)));
    }

    method DeleteTodo<D>(req: Request, id: int, res: Response<D>)
      requires Valid()
      modifies service.repo, res
      ensures Valid() && service.repo.nextId == old(service.repo.nextId)
      ensures !Authorized(req.user) ==>
        res.sent == Some(UnauthorizedReply()) && service.repo.rows == old(service.repo.rows)
      ensures Authorized(req.user) ==>
        var found := FindByIdAndUserUuid(old(service.repo.rows), id, req.user.value.sub);
        (found.None? ==> res.sent == Some(NotFoundReply()) && service.repo.rows == old(service.repo.rows))
        && (found.Some? ==>
              res.sent == Some(Reply(204, Empty))
              && service.repo.rows == Without(old(service.repo.rows), id, req.user.value.sub))
    {
      if !Authorized(req.user) {
        res.Send(UnauthorizedReply());
        return;
      }
      var r := service.DeleteTodo(id, req.user.value.sub);
      res.Send(DeleteTodoReply(Await(r)));
    }
  }
}
