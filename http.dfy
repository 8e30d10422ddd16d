/** The JSON envelope both services answer with, and the response object
    the middlewares and handlers write into. */
module Http {
  import opened Outcomes

  /** `error: { message, code, stack? }` of a failed response. */
  datatype ErrorInfo = ErrorInfo(message: string, code: string, stack: Option<string>)

  /** A JSON body `{ success, data?, error? }`, or no body at all (`send()`). */
  datatype Body<D> = Json(success: bool, data: Option<D>, error: Option<ErrorInfo>) | Empty

  /** A status code together with the body written with it. */
  datatype Reply<D> = Reply(status: int, body: Body<D>)

  /** `res.status(s).json({ success: true, data })` */
  function DataReply<D>(status: int, data: D): (r: Reply<D>)
    ensures r.status == status && r.body.Json? && r.body.success
    ensures r.body.data == Some(data) && r.body.error.None?
  {
    Reply(status, Json(true, Some(data), None))
  }

  /** `res.status(s).json({ success: false, error: { message, code } })` */
  function ErrorReply<D>(status: int, message: string, code: string): (r: Reply<D>)
    ensures r.status == status && r.body.Json? && !r.body.success && r.body.data.None?
    ensures r.body.error == Some(ErrorInfo(message, code, None))
  {
    Reply(status, Json(false, None, Some(ErrorInfo(message, code, None))))
  }

  /** Status and error code of a reply, for stating decision tables briefly. */
  predicate Answers<D>(r: Reply<D>, status: int, code: string)
  {
    r.status == status && r.body.Json? && !r.body.success && r.body.data.None?
    && r.body.error.Some? && r.body.error.value.code == code
  }

  /** The response object of one request; `sent` is what has been written to it. */
  class Response<D> {
    var sent: Option<Reply<D>>

    constructor()
      ensures sent == None
    {
      sent := None;
    }

    method Send(r: Reply<D>)
      modifies this
      ensures sent == Some(r)
    {
      sent := Some(r);
    }
  }
}
