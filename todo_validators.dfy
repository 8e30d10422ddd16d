/** The request schemas of the todo routes: the content length rule and the
    presence of the `id` path parameter. */
module TodoValidators {
  import opened Outcomes

  /** A field of the parsed request as the schema sees it: absent (`undefined`),
      a string, or a value of another JSON type (named as the schema names it). */
  datatype Field = Missing | Str(s: string) | NonString(received: string)

  /** One failed check: where it failed and the message reported. */
  datatype Issue = Issue(path: seq<string>, message: string)

  /** The parse outcome: the accepted value, or every issue found. */
  datatype Validation<T> = Accepted(value: T) | Rejected(issues: seq<Issue>)

  /** The accepted shape of an update request. */
  datatype UpdateInput = UpdateInput(id: string, content: Option<string>)

  const MinContent := 1
  const MaxContent := 500
  const ContentRequired := "Content is required"
  const ContentTooLong := "Content too long"
  const RequiredField := "Required"
  const ContentPath := ["body", "content"]
  const IdPath := ["params", "id"]

  /** A string's `length` as the schema measures it: UTF-16 code units, so a
      character outside the Basic Multilingual Plane counts twice. */
  function Utf16Length(s: string): (n: nat)
    ensures |s| <= n <= 2 * |s|
    ensures n == 0 <==> s == []
  {
    if s == [] then 0
    else (if s[0] as int >= 0x10000 then 2 else 1) + Utf16Length(s[1..])
  }

  /** The type check every string field gets first. */
  function TypeIssues(f: Field, path: seq<string>): (issues: seq<Issue>)
    ensures issues == [] <==> f.Str?
  {
    match f
    case Missing => [Issue(path, RequiredField)]
    case NonString(received) => [Issue(path, "Expected string, received " + received)]
    case Str(_) => []
  }

  /** `z.string().min(1, 'Content is required').max(500, 'Content too long')`
      applied to a string. */
  function ContentLengthIssues(s: string): (issues: seq<Issue>)
    ensures issues == [] <==> MinContent <= Utf16Length(s) <= MaxContent
    ensures s == [] ==> issues == [Issue(ContentPath, ContentRequired)]
    ensures Utf16Length(s) > MaxContent ==> issues == [Issue(ContentPath, ContentTooLong)]
  {
    var n := Utf16Length(s);
    (if n < MinContent then [Issue(ContentPath, ContentRequired)] else [])
    + (if n > MaxContent then [Issue(ContentPath, ContentTooLong)] else [])
  }

  /** `createTodoSchema`: content is required and is a string of 1 to 500 code units. */
  function ValidateCreate(content: Field): (r: Validation<string>)
    ensures r.Accepted? <==> content.Str? && MinContent <= Utf16Length(content.s) <= MaxContent
    ensures r.Accepted? ==> r.value == content.s
    ensures content == Str("") ==> r == Rejected([Issue(ContentPath, ContentRequired)])
    ensures content.Str? && Utf16Length(content.s) > MaxContent ==>
      r == Rejected([Issue(ContentPath, ContentTooLong)])
    ensures content.Missing? ==> r == Rejected([Issue(ContentPath, RequiredField)])
  {
    var issues := if content.Str? then ContentLengthIssues(content.s) else TypeIssues(content, ContentPath);
    if issues == [] then Accepted(content.s) else Rejected(issues)
  }

  /** The optional content of an update: absent is fine, present follows the create rule. */
  function OptionalContentIssues(content: Field): (issues: seq<Issue>)
    ensures content.Missing? ==> issues == []
    ensures !content.Missing? ==>
      (issues == [] <==> ValidateCreate(content).Accepted?)
  {
    match content
    case Missing => []
    case Str(s) => ContentLengthIssues(s)
    case NonString(_) => TypeIssues(content, ContentPath)
  }

  /** `updateTodoSchema`: an `id` path parameter given as a string, and optional
      content obeying the create rule; issues are reported parameters first. */
  function ValidateUpdate(id: Field, content: Field): (r: Validation<UpdateInput>)
    ensures r.Accepted? <==> id.Str? && (content.Missing? || ValidateCreate(content).Accepted?)
    ensures r.Accepted? ==> r.value.id == id.s
    ensures r.Accepted? ==> (r.value.content.Some? <==> content.Str?)
    ensures r.Accepted? && content.Str? ==> r.value.content.value == content.s
    ensures id.Missing? ==> r.Rejected? && |r.issues| >= 1 && r.issues[0] == Issue(IdPath, RequiredField)
  {
    var issues := TypeIssues(id, IdPath) + OptionalContentIssues(content);
    if issues == [] then
      Accepted(UpdateInput(id.s, if content.Str? then Some(content.s) else None))
    else Rejected(issues)
  }

  /** `deleteTodoSchema`: an `id` path parameter given as a string. */
  function ValidateDelete(id: Field): (r: Validation<string>)
    ensures r.Accepted? <==> id.Str?
    ensures r.Accepted? ==> r.value == id.s
    ensures id.Missing? ==> r == Rejected([Issue(IdPath, RequiredField)])
  {
    var issues := TypeIssues(id, IdPath);
    if issues == [] then Accepted(id.s) else Rejected(issues)
  }
}
