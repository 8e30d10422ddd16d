/** The contract between the two services: the token the identity service
    signs is the only thing the todo service trusts, and every todo route sits
    behind the bearer-header gate. */
module TokenTrust {
  import opened Outcomes
  import opened Http
  import opened TodoRepo
  import opened AuthGate
  import opened UserRepo
  import opened AuthSvc
  import opened TodoHandlers

  /** The todo service's verifier accepts what the identity service signs and
      decodes its subject and email (both services share one secret). */
  ghost predicate SharedSecret(verify: Verifier, c: Crypto)
  {
    forall sub, email :: verify(c.sign(sub, email)).Some?
      && verify(c.sign(sub, email)).value.sub == sub
      && verify(c.sign(sub, email)).value.email == email
  }

  /** A successful login yields a token that, sent as `Bearer <token>`, passes
      the gate with the user's uuid as subject; the todo handlers then act for
      that uuid, provided it is not empty. */
  lemma LoginTokenOpensGate(rows: seq<User>, c: Crypto, verify: Verifier, email: string, password: string)
    requires SharedSecret(verify, c)
    requires LoginOutcome(rows, c, email, password).Ok?
    ensures var r := LoginOutcome(rows, c, email, password).value;
      var d := Decide(Some(BearerPrefix + r.token), verify, false);
      d.Proceed? && d.user.sub == r.user.uuid && d.user.email == email
      && (Authorized(Some(d.user)) <==> r.user.uuid != "")
  {
    var r := LoginOutcome(rows, c, email, password).value;
    BearerRoundTrip(r.token, verify);
  }

  /** `router.use(requireAuth)` in front of the listing route: the handler runs
      only when the gate passes control on, and then acts for the subject the
      gate attached. */
  method ListRoute(ctrl: TodoController, req: Request, res: Response<seq<Todo>>, verify: Verifier, outerFault: bool)
    modifies req`user, res
    ensures var d := Decide(old(req.authorization), verify, outerFault);
      (d.Deny? ==> res.sent == Some(ErrorReply(d.status, d.message, d.code)))
      && (d.Proceed? && Authorized(Some(d.user)) ==>
            res.sent == Some(DataReply(200, FindByUserUuid(ctrl.service.repo.rows, d.user.sub))))
      && (d.Proceed? && !Authorized(Some(d.user)) ==> res.sent == Some(UnauthorizedReply()))
  {
    var proceed := RequireAuth(req, res, verify, outerFault);
    if proceed {
      ctrl.GetUserTodos(req, res);
    }
  }
}
