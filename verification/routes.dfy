/**
 * How the Express routes connect the middleware to the models. The routes
 * themselves are not modelled; these lemmas record what the models do with the
 * arguments the routes pass: `req.user` is the principal `{ userID, userType }`,
 * the route parameters are named `userid` and `requestId`, and some admin
 * routes pass no requester at all.
 */
module Routes {
  import opened Js
  import opened PartialUpdate
  import opened Database
  import Auth
  import Admin
  import User
  import CalendarEventRequest

  /** `req.user` as the object the models read properties from. */
  function RequesterOf(p: Auth.Principal): (o: Obj)
    ensures Prop(o, "userID") == p.userID && Prop(o, "userType") == p.userType
    ensures Prop(o, "userId") == Undefined && Prop(o, "usertype") == Undefined
  {
    map["userID" := p.userID, "userType" := p.userType]
  }

  /**
   * `GET /user/:userid`: the user gate reads `req.params.userId`, which is
   * `undefined`, so only an "Admin" gets past it; `getUserById` then wants the
   * lower-case "admin" or a matching `userId`, which `req.user` does not have.
   * Every request that reaches the model is refused. In fact none reaches it:
   * `GET /:email` is registered first and matches every such path, so Express never
   * dispatches this route at all.
   */
  lemma GetUserByIdRouteRefusesAll(db: Db, header: Option<string>, verify: string -> Option<Obj>, userid: string)
    requires Auth.AuthenticateJWT(header, verify).Admitted?
    requires Auth.EnsureCorrectUserOrAdmin(Some(Auth.AuthenticateJWT(header, verify).user), Undefined).Pass?
    ensures var p := Auth.AuthenticateJWT(header, verify).user;
            User.GetUserById(db, Str(userid), Some(RequesterOf(p)))
            == Run(Err(Unauthorized(User.UserForbidden)), [])
  {
    var p := Auth.AuthenticateJWT(header, verify).user;
    assert p.userType == Str("Admin");
    assert User.Refuses(RequesterOf(p), Str(userid));
  }

  /**
   * The admin event-request routes: listing and deleting pass no requester, so
   * the model throws reading `usertype` before any query; updating passes
   * `req.user`, which has `userType` but no `usertype`, so it is refused before
   * any query whoever the principal is.
   */
  lemma AdminEventRoutesNeverReachTheStore(db: Db, p: Auth.Principal, requestId: Value, body: Obj)
    ensures Admin.GetAllEventRequests(db, None) == Run(Err(TypeError("usertype")), [])
    ensures Admin.DeleteEventRequest(db, requestId, None) == Run(Err(TypeError("usertype")), [])
    ensures Admin.UpdateEventRequest(db, requestId, body, Some(RequesterOf(p)))
            == Run(Err(Unauthorized(Admin.UpdateRequestRefused)), [])
  {
    assert !Admin.IsAdminRequester(Some(RequesterOf(p)));
  }

  /**
   * `PUT /event/:requestid`: the user gate reads the undefined `req.params.userId`,
   * so only a principal whose `userType` is "Admin" gets past it (every other one is
   * denied, see `Auth.RouteParameterQuirk`). With the owner row Postgres returns (no
   * `userId` key), every such principal, owner or not, gets its update written.
   */
  lemma UpdateRequestRouteAdmitsEveryAdmin(db: Db, header: Option<string>, verify: string -> Option<Obj>,
                                           requestId: Value, body: seq<Field<Value>>)
    requires Auth.AuthenticateJWT(header, verify).Admitted?
    requires Auth.EnsureCorrectUserOrAdmin(Some(Auth.AuthenticateJWT(header, verify).user), Undefined).Pass?
    requires Found(db(CalendarEventRequest.OwnerLookup(requestId)))
    requires "userId" !in db(CalendarEventRequest.OwnerLookup(requestId)).rows[0]
    ensures var p := Auth.AuthenticateJWT(header, verify).user;
            && p.userType == Str("Admin")
            && |CalendarEventRequest.UpdateRequest(db, requestId, body, Some(RequesterOf(p))).queries| == 2
  {
    var p := Auth.AuthenticateJWT(header, verify).user;
    CalendarEventRequest.FoldedOwnerRowAdmitsAnyone(db, requestId, body, RequesterOf(p));
  }
}
