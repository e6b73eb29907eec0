/**
 * The command side of the Result resource, as functions on a value of the
 * database: each action runs a fixed chain of checks, any of which may end
 * the request with a failure, and only the last step changes the database.
 */
module Commands {

  import opened Wrappers
  import opened Entity

  /** The caller as the security layer sees it: logged in or not, its user id, and whether it holds ROLE_ADMIN. */
  datatype Caller = Caller(authenticated: bool, id: UserId, isAdmin: bool)

  /**
   * A decoded request body. A field that the body leaves out and a field
   * whose value is null are alike: both are None.
   */
  datatype Payload = Payload(result: Option<int>, user: Option<UserId>, date: Option<Date>)

  /** What an action answers; the comment gives the HTTP status. */
  datatype Outcome =
    | Unauthorized                       // 401
    | Forbidden                          // 403
    | NotFound                           // 404
    | UnprocessableEntity                // 422
    | BadRequest                         // 400
    | Created(record: ResultRec)         // 201
    | ContentReturned(record: ResultRec) // 209
    | NoContent                          // 204
  {
    predicate IsSuccess() {
      Created? || ContentReturned? || NoContent?
    }
  }

  /**
   * The database as far as these actions see it: the stored results by id,
   * the ids of the existing users, and the next id the identity column hands out.
   */
  datatype Db = Db(results: map<int, ResultRec>, users: set<UserId>, nextId: int)

  datatype Response = Response(outcome: Outcome, after: Db)

  /**
   * What the database keeps true: every stored result sits under its own
   * positive id, below the next id to be handed out, and names an existing user.
   */
  predicate Inv(db: Db) {
    && 0 < db.nextId
    && forall k | k in db.results ::
         && 0 < k < db.nextId
         && db.results[k].id == k
         && db.results[k].user in db.users
  }

  /** The HTTP status code of an outcome. */
  function StatusCode(o: Outcome): (code: int)
    ensures o.IsSuccess() <==> 200 <= code < 300
    ensures !o.IsSuccess() <==> 400 <= code < 500
  {
    match o
    case Unauthorized => 401
    case Forbidden => 403
    case NotFound => 404
    case UnprocessableEntity => 422
    case BadRequest => 400
    case Created(_) => 201
    case ContentReturned(_) => 209
    case NoContent => 204
  }

  // ---------------------------------------------------------------- delete

  /**
   * DELETE /results/{id}: authenticated, then admin, then lookup, then remove.
   * The role check comes before the lookup, so a non-admin learns nothing
   * about which ids exist.
   */
  function Delete(db: Db, caller: Caller, id: int): (r: Response)
    ensures !caller.authenticated ==> r.outcome == Unauthorized
    ensures caller.authenticated && !caller.isAdmin ==> r.outcome == Forbidden
    ensures r.outcome == NotFound <==> caller.authenticated && caller.isAdmin && id !in db.results
    ensures r.outcome == NoContent <==> caller.authenticated && caller.isAdmin && id in db.results
    ensures !r.outcome.IsSuccess() ==> r.after == db
    ensures r.outcome == NoContent ==>
      && r.after.results.Keys == db.results.Keys - {id}
      && (forall k | k in r.after.results :: r.after.results[k] == db.results[k])
      && r.after.users == db.users && r.after.nextId == db.nextId
    ensures Inv(db) ==> Inv(r.after)
  {
    if !caller.authenticated then Response(Unauthorized, db)
    else if !caller.isAdmin then Response(Forbidden, db)
    else if id !in db.results then Response(NotFound, db)
    else Response(NoContent, db.(results := db.results - {id}))
  }

  // ------------------------------------------------------------------ post

  /** The body names all three fields, none of them null. */
  predicate Complete(body: Payload) {
    body.result.Some? && body.user.Some? && body.date.Some?
  }

  /**
   * POST /results: authenticated, then admin, then all three fields present,
   * then the named user exists, then insert under the next identity value.
   */
  function Post(db: Db, caller: Caller, body: Payload): (r: Response)
    requires Inv(db)
    ensures !caller.authenticated ==> r.outcome == Unauthorized
    ensures caller.authenticated && !caller.isAdmin ==> r.outcome == Forbidden
    ensures r.outcome == UnprocessableEntity <==>
              caller.authenticated && caller.isAdmin && !Complete(body)
    ensures r.outcome == BadRequest <==>
              caller.authenticated && caller.isAdmin && Complete(body) && body.user.value !in db.users
    ensures r.outcome.Created? <==>
              caller.authenticated && caller.isAdmin && Complete(body) && body.user.value in db.users
    ensures !r.outcome.IsSuccess() ==> r.after == db
    ensures r.outcome.Created? ==>
      var rec := r.outcome.record;
      && rec.id > 0 && rec.id !in db.results
      && rec.id == db.nextId && r.after.nextId == db.nextId + 1
      && rec.result == body.result.value && rec.user == body.user.value && rec.date == body.date.value
      && r.after.results == db.results[rec.id := rec]
      && r.after.users == db.users
    ensures Inv(r.after)
  {
    if !caller.authenticated then Response(Unauthorized, db)
    else if !caller.isAdmin then Response(Forbidden, db)
    else if !Complete(body) then Response(UnprocessableEntity, db)
    else if body.user.value !in db.users then Response(BadRequest, db)
    else
      var rec := ResultRec(db.nextId, body.result.value, body.user.value, body.date.value);
      Response(Created(rec), db.(results := db.results[rec.id := rec], nextId := db.nextId + 1))
  }

  // ------------------------------------------------------------------- put

  /** The fields a put body carries; a body that does not decode carries none. */
  function Fields(body: Option<Payload>): Payload
  {
    body.GetOr(Payload(None, None, None))
  }

  /** The caller may edit `rec`: it is the result's user or an admin. */
  predicate MayEdit(caller: Caller, rec: ResultRec) {
    caller.id == rec.user || caller.isAdmin
  }

  /**
   * PUT /results/{id}: authenticated, then lookup, then owner-or-admin, then
   * a partial update: the user (checked to exist), the value and the date,
   * each only when the body carries it.
   */
  function Put(db: Db, caller: Caller, id: int, body: Option<Payload>): (r: Response)
    ensures !caller.authenticated ==> r.outcome == Unauthorized
    ensures caller.authenticated && id !in db.results ==> r.outcome == NotFound
    ensures caller.authenticated && id in db.results ==>
              (r.outcome == Forbidden <==> !MayEdit(caller, db.results[id]))
    ensures r.outcome == BadRequest <==>
              && caller.authenticated && id in db.results && MayEdit(caller, db.results[id])
              && Fields(body).user.Some? && Fields(body).user.value !in db.users
    ensures r.outcome.ContentReturned? <==>
              && caller.authenticated && id in db.results && MayEdit(caller, db.results[id])
              && (Fields(body).user.Some? ==> Fields(body).user.value in db.users)
    ensures !r.outcome.IsSuccess() ==> r.after == db
    ensures r.outcome.ContentReturned? ==>
      var was, rec := db.results[id], r.outcome.record;
      && rec.id == was.id
      && rec.result == Fields(body).result.GetOr(was.result)
      && rec.user == Fields(body).user.GetOr(was.user)
      && rec.date == Fields(body).date.GetOr(was.date)
      && r.after == db.(results := db.results[id := rec])
    ensures body.None? ==> r.after == db
    ensures Inv(db) ==> Inv(r.after)
  {
    if !caller.authenticated then Response(Unauthorized, db)
    else if id !in db.results then Response(NotFound, db)
    else
      var was := db.results[id];
      if !MayEdit(caller, was) then Response(Forbidden, db)
      else
        var fields := Fields(body);
        if fields.user.Some? && fields.user.value !in db.users then Response(BadRequest, db)
        else
          var rec := was.(user := fields.user.GetOr(was.user))
                        .(result := fields.result.GetOr(was.result))
                        .(date := fields.date.GetOr(was.date));
          Response(ContentReturned(rec), db.(results := db.results[id := rec]))
  }

  // ------------------------------------------------- properties across calls

  /** A second delete of the same id finds nothing, and so does a put of it. */
  lemma DeleteIsNotRepeated(db: Db, caller: Caller, id: int, body: Option<Payload>)
    requires Delete(db, caller, id).outcome == NoContent
    ensures var after := Delete(db, caller, id).after;
      && Delete(after, caller, id) == Response(NotFound, after)
      && Put(after, caller, id, body) == Response(NotFound, after)
  {
  }

  /** Deleting what a post created brings the stored results back to what they were. */
  lemma PostThenDeleteRestores(db: Db, caller: Caller, body: Payload)
    requires Inv(db)
    requires Post(db, caller, body).outcome.Created?
    ensures var r := Post(db, caller, body);
      var d := Delete(r.after, caller, r.outcome.record.id);
      d.outcome == NoContent && d.after.results == db.results
  {
  }

  /**
   * Ids are never handed out twice: a post after a delete never gives the
   * new result the id of the deleted one.
   */
  lemma DeletedIdIsNotReused(db: Db, admin: Caller, id: int, body: Payload)
    requires Inv(db)
    requires Delete(db, admin, id).outcome == NoContent
    ensures var r := Post(Delete(db, admin, id).after, admin, body);
      r.outcome.Created? ==> r.outcome.record.id != id
  {
  }

  /** Repeating a put leaves the database as the first put left it. */
  lemma PutIsIdempotent(db: Db, caller: Caller, id: int, body: Option<Payload>)
    ensures var once := Put(db, caller, id, body).after;
      Put(once, caller, id, body).after == once
  {
  }
}
