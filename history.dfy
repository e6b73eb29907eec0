/**
 * Sequences of requests handled one after another, and what the checks of
 * each action guarantee over any such sequence.
 */
module History {

  import opened Wrappers
  import opened Entity
  import opened Commands

  datatype Request =
    | DeleteRequest(caller: Caller, id: int)
    | PostRequest(caller: Caller, payload: Payload)
    | PutRequest(caller: Caller, id: int, body: Option<Payload>)

  /** One request, routed to its action. */
  function Handle(db: Db, req: Request): (r: Response)
    requires Inv(db)
    ensures Inv(r.after) && r.after.users == db.users
    ensures !r.outcome.IsSuccess() ==> r.after == db
    ensures !req.caller.authenticated ==> r == Response(Unauthorized, db)
  {
    match req
    case DeleteRequest(c, id) => Delete(db, c, id)
    case PostRequest(c, body) => Post(db, c, body)
    case PutRequest(c, id, body) => Put(db, c, id, body)
  }

  /** The database after handling `reqs` in order. */
  function Replay(db: Db, reqs: seq<Request>): (final: Db)
    requires Inv(db)
    ensures Inv(final) && final.users == db.users
    decreases |reqs|
  {
    if reqs == [] then db else Replay(Handle(db, reqs[0]).after, reqs[1..])
  }

  /** Requests by callers who are not logged in change nothing at all. */
  lemma {:induction false} AnonymousRequestsChangeNothing(db: Db, reqs: seq<Request>)
    requires Inv(db)
    requires forall i | 0 <= i < |reqs| :: !reqs[i].caller.authenticated
    ensures Replay(db, reqs) == db
    decreases |reqs|
  {
    if reqs != [] {
      AnonymousRequestsChangeNothing(db, reqs[1..]);
    }
  }

  /** Without the admin role nobody creates or deletes a result. */
  lemma {:induction false} NonAdminsKeepTheIds(db: Db, reqs: seq<Request>)
    requires Inv(db)
    requires forall i | 0 <= i < |reqs| :: !reqs[i].caller.isAdmin
    ensures Replay(db, reqs).results.Keys == db.results.Keys
    decreases |reqs|
  {
    if reqs != [] {
      NonAdminsKeepTheIds(Handle(db, reqs[0]).after, reqs[1..]);
    }
  }

  /** One request of a non-admin leaves alone every result the caller's user does not own. */
  lemma HandleSparesOthers(db: Db, req: Request, k: int)
    requires Inv(db) && !req.caller.isAdmin
    requires k in db.results && db.results[k].user != req.caller.id
    ensures k in Handle(db, req).after.results
    ensures Handle(db, req).after.results[k] == db.results[k]
  {
  }

  /**
   * However many requests one non-admin user sends, the results owned by
   * other users stay exactly as they were.
   */
  lemma {:induction false} OthersResultsAreUntouched(db: Db, uid: UserId, reqs: seq<Request>, k: int)
    requires Inv(db)
    requires forall i | 0 <= i < |reqs| :: reqs[i].caller.id == uid && !reqs[i].caller.isAdmin
    requires k in db.results && db.results[k].user != uid
    ensures k in Replay(db, reqs).results
    ensures Replay(db, reqs).results[k] == db.results[k]
    decreases |reqs|
  {
    if reqs != [] {
      HandleSparesOthers(db, reqs[0], k);
      OthersResultsAreUntouched(Handle(db, reqs[0]).after, uid, reqs[1..], k);
    }
  }
}
