/**
 * The command controller over the database it manages. The stored results
 * are Result objects; put edits the fetched object in place through its
 * setters, delete removes it, post constructs a new one and stores it under
 * the next identity value. Each action is proved to answer and to leave the
 * database exactly as the matching function of module Commands says.
 */
module Controller {

  import opened Wrappers
  import opened Entity
  import opened Commands

  class ResultStore {
    /** The stored Result objects by id. */
    var records: map<int, Result>
    /** The ids of the existing users. */
    var users: set<UserId>
    /** The value the identity column hands out next. */
    var nextId: int

    /** Every object sits under its own id, so no two ids share an object. */
    ghost predicate Valid()
      reads this, records.Values
    {
      && (forall k | k in records :: records[k].id == k)
      && Inv(Abstract())
    }

    /** The database these objects stand for. */
    ghost function Abstract(): Db
      reads this, records.Values
    {
      Db(map k | k in records :: records[k].Snapshot(), users, nextId)
    }

    /** An empty results table beside the given users. */
    constructor (users: set<UserId>)
      ensures Valid()
      ensures records == map[]
      ensures Abstract() == Db(map[], users, 1)
    {
      this.records := map[];
      this.users := users;
      this.nextId := 1;
    }

    method DeleteAction(caller: Caller, id: int) returns (outcome: Outcome)
      requires Valid()
      modifies this
      ensures Valid()
      ensures Response(outcome, Abstract()) == Delete(old(Abstract()), caller, id)
      ensures records == if outcome == NoContent then old(records) - {id} else old(records)
    {
      if !caller.authenticated {
        return Unauthorized;
      }
      if !caller.isAdmin {
        return Forbidden;
      }
      if id !in records {
        return NotFound;
      }
      records := records - {id};
      assert Abstract().results == old(Abstract()).results - {id};
      return NoContent;
    }

    method PostAction(caller: Caller, body: Payload) returns (outcome: Outcome)
      requires Valid()
      modifies this
      ensures Valid()
      ensures fresh(records.Values - old(records.Values))
      ensures Response(outcome, Abstract()) == Post(old(Abstract()), caller, body)
      ensures !outcome.Created? ==> records == old(records)
      ensures outcome.Created? ==>
        var k := outcome.record.id;
        && k !in old(records) && k in records && fresh(records[k])
        && records == old(records)[k := records[k]]
    {
      if !caller.authenticated {
        return Unauthorized;
      }
      if !caller.isAdmin {
        return Forbidden;
      }
      if !Complete(body) {
        return UnprocessableEntity;
      }
      if body.user.value !in users {
        return BadRequest;
      }
      // The date is always given, so the constructor does not read the clock.
      var entity := new Result(body.result.value, body.user.value, body.date, body.date.value);
      // Persisting: the identity column assigns the id.
      entity.id := nextId;
      records := records[nextId := entity];
      nextId := nextId + 1;
      assert Abstract().results == old(Abstract()).results[entity.id := entity.Snapshot()];
      return Created(entity.Snapshot());
    }

    method PutAction(caller: Caller, id: int, body: Option<Payload>) returns (outcome: Outcome)
      requires Valid()
      modifies records.Values
      ensures Valid()
      ensures Response(outcome, Abstract()) == Put(old(Abstract()), caller, id, body)
    {
      if !caller.authenticated {
        return Unauthorized;
      }
      if id !in records {
        return NotFound;
      }
      var entity := records[id];
      if caller.id != entity.GetUser() && !caller.isAdmin {
        return Forbidden;
      }
      // Only `entity` is edited below: every other id holds another object.
      assert forall k | k in records && k != id :: records[k] != entity;
      var fields := Fields(body);
      if fields.user.Some? {
        if fields.user.value !in users {
          return BadRequest;
        }
        entity.SetUser(fields.user.value);
      }
      if fields.result.Some? {
        entity.SetResult(fields.result.value);
      }
      if fields.date.Some? {
        entity.SetDate(fields.date.value);
      }
      assert Abstract().results == old(Abstract()).results[id := entity.Snapshot()];
      return ContentReturned(entity.Snapshot());
    }
  }
}
