/**
 * The Result entity: one score of a user at a date. The object is mutable;
 * its id is assigned by the database when it is first stored and no setter
 * touches it afterwards.
 */
module Entity {

  import opened Wrappers

  /** Users are referred to by their id; the User entity is not part of this model. */
  type UserId = int

  /** A point in time, kept opaque: the model only stores and compares dates. */
  datatype Date = Date(stamp: int)

  /** The value of a Result object at one moment. */
  datatype ResultRec = ResultRec(id: int, result: int, user: UserId, date: Date)

  class Result {
    var id: int
    var result: int
    var user: UserId
    var date: Date

    /**
     * A new, not yet stored Result. Its id is 0 until the database assigns
     * one. `clock` is the current time, used only when no date is given.
     */
    constructor (result: int, user: UserId, date: Option<Date>, clock: Date)
      ensures GetId() == 0
      ensures GetResult() == result && GetUser() == user
      ensures date.Some? ==> GetDate() == date.value
      ensures date.None? ==> GetDate() == clock
    {
      this.id := 0;
      this.result := result;
      this.user := user;
      if date.None? {
        this.date := clock;
      } else {
        this.date := date.value;
      }
    }

    /** The current value of all four fields. */
    function Snapshot(): (r: ResultRec)
      reads this
    {
      ResultRec(id, result, user, date)
    }

    function GetId(): int
      reads this
    {
      id
    }

    function GetResult(): int
      reads this
    {
      result
    }

    function GetUser(): UserId
      reads this
    {
      user
    }

    function GetDate(): Date
      reads this
    {
      date
    }

    method SetUser(u: UserId)
      modifies this
      ensures GetUser() == u
      ensures GetId() == old(GetId())
      ensures GetResult() == old(GetResult()) && GetDate() == old(GetDate())
    {
      user := u;
    }

    method SetResult(v: int)
      modifies this
      ensures GetResult() == v
      ensures GetId() == old(GetId())
      ensures GetUser() == old(GetUser()) && GetDate() == old(GetDate())
    {
      result := v;
    }

    method SetDate(d: Date)
      modifies this
      ensures GetDate() == d
      ensures GetId() == old(GetId())
      ensures GetResult() == old(GetResult()) && GetUser() == old(GetUser())
    {
      date := d;
    }
  }
}
