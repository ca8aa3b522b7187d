/**
  The part of the SQLAlchemy session (`db_session()`) the handlers use:
  objects handed to `session.add` wait until `session.commit` stores them.
  Changes to attributes of objects already stored are not tracked here;
  the handlers' effects on them are stated on the objects themselves.
 */
module Database {

  class Session {
    /** Objects added since the last commit. */
    var pending: seq<object>
    /** Objects stored by earlier commits, in the order they were added. */
    var committed: seq<object>

    constructor ()
      ensures pending == [] && committed == []
    {
      pending, committed := [], [];
    }

    /** `session.add(o)` */
    method Add(o: object)
      modifies this
      ensures pending == old(pending) + [o] && committed == old(committed)
    {
      pending := pending + [o];
    }

    /** `session.commit()` */
    method Commit()
      modifies this
      ensures pending == [] && committed == old(committed) + old(pending)
    {
      committed := committed + pending;
      pending := [];
    }
  }
}
