/** One request at a time, told apart from earlier ones by an id that is never reused. */
module Loader {

  /** The process-wide counter of request ids. */
  class RequestIds {
    var last: nat
    constructor () ensures last == 0 { last := 0; }

    method Next() returns (id: nat)
      modifies this
      ensures id == last == old(last) + 1
    {
      last := last + 1;
      id := last;
    }
  }

  class Loader {
    const ids: RequestIds
    var reqID: nat
    var pending: bool

    ghost predicate Valid()
      reads this, ids
    {
      reqID <= ids.last
    }

    constructor (ids: RequestIds)
      ensures Valid() && this.ids == ids && !pending && reqID == 0
    {
      this.ids, reqID, pending := ids, 0, false;
    }

    /** A new request replaces the one before it: no reply dispatched so far can match. */
    method Start() returns (id: nat)
      modifies this, ids
      ensures Valid() && pending && reqID == id == ids.last == old(ids.last) + 1
    {
      id := ids.Next();
      reqID, pending := id, true;
    }

    /** Accepts the reply to the pending request, once. */
    method Finish(id: nat) returns (ok: bool)
      modifies this
      ensures ok == (id == old(reqID) && old(pending))
      ensures reqID == old(reqID) && pending == (old(pending) && !ok)
    {
      if id != reqID || !pending {
        return false;
      }
      pending := false;
      ok := true;
    }

    method Stop() returns (stopped: bool)
      modifies this
      ensures stopped == old(pending) && !pending && reqID == old(reqID)
    {
      stopped := pending;
      pending := false;
    }
  }
}
