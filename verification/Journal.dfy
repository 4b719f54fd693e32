/** What a client has written, and every state it passed through: a crash may leave any of them. */
module Journals {
  class Journal<T> {
    const start: T
    var writes: seq<T>

    constructor (start: T)
      ensures this.start == start && writes == []
    {
      this.start, writes := start, [];
    }

    /** What stands there now. */
    function Current(): T
      reads this
    {
      if writes == [] then start else writes[|writes| - 1]
    }

    method Write(next: T)
      modifies this
      ensures writes == old(writes) + [next] && Current() == next
    {
      writes := writes + [next];
    }
  }

  /** The state after an attempt that died when `survives` of its writes had been made. */
  function Left<T>(start: T, writes: seq<T>, survives: nat): (t: T)
    ensures t == start || t in writes
  {
    if writes == [] || survives == 0 then start
    else if survives < |writes| then writes[survives - 1] else writes[|writes| - 1]
  }
}
