/** The two shared objects the supervisor's tasks hand work through: an
    unbounded FIFO queue and a set/clear event flag. Only their sequential
    effect on the contents is modelled; blocking is not. */
module Sync {

  /** An unbounded FIFO queue, front first. */
  class Queue<T> {
    var items: seq<T>

    constructor ()
      ensures items == []
    {
      items := [];
    }

    /** Never blocks: the item joins the back. */
    method Put(x: T)
      modifies this
      ensures items == old(items) + [x]
    {
      items := items + [x];
    }

    /** Takes the front item. A real `get` waits for an item; a sequential
        caller gets here only once one is there. */
    method Get() returns (x: T)
      requires items != []
      modifies this
      ensures [x] + items == old(items)
    {
      x := items[0];
      items := items[1..];
    }

    method Empty() returns (e: bool)
      ensures e <==> |items| == 0
    {
      e := items == [];
    }
  }

  /** A level-triggered flag. */
  class Event {
    var flag: bool

    constructor ()
      ensures !flag
    {
      flag := false;
    }

    method Set()
      modifies this
      ensures flag
    {
      flag := true;
    }

    method IsSet() returns (b: bool)
      ensures b == flag
    {
      b := flag;
    }
  }
}
