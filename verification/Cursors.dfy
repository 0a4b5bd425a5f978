/** A cursor over one sorted run of entries: the behaviour every internal iterator must show. */
module Cursors {
  import opened Keys

  // Positions run from 0; the length of the run stands for "not valid".

  function LastPos(es: seq<Entry>): nat {
    if es == [] then 0 else |es| - 1
  }

  function NextPos(es: seq<Entry>, pos: nat): nat
    requires pos < |es|
  {
    pos + 1
  }

  /** Stepping back from the first entry leaves the cursor not valid. */
  function PrevPos(es: seq<Entry>, pos: nat): nat
    requires pos < |es|
  {
    if pos == 0 then |es| else pos - 1
  }

  class Cursor {
    const es: seq<Entry>
    var pos: nat

    constructor (es: seq<Entry>)
      ensures this.es == es && pos == |es|
    {
      this.es, pos := es, |es|;
    }

    predicate Valid()
      reads this
    {
      pos < |es|
    }

    /** How many entries lie before the cursor, counting its own when it is valid. */
    ghost function Left(): nat
      reads this
    {
      if pos < |es| then pos + 1 else 0
    }

    function Entry(): Entry
      requires Valid()
      reads this
    {
      es[pos]
    }

    method Next()
      requires Valid()
      modifies this
      ensures pos == NextPos(es, old(pos))
    {
      pos := pos + 1;
    }

    method Prev()
      requires Valid()
      modifies this
      ensures pos == PrevPos(es, old(pos))
    {
      pos := if pos == 0 then |es| else pos - 1;
    }

    method SeekToFirst()
      modifies this
      ensures pos == 0
    {
      pos := 0;
    }

    method SeekToLast()
      modifies this
      ensures pos == LastPos(es)
    {
      pos := if |es| == 0 then 0 else |es| - 1;
    }

    method Seek(k: InternalKey)
      modifies this
      ensures pos == SeekPos(es, k)
    {
      pos := SeekPos(es, k);
    }
  }
}
