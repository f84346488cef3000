/** Paging parameters (lang/Query.java): a page `index` and page size `limit`, with the
    derived first and last row positions `start` and `end` recomputed by every setter. The
    fields are Java `int`s, so the products and sums wrap modulo 2^32. */
module Paging {
  import opened Primitives

  /** The `start` a page has: `index * limit` in `int` arithmetic. */
  function StartOf(index: int, limit: int): (r: int)
    ensures IsInt32(r)
    ensures IsInt32(index * limit) ==> r == index * limit
  {
    Wrap32(index * limit)
  }

  /** The `end` a page has: `start + limit - 1` in `int` arithmetic, which wraps once for
      the whole sum. */
  function EndOf(start: int, limit: int): (r: int)
    ensures IsInt32(r)
    ensures IsInt32(start + limit - 1) ==> r == start + limit - 1
  {
    Wrap32(start + limit - 1)
  }

  /** Without overflow, a page covers exactly `limit` positions, and page `index + 1` starts
      right after page `index` ends. */
  lemma PagesAdjacent(index: int, limit: int)
    requires IsInt32((index + 1) * limit) && IsInt32(index * limit) && IsInt32(index * limit + limit - 1)
    ensures EndOf(StartOf(index, limit), limit) - StartOf(index, limit) + 1 == limit
    ensures StartOf(index + 1, limit) == EndOf(StartOf(index, limit), limit) + 1
  {
    assert (index + 1) * limit == index * limit + limit;
  }

  class Query {
    var index: int
    var limit: int
    var start: int
    var end: int

    /** The derived fields agree with `index` and `limit`. */
    ghost predicate Valid()
      reads this
    {
      IsInt32(index) && IsInt32(limit) && start == StartOf(index, limit) && end == EndOf(start, limit)
    }

    /** `Query()`: `setIndex(0)` then `setLimit(10)`. */
    constructor Default()
      ensures Valid() && index == 0 && limit == 10 && start == 0 && end == 9
    {
      index, limit, start, end := 0, 0, 0, 0;
      new;
      SetIndex(0);
      SetLimit(10);
    }

    /** `Query(index, limit)`: `setIndex(index)` then `setLimit(limit)`. */
    constructor (index: int, limit: int)
      requires IsInt32(index) && IsInt32(limit)
      ensures Valid() && this.index == index && this.limit == limit
    {
      this.index, this.limit, start, end := 0, 0, 0, 0;
      new;
      SetIndex(index);
      SetLimit(limit);
    }

    /** `setIndex(index)`: the new index, the derived fields recomputed, the limit kept. */
    method SetIndex(index: int)
      requires IsInt32(index) && IsInt32(limit)
      modifies this
      ensures Valid() && this.index == index && limit == old(limit)
    {
      this.index := index;
      SetStart();
      SetEnd();
    }

    /** `setLimit(limit)`: the new limit, the derived fields recomputed, the index kept. */
    method SetLimit(limit: int)
      requires IsInt32(index) && IsInt32(limit)
      modifies this
      ensures Valid() && this.limit == limit && index == old(index)
    {
      this.limit := limit;
      SetStart();
      SetEnd();
    }

    /** `setStart()`: `start = index * limit`. */
    method SetStart()
      modifies this
      ensures start == StartOf(index, limit)
      ensures index == old(index) && limit == old(limit) && end == old(end)
    {
      start := Wrap32(index * limit);
    }

    /** `setEnd()`: `end = start + limit - 1`, evaluated left to right with a wrap after each
        operation, which is the same as one wrap of the exact sum. */
    method SetEnd()
      modifies this
      ensures end == EndOf(start, limit)
      ensures index == old(index) && limit == old(limit) && start == old(start)
    {
      var sum := Wrap32(start + limit);
      Wrap32Congruent(sum - 1, start + limit - 1);
      end := Wrap32(sum - 1);
    }
  }
}
