/**
 * A forward-only data reader over one or more result sets, reduced to the
 * three operations the enumeration adapter uses: Read, NextResult and Dispose.
 *
 * The value `Cursor` is the reader's abstract state; `ReadStep`,
 * `NextResultStep` and `DisposeStep` say what each operation does to it, and
 * the class `DataReader` implements them on mutable fields.  Every call is
 * recorded, with what it returned, in `calls`, so that the order of the calls
 * the adapter makes can be stated.
 */
module DataReaders {

  /** One call made on the reader, together with its return value. */
  datatype Call = ReadCall(found: bool) | NextResultCall(advanced: bool) | DisposeCall

  /**
   * `sets` holds every result set of the command, `setIdx` is the current
   * result set (`|sets|` once NextResult has reported that none is left),
   * `rowIdx` is the number of rows of the current set already read, so the
   * row the reader is positioned on is `sets[setIdx][rowIdx - 1]`.
   */
  datatype Cursor<Row> = Cursor(
    sets: seq<seq<Row>>,
    setIdx: nat,
    rowIdx: nat,
    disposed: bool,
    calls: seq<Call>)

  predicate Valid<Row>(c: Cursor<Row>)
  {
    && c.setIdx <= |c.sets|
    && (c.setIdx < |c.sets| ==> c.rowIdx <= |c.sets[c.setIdx]|)
    && (c.setIdx == |c.sets| ==> c.rowIdx == 0)
  }

  /** The rows of the current result set that have not been read yet. */
  function Remaining<Row>(c: Cursor<Row>): seq<Row>
    requires Valid(c)
  {
    if c.setIdx < |c.sets| then c.sets[c.setIdx][c.rowIdx..] else []
  }

  /** Whether a result set follows the current one. */
  predicate HasNextSet<Row>(c: Cursor<Row>)
  {
    c.setIdx + 1 < |c.sets|
  }

  /** The row the reader is positioned on. */
  function CurrentRow<Row>(c: Cursor<Row>): Row
    requires Valid(c) && c.setIdx < |c.sets| && 0 < c.rowIdx
  {
    c.sets[c.setIdx][c.rowIdx - 1]
  }

  /**
   * IDataReader.Read: moves to the next row of the current result set and
   * reports whether there was one; at the end of the set it stays put.
   */
  function ReadStep<Row>(c: Cursor<Row>): (r: (bool, Cursor<Row>))
    requires Valid(c) && !c.disposed
    ensures Valid(r.1) && !r.1.disposed
    ensures r.1.sets == c.sets && r.1.setIdx == c.setIdx
    ensures r.0 <==> Remaining(c) != []
    ensures r.0 ==> r.1.rowIdx == c.rowIdx + 1 && CurrentRow(r.1) == Remaining(c)[0]
    ensures r.0 ==> Remaining(r.1) == Remaining(c)[1..]
    ensures !r.0 ==> r.1.rowIdx == c.rowIdx
    ensures r.1.calls == c.calls + [ReadCall(r.0)]
  {
    if c.setIdx < |c.sets| && c.rowIdx < |c.sets[c.setIdx]| then
      (true, c.(rowIdx := c.rowIdx + 1, calls := c.calls + [ReadCall(true)]))
    else
      (false, c.(calls := c.calls + [ReadCall(false)]))
  }

  /**
   * IDataReader.NextResult: moves to the start of the next result set,
   * skipping any unread rows of the current one, and reports whether there
   * was one; when there is none the reader is left with no current set.
   */
  function NextResultStep<Row>(c: Cursor<Row>): (r: (bool, Cursor<Row>))
    requires Valid(c) && !c.disposed
    ensures Valid(r.1) && !r.1.disposed && r.1.sets == c.sets
    ensures r.0 <==> HasNextSet(c)
    ensures r.0 ==> r.1.setIdx == c.setIdx + 1 && Remaining(r.1) == c.sets[c.setIdx + 1]
    ensures !r.0 ==> Remaining(r.1) == [] && !HasNextSet(r.1)
    ensures r.1.rowIdx == 0
    ensures r.1.calls == c.calls + [NextResultCall(r.0)]
  {
    if HasNextSet(c) then
      (true, c.(setIdx := c.setIdx + 1, rowIdx := 0, calls := c.calls + [NextResultCall(true)]))
    else
      (false, c.(setIdx := |c.sets|, rowIdx := 0, calls := c.calls + [NextResultCall(false)]))
  }

  /** IDisposable.Dispose: releases the reader; calling it again is harmless. */
  function DisposeStep<Row>(c: Cursor<Row>): (r: Cursor<Row>)
    ensures r.disposed
    ensures r.sets == c.sets && r.setIdx == c.setIdx && r.rowIdx == c.rowIdx
    ensures r.calls == c.calls + [DisposeCall]
  {
    c.(disposed := true, calls := c.calls + [DisposeCall])
  }

  /** The reader as an object whose state its methods update in place. */
  class DataReader<Row> {
    const sets: seq<seq<Row>>
    var setIdx: nat
    var rowIdx: nat
    var disposed: bool
    ghost var calls: seq<Call>

    ghost function State(): Cursor<Row>
      reads this
    {
      Cursor(sets, setIdx, rowIdx, disposed, calls)
    }

    /** A freshly executed command: positioned before the first row of the first set. */
    constructor (sets: seq<seq<Row>>)
      ensures State() == Cursor(sets, 0, 0, false, [])
      ensures Valid(State())
    {
      this.sets := sets;
      setIdx := 0;
      rowIdx := 0;
      disposed := false;
      calls := [];
    }

    /** The row the reader is positioned on, as a mapper sees it. */
    function Current(): (row: Row)
      reads this
      requires Valid(State()) && setIdx < |sets| && 0 < rowIdx
      ensures row == CurrentRow(State())
    {
      sets[setIdx][rowIdx - 1]
    }

    method Read() returns (found: bool)
      requires Valid(State()) && !disposed
      modifies this
      ensures (found, State()) == ReadStep(old(State()))
    {
      found := setIdx < |sets| && rowIdx < |sets[setIdx]|;
      if found {
        rowIdx := rowIdx + 1;
      }
      calls := calls + [ReadCall(found)];
    }

    method NextResult() returns (advanced: bool)
      requires Valid(State()) && !disposed
      modifies this
      ensures (advanced, State()) == NextResultStep(old(State()))
    {
      advanced := setIdx + 1 < |sets|;
      if advanced {
        setIdx := setIdx + 1;
      } else {
        setIdx := |sets|;
      }
      rowIdx := 0;
      calls := calls + [NextResultCall(advanced)];
    }

    method Dispose()
      modifies this
      ensures State() == DisposeStep(old(State()))
    {
      disposed := true;
      calls := calls + [DisposeCall];
    }
  }
}
