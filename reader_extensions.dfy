/**
 * DBReaderExtensions: the lazy iterator over a reader and the eager ToList
 * that drains it.
 *
 * `RowEnumerator` is the object the C# compiler builds for the private
 * `yield` iterator `AsEnumerable(reader, mapper)`: creating it runs nothing,
 * and each `MoveNext` runs the iterator body up to its next `yield return`
 * or to its end.  Its methods are specified by the state machine of module
 * Enumeration, whose lemmas carry the properties of the adapter.
 */
module ReaderExtensions {
  import opened Wrappers
  import opened DataReaders
  import opened Enumeration

  class RowEnumerator<Row, T> {
    const reader: DataReader<Row>
    const mapper: Row -> T
    var phase: Phase
    var current: Option<T>

    ghost function State(): Enumerator<Row, T>
      reads this, reader
    {
      Enumerator(phase, reader.State(), current)
    }

    /**
     * The call of the private AsEnumerable: the mapper is fixed now, and the
     * reader is neither read nor changed until the first MoveNext.
     */
    constructor (reader: DataReader<Row>, mapper: Row -> T)
      requires Valid(reader.State()) && !reader.disposed
      ensures this.reader == reader && this.mapper == mapper
      ensures State() == Start(old(reader.State()))
      ensures unchanged(reader)
    {
      this.reader := reader;
      this.mapper := mapper;
      phase := NotStarted;
      current := None;
    }

    /** Runs the iterator body up to its next yield, or to its end. */
    method MoveNext() returns (more: bool)
      requires Ready(State())
      modifies this, reader
      ensures (more, State()) == Enumeration.MoveNext(old(State()), mapper)
    {
      if phase == Finished {
        return false;
      }
      var found := reader.Read();
      if found {
        current := Some(mapper(reader.Current()));
        phase := Reading;
        more := true;
      } else {
        var advanced := reader.NextResult();
        if !advanced {
          reader.Dispose();
        }
        phase := Finished;
        current := None;
        more := false;
      }
    }

    /** Enumerable.ToList: pulls items until the iterator finishes. */
    method ToList() returns (items: seq<T>)
      requires Ready(State())
      modifies this, reader
      ensures (items, State()) == Drain(old(State()), mapper)
    {
      ghost var whole := Drain(State(), mapper);
      items := [];
      while true
        invariant Ready(State())
        invariant items + Drain(State(), mapper).0 == whole.0
        invariant Drain(State(), mapper).1 == whole.1
        decreases Measure(State())
      {
        ghost var before := State();
        DrainUnfold(before, mapper);
        var more := MoveNext();
        if !more {
          assert items + [] == items;
          break;
        }
        ghost var rest := Drain(State(), mapper).0;
        assert (items + [current.value]) + rest == items + ([current.value] + rest);
        items := items + [current.value];
      }
    }
  }

  /**
   * The IEnumerable<T> the public AsEnumerable overloads return.  It holds
   * the reader and the mapper; every GetEnumerator starts a new run of the
   * iterator body over the reader as it stands at that moment, so enumerating
   * it a second time continues with the result set the first run left open.
   */
  class RowEnumerable<Row, T> {
    const reader: DataReader<Row>
    const mapper: Row -> T

    /** The public AsEnumerable: fixes the mapper and touches no reader. */
    constructor (reader: DataReader<Row>, mapper: Row -> T)
      ensures this.reader == reader && this.mapper == mapper
    {
      this.reader := reader;
      this.mapper := mapper;
    }

    /** A new run of the iterator body, not yet started. */
    method GetEnumerator() returns (e: RowEnumerator<Row, T>)
      requires Valid(reader.State()) && !reader.disposed
      ensures fresh(e) && e.reader == reader && e.mapper == mapper
      ensures e.State() == Start(reader.State())
      ensures unchanged(reader)
    {
      e := new RowEnumerator(reader, mapper);
    }

    /** Enumerable.ToList on the enumerable: a new enumeration, drained to its end. */
    method ToList() returns (items: seq<T>)
      requires Valid(reader.State()) && !reader.disposed
      modifies reader
      ensures items == Drain(Start<Row, T>(old(reader.State())), mapper).0
      ensures reader.State() == Drain(Start<Row, T>(old(reader.State())), mapper).1.cursor
    {
      var e := GetEnumerator();
      items := e.ToList();
    }
  }

  /**
   * `reader.AsEnumerable<T>().ToList()` for any row mapper: every ToList
   * overload is this call with the mapper its AsEnumerable overload builds.
   * The list holds the mapper applied to every remaining row of the current
   * result set, in order; the reader is then disposed exactly when no result
   * set follows, and otherwise sits at the start of the next one.
   */
  method ToList<Row, T>(reader: DataReader<Row>, mapper: Row -> T) returns (items: seq<T>)
    requires Valid(reader.State()) && !reader.disposed
    modifies reader
    ensures |items| == |Remaining(old(reader.State()))|
    ensures forall i :: 0 <= i < |items| ==> items[i] == mapper(Remaining(old(reader.State()))[i])
    ensures reader.State() == Exhausted(old(reader.State()))
    ensures reader.disposed <==> !HasNextSet(old(reader.State()))
    ensures HasNextSet(old(reader.State())) ==>
              reader.setIdx == old(reader.setIdx) + 1 && reader.rowIdx == 0
  {
    var xs := new RowEnumerable(reader, mapper);
    items := xs.ToList();
    FullEnumeration(old(reader.State()), mapper);
  }
}
