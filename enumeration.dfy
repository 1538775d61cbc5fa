/**
 * The enumeration adapter as a state machine on values.
 *
 * The private `AsEnumerable(reader, mapper)` of DbReaderExtensions is a C#
 * `yield` iterator: nothing runs until the first MoveNext; each MoveNext
 * resumes the `while (reader.Read())` loop and either yields
 * `mapper(reader)` or, once Read has returned false, calls NextResult,
 * disposes the reader if that returned false, and finishes.  `MoveNext`
 * below is one resumption, `Pull` is a consumer that asks for at most k
 * items and then abandons the iterator, and `Drain` is a consumer that asks
 * until the iterator finishes, as `ToList` does.
 */
module Enumeration {
  import opened Wrappers
  import opened DataReaders

  /** Where the iterator's body is suspended. */
  datatype Phase = NotStarted | Reading | Finished

  /** The iterator: its phase, the reader it drives and the last item it yielded. */
  datatype Enumerator<Row, T> = Enumerator(phase: Phase, cursor: Cursor<Row>, current: Option<T>)

  /** The reader is consistent, and open for as long as the iterator may still use it. */
  predicate Ready<Row, T>(e: Enumerator<Row, T>)
  {
    Valid(e.cursor) && (e.phase != Finished ==> !e.cursor.disposed)
  }

  /** The iterator as returned by the call, before anything has been pulled. */
  function Start<Row, T>(c: Cursor<Row>): (e: Enumerator<Row, T>)
    requires Valid(c) && !c.disposed
    ensures Ready(e) && e.phase == NotStarted && e.cursor == c
  {
    Enumerator(NotStarted, c, None)
  }

  /** Reference meaning of the items: the mapper applied to each row, in order. */
  function MapRows<Row, T>(mapper: Row -> T, rows: seq<Row>): seq<T>
  {
    if rows == [] then [] else [mapper(rows[0])] + MapRows(mapper, rows[1..])
  }

  /** n calls of Read that each found a row. */
  function Reads(n: nat): seq<Call>
  {
    if n == 0 then [] else [ReadCall(true)] + Reads(n - 1)
  }

  /** The calls that end the iterator: a failed Read, NextResult, and Dispose if NextResult failed. */
  function Ending(hasNext: bool): seq<Call>
  {
    [ReadCall(false), NextResultCall(hasNext)] + (if hasNext then [] else [DisposeCall])
  }

  /** The reader after one successful Read. */
  function Advanced<Row>(c: Cursor<Row>): Cursor<Row>
  {
    c.(rowIdx := c.rowIdx + 1, calls := c.calls + [ReadCall(true)])
  }

  /**
   * Reference state of the reader once every remaining row of the current set
   * has been read and the iterator has finished: positioned at the start of
   * the next set, or, if there is none, without a current set and disposed.
   */
  function Exhausted<Row>(c: Cursor<Row>): Cursor<Row>
    requires Valid(c)
  {
    var calls := c.calls + Reads(|Remaining(c)|) + Ending(HasNextSet(c));
    if HasNextSet(c) then c.(setIdx := c.setIdx + 1, rowIdx := 0, calls := calls)
    else c.(setIdx := |c.sets|, rowIdx := 0, disposed := true, calls := calls)
  }

  /** How many more MoveNext calls can still find the iterator unfinished. */
  function Measure<Row, T>(e: Enumerator<Row, T>): nat
    requires Valid(e.cursor)
  {
    if e.phase == Finished then 0 else |Remaining(e.cursor)| + 1
  }

  /** One resumption of the iterator body. */
  function MoveNext<Row, T>(e: Enumerator<Row, T>, mapper: Row -> T): (r: (bool, Enumerator<Row, T>))
    requires Ready(e)
    ensures Ready(r.1) && r.1.cursor.sets == e.cursor.sets
    ensures e.phase == Finished ==> r == (false, e)
    ensures e.phase != Finished ==> (r.0 <==> Remaining(e.cursor) != [])
    ensures r.0 ==> Measure(r.1) < Measure(e)
    ensures r.0 ==> Remaining(e.cursor) != [] &&
                    r.1 == Enumerator(Reading, Advanced(e.cursor), Some(mapper(Remaining(e.cursor)[0])))
    ensures e.phase != Finished && !r.0 ==> r.1 == Enumerator(Finished, Exhausted(e.cursor), None)
  {
    if e.phase == Finished then (false, e)
    else
      var (found, c1) := ReadStep(e.cursor);
      if found then
        (true, Enumerator(Reading, c1, Some(mapper(CurrentRow(c1)))))
      else
        var (advanced, c2) := NextResultStep(c1);
        (false, Enumerator(Finished, if advanced then c2 else DisposeStep(c2), None))
  }

  /** A consumer that pulls at most k items and then stops asking. */
  function Pull<Row, T>(e: Enumerator<Row, T>, mapper: Row -> T, k: nat): (r: (seq<T>, Enumerator<Row, T>))
    requires Ready(e)
    ensures Ready(r.1) && |r.0| <= k
    decreases k
  {
    if k == 0 then ([], e)
    else
      var step := MoveNext(e, mapper);
      if step.0 then
        var rest := Pull(step.1, mapper, k - 1);
        ([step.1.current.value] + rest.0, rest.1)
      else ([], step.1)
  }

  /** A consumer that pulls until the iterator finishes. */
  function Drain<Row, T>(e: Enumerator<Row, T>, mapper: Row -> T): (r: (seq<T>, Enumerator<Row, T>))
    requires Ready(e)
    ensures Ready(r.1) && r.1.phase == Finished
    decreases Measure(e)
  {
    var step := MoveNext(e, mapper);
    if step.0 then
      var rest := Drain(step.1, mapper);
      ([step.1.current.value] + rest.0, rest.1)
    else ([], step.1)
  }

  /** One step of draining: a pull, then the drain of what is left. */
  lemma DrainUnfold<Row, T>(e: Enumerator<Row, T>, mapper: Row -> T)
    requires Ready(e)
    ensures var step := MoveNext(e, mapper);
      Drain(e, mapper) == if step.0 then ([step.1.current.value] + Drain(step.1, mapper).0, Drain(step.1, mapper).1)
                          else ([], step.1)
  {
  }

  /** One step of pulling: a pull, then at most k - 1 more. */
  lemma PullUnfold<Row, T>(e: Enumerator<Row, T>, mapper: Row -> T, k: nat)
    requires Ready(e) && 0 < k
    ensures var step := MoveNext(e, mapper);
      Pull(e, mapper, k) == if step.0 then ([step.1.current.value] + Pull(step.1, mapper, k - 1).0, Pull(step.1, mapper, k - 1).1)
                            else ([], step.1)
  {
  }

  lemma RemainingAdvanced<Row>(c: Cursor<Row>)
    requires Valid(c) && Remaining(c) != []
    ensures Valid(Advanced(c)) && Remaining(Advanced(c)) == Remaining(c)[1..]
    ensures HasNextSet(Advanced(c)) == HasNextSet(c)
  {
  }

  /** The reference mapping, element by element. */
  lemma {:induction false} MapRowsAt<Row, T>(mapper: Row -> T, rows: seq<Row>)
    ensures |MapRows(mapper, rows)| == |rows|
    ensures forall i :: 0 <= i < |rows| ==> MapRows(mapper, rows)[i] == mapper(rows[i])
  {
    if rows != [] {
      MapRowsAt(mapper, rows[1..]);
    }
  }

  lemma TakeCons<X>(s: seq<X>, k: nat)
    requires 0 < k <= |s|
    ensures s[..k] == [s[0]] + s[1..][..k - 1]
  {
  }

  lemma {:induction false} ReadsAt(n: nat)
    ensures |Reads(n)| == n
    ensures forall i :: 0 <= i < n ==> Reads(n)[i] == ReadCall(true)
  {
    if n > 0 {
      ReadsAt(n - 1);
    }
  }

  lemma OnlyReads(prefix: seq<Call>, k: nat)
    ensures forall i :: |prefix| <= i < |prefix + Reads(k)| ==> (prefix + Reads(k))[i] == ReadCall(true)
  {
    ReadsAt(k);
  }

  /**
   * Draining an unfinished iterator yields the mapper applied to every
   * remaining row of the current result set, in order, and leaves the reader
   * exactly as `Exhausted` describes.
   */
  lemma {:induction false} DrainEffect<Row, T>(e: Enumerator<Row, T>, mapper: Row -> T)
    requires Ready(e) && e.phase != Finished
    ensures Drain(e, mapper).0 == MapRows(mapper, Remaining(e.cursor))
    ensures Drain(e, mapper).1 == Enumerator(Finished, Exhausted(e.cursor), None)
    decreases |Remaining(e.cursor)|
  {
    var (more, e1) := MoveNext(e, mapper);
    var rows := Remaining(e.cursor);
    if more {
      DrainEffect(e1, mapper);
      assert Remaining(e1.cursor) == rows[1..];
      assert e1.cursor.calls + Reads(|rows| - 1) == e.cursor.calls + Reads(|rows|);
    } else {
      assert rows == [];
    }
  }

  /**
   * Full enumeration of a fresh iterator: one item per remaining row, in
   * cursor order; the reader is disposed exactly when no result set follows,
   * and otherwise is open at the start of the next set with none of its rows
   * read.
   */
  lemma FullEnumeration<Row, T>(c: Cursor<Row>, mapper: Row -> T)
    requires Valid(c) && !c.disposed
    ensures var (items, e) := Drain(Start(c), mapper);
      && |items| == |Remaining(c)|
      && (forall i :: 0 <= i < |items| ==> items[i] == mapper(Remaining(c)[i]))
      && e.cursor == Exhausted(c)
      && e.cursor.sets == c.sets
      && (e.cursor.disposed <==> !HasNextSet(c))
      && (HasNextSet(c) ==> e.cursor.setIdx == c.setIdx + 1 && e.cursor.rowIdx == 0
                            && Remaining(e.cursor) == c.sets[c.setIdx + 1])
      && (!HasNextSet(c) ==> Remaining(e.cursor) == [] && !HasNextSet(e.cursor))
  {
    DrainEffect(Start<Row, T>(c), mapper);
    MapRowsAt(mapper, Remaining(c));
  }

  /**
   * The calls that end a full enumeration of n rows: n successful Reads, a
   * failed Read, NextResult exactly once, right after it and nowhere else,
   * then Dispose if, and only if, NextResult returned false.
   */
  predicate EndingOrder(t: seq<Call>, n: nat, hasNext: bool)
  {
    && n + 2 <= |t|
    && (forall i :: 0 <= i < n ==> t[i] == ReadCall(true))
    && t[n] == ReadCall(false)
    && t[n + 1] == NextResultCall(hasNext)
    && (forall i :: 0 <= i < |t| && t[i].NextResultCall? ==> i == n + 1)
    && (DisposeCall in t <==> NextResultCall(false) in t)
  }

  lemma EndingShape(n: nat, hasNext: bool)
    ensures EndingOrder(Reads(n) + Ending(hasNext), n, hasNext)
  {
    var t := Reads(n) + Ending(hasNext);
    ReadsAt(n);
    if !hasNext {
      assert t[n + 2] == DisposeCall;
      assert t[n + 1] == NextResultCall(false);
    } else {
      assert |t| == n + 2;
      assert forall i :: 0 <= i < |t| ==> t[i] != DisposeCall;
      assert forall i :: 0 <= i < |t| ==> t[i] != NextResultCall(false);
    }
  }

  /**
   * The calls full enumeration makes on the reader, after those made before,
   * are in the order `EndingOrder` states.
   */
  lemma ExhaustedCalls<Row>(c: Cursor<Row>)
    requires Valid(c)
    ensures |c.calls| <= |Exhausted(c).calls| && Exhausted(c).calls[..|c.calls|] == c.calls
    ensures EndingOrder(Exhausted(c).calls[|c.calls|..], |Remaining(c)|, HasNextSet(c))
  {
    var t := Reads(|Remaining(c)|) + Ending(HasNextSet(c));
    assert Exhausted(c).calls == c.calls + t;
    assert Exhausted(c).calls[|c.calls|..] == t;
    EndingShape(|Remaining(c)|, HasNextSet(c));
  }

  /**
   * Early abandonment: pulling k items when at least k rows remain yields the
   * mapper applied to the next k rows, advances the reader by exactly k rows,
   * and makes only successful Read calls, so the reader is never advanced to
   * another result set and never disposed.
   */
  lemma {:induction false} PullAbandoned<Row, T>(e: Enumerator<Row, T>, mapper: Row -> T, k: nat)
    requires Ready(e) && e.phase != Finished && k <= |Remaining(e.cursor)|
    ensures Pull(e, mapper, k).0 == MapRows(mapper, Remaining(e.cursor)[..k])
    ensures Pull(e, mapper, k).1.cursor == e.cursor.(rowIdx := e.cursor.rowIdx + k, calls := e.cursor.calls + Reads(k))
    ensures Pull(e, mapper, k).1.phase == if k == 0 then e.phase else Reading
    decreases k
  {
    if k > 0 {
      var rows := Remaining(e.cursor);
      var e1 := Enumerator(Reading, Advanced(e.cursor), Some(mapper(rows[0])));
      assert MoveNext(e, mapper) == (true, e1);
      PullUnfold(e, mapper, k);
      RemainingAdvanced(e.cursor);
      PullAbandoned(e1, mapper, k - 1);
      TakeCons(rows, k);
      assert e1.cursor.calls + Reads(k - 1) == e.cursor.calls + Reads(k);
    }
  }

  /** The reader after abandoning a fresh iterator early is still open and still on the same set. */
  lemma AbandonedReaderStaysOpen<Row, T>(c: Cursor<Row>, mapper: Row -> T, k: nat)
    requires Valid(c) && !c.disposed && k <= |Remaining(c)|
    ensures var (items, e) := Pull(Start(c), mapper, k);
      && items == MapRows(mapper, Remaining(c)[..k])
      && !e.cursor.disposed
      && e.cursor.setIdx == c.setIdx && e.cursor.rowIdx == c.rowIdx + k
      && Remaining(e.cursor) == Remaining(c)[k..]
      && |c.calls| <= |e.cursor.calls|
      && (forall i :: |c.calls| <= i < |e.cursor.calls| ==> e.cursor.calls[i] == ReadCall(true))
  {
    PullAbandoned(Start<Row, T>(c), mapper, k);
    OnlyReads(c.calls, k);
  }

  /** Pulling more items than rows remain is the same as draining. */
  lemma {:induction false} PullBeyond<Row, T>(e: Enumerator<Row, T>, mapper: Row -> T, k: nat)
    requires Ready(e) && Measure(e) <= k
    ensures Pull(e, mapper, k) == Drain(e, mapper)
    decreases k
  {
    DrainUnfold(e, mapper);
    if k > 0 {
      PullUnfold(e, mapper, k);
      var step := MoveNext(e, mapper);
      if step.0 {
        PullBeyond(step.1, mapper, k - 1);
      }
    }
  }

  /**
   * The first pull of a fresh iterator begins with exactly one Read, which
   * reports whether a row remains.  That nothing is read before it is the
   * `unchanged(reader)` of the RowEnumerator constructor.
   */
  lemma FirstPullStartsWithRead<Row, T>(c: Cursor<Row>, mapper: Row -> T)
    requires Valid(c) && !c.disposed
    ensures var t := Pull(Start<Row, T>(c), mapper, 1).1.cursor.calls;
      |c.calls| < |t| && t[..|c.calls| + 1] == c.calls + [ReadCall(Remaining(c) != [])]
  {
    var t := Pull(Start<Row, T>(c), mapper, 1).1.cursor.calls;
    if Remaining(c) == [] {
      assert t == c.calls + Reads(0) + Ending(HasNextSet(c));
    }
  }

  /**
   * Because full enumeration leaves the reader at the start of the next set,
   * enumerating the same reader again yields the rows of that next set.
   */
  lemma ConsecutiveEnumerations<Row, T>(c: Cursor<Row>, mapper: Row -> T)
    requires Valid(c) && !c.disposed && HasNextSet(c)
    ensures var c1 := Drain(Start<Row, T>(c), mapper).1.cursor;
      Valid(c1) && !c1.disposed && Drain(Start<Row, T>(c1), mapper).0 == MapRows(mapper, c.sets[c.setIdx + 1])
  {
    DrainEffect(Start<Row, T>(c), mapper);
    var c1 := Drain(Start<Row, T>(c), mapper).1.cursor;
    DrainEffect(Start<Row, T>(c1), mapper);
  }
}
