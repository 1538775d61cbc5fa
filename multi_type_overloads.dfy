/**
 * The 2- to 6-type AsEnumerable overloads of DBReaderExtensions.
 *
 * Each overload asks the deserializer for a mapper that builds up to six
 * objects per row, telling it whether the caller supplied a callback, and
 * wraps the caller's callback of N arguments into the six-argument callback
 * the deserializer expects, the unused type slots being `NoClass`.  The
 * resulting row mapper is then handed to the lazy iterator.
 *
 * The deserializer itself is not part of this model: `GetDeserializer` is a
 * parameter taking the callback flag.  A callback is a C# `Action`; its
 * effect (typically attaching sub-objects to their parent) is an opaque
 * value of type `E`.
 */
module MultiTypeOverloads {
  import opened Wrappers

  /** The placeholder type for an unused sub-object slot. */
  datatype NoClass = NoClass

  /** What invoking a callback delegate does: its effect, or a null-reference fault. */
  datatype Invocation<E> = Invoked(effect: E) | NullReference

  /** The six-object callback the deserializer invokes for each row. */
  type Callback6<-T, -T1, -T2, -T3, -T4, -T5, E> = (T, T1, T2, T3, T4, T5) -> Invocation<E>

  /** The mapper `GetDeserializer` returns: a row and the six-object callback give the row's object. */
  type Deserializer<-Row, !T, !T1, !T2, !T3, !T4, !T5, !E> = (Row, Callback6<T, T1, T2, T3, T4, T5, E>) -> T

  /**
   * The lambda `(t, t1, t2, t3, t4, t5) => callback(t, t1)`: it passes the
   * first two objects on and drops the padding; with no callback it faults.
   */
  function Adapt2<T(!new), T1(!new), E>(callback: Option<(T, T1) -> E>): (a: Callback6<T, T1, NoClass, NoClass, NoClass, NoClass, E>)
    ensures forall t, t1 :: a(t, t1, NoClass, NoClass, NoClass, NoClass).Invoked? <==> callback.Some?
    ensures callback.Some? ==>
      forall t, t1 :: a(t, t1, NoClass, NoClass, NoClass, NoClass) == Invoked(callback.value(t, t1))
  {
    (t, t1, t2, t3, t4, t5) => if callback.Some? then Invoked(callback.value(t, t1)) else NullReference
  }

  /** The lambda `(t, t1, t2, t3, t4, t5) => callback(t, t1, t2)`. */
  function Adapt3<T(!new), T1(!new), T2(!new), E>(callback: Option<(T, T1, T2) -> E>): (a: Callback6<T, T1, T2, NoClass, NoClass, NoClass, E>)
    ensures forall t, t1, t2 :: a(t, t1, t2, NoClass, NoClass, NoClass).Invoked? <==> callback.Some?
    ensures callback.Some? ==>
      forall t, t1, t2 :: a(t, t1, t2, NoClass, NoClass, NoClass) == Invoked(callback.value(t, t1, t2))
  {
    (t, t1, t2, t3, t4, t5) => if callback.Some? then Invoked(callback.value(t, t1, t2)) else NullReference
  }

  /** The lambda `(t, t1, t2, t3, t4, t5) => callback(t, t1, t2, t3)`. */
  function Adapt4<T(!new), T1(!new), T2(!new), T3(!new), E>(callback: Option<(T, T1, T2, T3) -> E>): (a: Callback6<T, T1, T2, T3, NoClass, NoClass, E>)
    ensures forall t, t1, t2, t3 :: a(t, t1, t2, t3, NoClass, NoClass).Invoked? <==> callback.Some?
    ensures callback.Some? ==>
      forall t, t1, t2, t3 :: a(t, t1, t2, t3, NoClass, NoClass) == Invoked(callback.value(t, t1, t2, t3))
  {
    (t, t1, t2, t3, t4, t5) => if callback.Some? then Invoked(callback.value(t, t1, t2, t3)) else NullReference
  }

  /** The lambda `(t, t1, t2, t3, t4, t5) => callback(t, t1, t2, t3, t4)`. */
  function Adapt5<T(!new), T1(!new), T2(!new), T3(!new), T4(!new), E>(callback: Option<(T, T1, T2, T3, T4) -> E>): (a: Callback6<T, T1, T2, T3, T4, NoClass, E>)
    ensures forall t, t1, t2, t3, t4 :: a(t, t1, t2, t3, t4, NoClass).Invoked? <==> callback.Some?
    ensures callback.Some? ==>
      forall t, t1, t2, t3, t4 :: a(t, t1, t2, t3, t4, NoClass) == Invoked(callback.value(t, t1, t2, t3, t4))
  {
    (t, t1, t2, t3, t4, t5) => if callback.Some? then Invoked(callback.value(t, t1, t2, t3, t4)) else NullReference
  }

  /** The six-type overload passes the caller's callback itself; invoking a null one faults. */
  function Adapt6<T(!new), T1(!new), T2(!new), T3(!new), T4(!new), T5(!new), E>(callback: Option<(T, T1, T2, T3, T4, T5) -> E>): (a: Callback6<T, T1, T2, T3, T4, T5, E>)
    ensures forall t, t1, t2, t3, t4, t5 :: a(t, t1, t2, t3, t4, t5).Invoked? <==> callback.Some?
    ensures callback.Some? ==>
      forall t, t1, t2, t3, t4, t5 :: a(t, t1, t2, t3, t4, t5) == Invoked(callback.value(t, t1, t2, t3, t4, t5))
  {
    (t, t1, t2, t3, t4, t5) => if callback.Some? then Invoked(callback.value(t, t1, t2, t3, t4, t5)) else NullReference
  }

  /**
   * The row mapper of `AsEnumerable<T, TSub1>`: the deserializer is asked
   * for with the flag `callback != null` and is invoked on each row with
   * the adapted callback.
   */
  function Mapper2<Row(!new), T(!new), T1(!new), E>(getDeserializer: bool -> Deserializer<Row, T, T1, NoClass, NoClass, NoClass, NoClass, E>,
                                  callback: Option<(T, T1) -> E>): (m: Row -> T)
    ensures forall row :: m(row) == getDeserializer(callback.Some?)(row, Adapt2(callback))
  {
    row => getDeserializer(callback.Some?)(row, Adapt2(callback))
  }

  /** The row mapper of `AsEnumerable<T, TSub1, TSub2>`. */
  function Mapper3<Row(!new), T(!new), T1(!new), T2(!new), E>(getDeserializer: bool -> Deserializer<Row, T, T1, T2, NoClass, NoClass, NoClass, E>,
                                      callback: Option<(T, T1, T2) -> E>): (m: Row -> T)
    ensures forall row :: m(row) == getDeserializer(callback.Some?)(row, Adapt3(callback))
  {
    row => getDeserializer(callback.Some?)(row, Adapt3(callback))
  }

  /** The row mapper of `AsEnumerable<T, TSub1, TSub2, TSub3>`. */
  function Mapper4<Row(!new), T(!new), T1(!new), T2(!new), T3(!new), E>(getDeserializer: bool -> Deserializer<Row, T, T1, T2, T3, NoClass, NoClass, E>,
                                          callback: Option<(T, T1, T2, T3) -> E>): (m: Row -> T)
    ensures forall row :: m(row) == getDeserializer(callback.Some?)(row, Adapt4(callback))
  {
    row => getDeserializer(callback.Some?)(row, Adapt4(callback))
  }

  /** The row mapper of `AsEnumerable<T, TSub1, TSub2, TSub3, TSub4>`. */
  function Mapper5<Row(!new), T(!new), T1(!new), T2(!new), T3(!new), T4(!new), E>(getDeserializer: bool -> Deserializer<Row, T, T1, T2, T3, T4, NoClass, E>,
                                              callback: Option<(T, T1, T2, T3, T4) -> E>): (m: Row -> T)
    ensures forall row :: m(row) == getDeserializer(callback.Some?)(row, Adapt5(callback))
  {
    row => getDeserializer(callback.Some?)(row, Adapt5(callback))
  }

  /** The row mapper of `AsEnumerable<T, TSub1, TSub2, TSub3, TSub4, TSub5>`. */
  function Mapper6<Row(!new), T(!new), T1(!new), T2(!new), T3(!new), T4(!new), T5(!new), E>(getDeserializer: bool -> Deserializer<Row, T, T1, T2, T3, T4, T5, E>,
                                                  callback: Option<(T, T1, T2, T3, T4, T5) -> E>): (m: Row -> T)
    ensures forall row :: m(row) == getDeserializer(callback.Some?)(row, Adapt6(callback))
  {
    row => getDeserializer(callback.Some?)(row, Adapt6(callback))
  }

  /*
   * Each adapter of N objects agrees with the six-object pass-through applied
   * to the caller's callback lifted to ignore the NoClass slots.
   */

  /** A callback of 2 objects as a six-object one that ignores the NoClass slots. */
  function Lift2<T, T1, E>(callback: Option<(T, T1) -> E>): Option<(T, T1, NoClass, NoClass, NoClass, NoClass) -> E>
  {
    if callback.Some? then Some((t, t1, n0, n1, n2, n3) => callback.value(t, t1)) else None
  }

  lemma Adapt2AgreesWithAdapt6<T(!new), T1(!new), E>(callback: Option<(T, T1) -> E>)
    ensures forall t, t1 :: Adapt2(callback)(t, t1, NoClass, NoClass, NoClass, NoClass) == Adapt6(Lift2(callback))(t, t1, NoClass, NoClass, NoClass, NoClass)
  {
  }

  /** A callback of 3 objects as a six-object one that ignores the NoClass slots. */
  function Lift3<T, T1, T2, E>(callback: Option<(T, T1, T2) -> E>): Option<(T, T1, T2, NoClass, NoClass, NoClass) -> E>
  {
    if callback.Some? then Some((t, t1, t2, n0, n1, n2) => callback.value(t, t1, t2)) else None
  }

  lemma Adapt3AgreesWithAdapt6<T(!new), T1(!new), T2(!new), E>(callback: Option<(T, T1, T2) -> E>)
    ensures forall t, t1, t2 :: Adapt3(callback)(t, t1, t2, NoClass, NoClass, NoClass) == Adapt6(Lift3(callback))(t, t1, t2, NoClass, NoClass, NoClass)
  {
  }

  /** A callback of 4 objects as a six-object one that ignores the NoClass slots. */
  function Lift4<T, T1, T2, T3, E>(callback: Option<(T, T1, T2, T3) -> E>): Option<(T, T1, T2, T3, NoClass, NoClass) -> E>
  {
    if callback.Some? then Some((t, t1, t2, t3, n0, n1) => callback.value(t, t1, t2, t3)) else None
  }

  lemma Adapt4AgreesWithAdapt6<T(!new), T1(!new), T2(!new), T3(!new), E>(callback: Option<(T, T1, T2, T3) -> E>)
    ensures forall t, t1, t2, t3 :: Adapt4(callback)(t, t1, t2, t3, NoClass, NoClass) == Adapt6(Lift4(callback))(t, t1, t2, t3, NoClass, NoClass)
  {
  }

  /** A callback of 5 objects as a six-object one that ignores the NoClass slots. */
  function Lift5<T, T1, T2, T3, T4, E>(callback: Option<(T, T1, T2, T3, T4) -> E>): Option<(T, T1, T2, T3, T4, NoClass) -> E>
  {
    if callback.Some? then Some((t, t1, t2, t3, t4, n0) => callback.value(t, t1, t2, t3, t4)) else None
  }

  lemma Adapt5AgreesWithAdapt6<T(!new), T1(!new), T2(!new), T3(!new), T4(!new), E>(callback: Option<(T, T1, T2, T3, T4) -> E>)
    ensures forall t, t1, t2, t3, t4 :: Adapt5(callback)(t, t1, t2, t3, t4, NoClass) == Adapt6(Lift5(callback))(t, t1, t2, t3, t4, NoClass)
  {
  }

  /*
   * The multi-type ToList overloads pass no callback: their mapper asks for
   * the deserializer with the flag false, and the callback it hands over
   * faults if the deserializer ever invokes it.
   */

  lemma Mapper2WithoutCallback<Row(!new), T(!new), T1(!new), E>(getDeserializer: bool -> Deserializer<Row, T, T1, NoClass, NoClass, NoClass, NoClass, E>)
    ensures forall row :: Mapper2(getDeserializer, None)(row) == getDeserializer(false)(row, Adapt2<T, T1, E>(None))
    ensures forall t, t1 :: Adapt2<T, T1, E>(None)(t, t1, NoClass, NoClass, NoClass, NoClass) == NullReference
  {
  }

  lemma Mapper3WithoutCallback<Row(!new), T(!new), T1(!new), T2(!new), E>(getDeserializer: bool -> Deserializer<Row, T, T1, T2, NoClass, NoClass, NoClass, E>)
    ensures forall row :: Mapper3(getDeserializer, None)(row) == getDeserializer(false)(row, Adapt3<T, T1, T2, E>(None))
    ensures forall t, t1, t2 :: Adapt3<T, T1, T2, E>(None)(t, t1, t2, NoClass, NoClass, NoClass) == NullReference
  {
  }

  lemma Mapper4WithoutCallback<Row(!new), T(!new), T1(!new), T2(!new), T3(!new), E>(getDeserializer: bool -> Deserializer<Row, T, T1, T2, T3, NoClass, NoClass, E>)
    ensures forall row :: Mapper4(getDeserializer, None)(row) == getDeserializer(false)(row, Adapt4<T, T1, T2, T3, E>(None))
    ensures forall t, t1, t2, t3 :: Adapt4<T, T1, T2, T3, E>(None)(t, t1, t2, t3, NoClass, NoClass) == NullReference
  {
  }

  lemma Mapper5WithoutCallback<Row(!new), T(!new), T1(!new), T2(!new), T3(!new), T4(!new), E>(getDeserializer: bool -> Deserializer<Row, T, T1, T2, T3, T4, NoClass, E>)
    ensures forall row :: Mapper5(getDeserializer, None)(row) == getDeserializer(false)(row, Adapt5<T, T1, T2, T3, T4, E>(None))
    ensures forall t, t1, t2, t3, t4 :: Adapt5<T, T1, T2, T3, T4, E>(None)(t, t1, t2, t3, t4, NoClass) == NullReference
  {
  }

  lemma Mapper6WithoutCallback<Row(!new), T(!new), T1(!new), T2(!new), T3(!new), T4(!new), T5(!new), E>(getDeserializer: bool -> Deserializer<Row, T, T1, T2, T3, T4, T5, E>)
    ensures forall row :: Mapper6(getDeserializer, None)(row) == getDeserializer(false)(row, Adapt6<T, T1, T2, T3, T4, T5, E>(None))
    ensures forall t, t1, t2, t3, t4, t5 :: Adapt6<T, T1, T2, T3, T4, T5, E>(None)(t, t1, t2, t3, t4, t5) == NullReference
  {
  }
}
