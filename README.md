# Insight.Database: the enumeration adapter of DBReaderExtensions

This project models the enumeration adapter of `DBReaderExtensions` in
Insight.Database, and proves properties about it. The adapter turns an
`IDataReader` into a lazy sequence of mapped objects, and `ToList` drains
that sequence into a list. The private iterator `AsEnumerable(reader, mapper)`
works like this:

- it reads the rows of the current result set one at a time;
- it yields `mapper(reader)` for each row;
- when `Read` returns false, it calls `NextResult` once;
- it disposes the reader only if `NextResult` returned false.

The public overloads fetch a mapper from the deserializer and hand it to the
iterator. The 2- to 6-type overloads tell the deserializer whether the caller
gave a callback. The 2- to 5-type overloads wrap the caller's N-argument
callback in a six-argument lambda that drops the `NoClass` slots. The 6-type
overload passes the callback through unchanged.

The project has these modules (one file each):

- `DataReaders` (`data_reader.dfy`): the reader as a value `Cursor` and as a
  class `DataReader`. The class has the fields `sets`, `setIdx`, `rowIdx` and
  `disposed`, and the methods `Read`, `NextResult` and `Dispose`. The value
  functions `ReadStep`, `NextResultStep` and `DisposeStep` specify those
  methods. Every call is logged, with the value it returned, in `calls`. This
  log lets the model state the order in which the adapter calls the reader.
- `Enumeration` (`enumeration.dfy`): the `yield` iterator as a state machine
  with the phases `NotStarted`, `Reading` and `Finished`. `MoveNext` is one
  resumption of the iterator. `Pull(k)` is a caller that asks for at most k
  items and then stops. `Drain` is a caller that asks until the iterator
  finishes. Two reference definitions say what the results should be:
  `MapRows` gives the expected items and `Exhausted` the expected final reader
  state. The lemmas prove that the iterator meets them.
- `ReaderExtensions` (`reader_extensions.dfy`): the returned `IEnumerable<T>`
  as the class `RowEnumerable`, and one run of the iterator body as the class
  `RowEnumerator`, whose `MoveNext` updates the reader in place. Every
  `GetEnumerator` of a `RowEnumerable` makes a new `RowEnumerator` over the
  same reader. The module also holds `ToList(reader, mapper)`, the body shared
  by all the `ToList` overloads.
- `MultiTypeOverloads` (`multi_type_overloads.dfy`): the callback adapters and
  the row mappers that the multi-type `AsEnumerable` overloads build.
- `Wrappers` (`wrappers.dfy`): `Option`.

All files verify together:
`dafny verify --resource-limit 2000000 --verification-time-limit 0 --warn-contradictory-assumptions *.dfy`.

## Model

| member | source | states |
|---|---|---|
| `DataReaders.ReadStep` | Insight.Database/DbReaderExtensions.cs:279 | Read returns true exactly when unread rows remain in the current set. In that case the reader then stands on the first of them and one fewer remains. Otherwise the reader does not move. One `ReadCall` with that result is logged. |
| `DataReaders.NextResultStep` | Insight.Database/DbReaderExtensions.cs:283 | NextResult returns true exactly when another result set follows. In that case the reader stands before that set's first row, with all its rows remaining. Otherwise no rows and no further set remain. One `NextResultCall` is logged. |
| `DataReaders.DisposeStep` | Insight.Database/DbReaderExtensions.cs:284 | Dispose marks the reader disposed and moves nothing. |
| `DataReaders.DataReader.Read` | Insight.Database/DbReaderExtensions.cs:279 | The in-place Read changes the reader's fields exactly as `ReadStep` does and returns its result. |
| `DataReaders.DataReader.NextResult` | Insight.Database/DbReaderExtensions.cs:283 | The in-place NextResult changes the fields exactly as `NextResultStep` does and returns its result. |
| `DataReaders.DataReader.Dispose` | Insight.Database/DbReaderExtensions.cs:284 | The in-place Dispose changes the fields exactly as `DisposeStep` does. |
| `DataReaders.DataReader.Current` | Insight.Database/DbReaderExtensions.cs:280 | The mapper sees the row the reader stands on. |
| `Enumeration.MoveNext` | Insight.Database/DbReaderExtensions.cs:276-285 | A finished iterator returns false and changes nothing. Otherwise MoveNext returns true exactly when a row remains. It then yields `mapper` of that row after one successful Read. If no row remains, the iterator finishes and leaves the reader as `Exhausted` describes: the next set, or disposed. |
| `Enumeration.Pull` | Insight.Database/DbReaderExtensions.cs:279-280 | A caller that asks for k items gets at most k, and the reader stays consistent. |
| `Enumeration.Drain` | Insight.Database/DbReaderExtensions.cs:279-285 | Draining always ends with the iterator finished. |
| `Enumeration.DrainEffect` | Insight.Database/DbReaderExtensions.cs:279-285 | Draining an unfinished iterator yields `MapRows(mapper, Remaining)`: one item per remaining row, in cursor order. The reader ends exactly in the state `Exhausted` gives. |
| `Enumeration.FullEnumeration` | Insight.Database/DbReaderExtensions.cs:279-285 | Full enumeration of a fresh iterator yields as many items as rows remain, and item i is `mapper` of row i. The reader is disposed if and only if no result set follows. Otherwise it is open at the start of the next set with none of that set's rows read. |
| `Enumeration.EndingShape` | Insight.Database/DbReaderExtensions.cs:279-284 | The calls `n` successful Reads plus the ending sequence are ordered as `EndingOrder` says. |
| `Enumeration.ExhaustedCalls` | Insight.Database/DbReaderExtensions.cs:279-284 | Full enumeration keeps the earlier calls, then logs one successful Read per remaining row and one failed Read. It then calls NextResult exactly once, right after that failed Read and nowhere else, and calls Dispose if and only if NextResult returned false. |
| `Enumeration.PullAbandoned` | Insight.Database/DbReaderExtensions.cs:279-280 | A caller that stops after k items, with k no more than the rows remaining, gets `mapper` of the next k rows, in order. The reader moves forward exactly k rows, and the only calls made are k successful Reads. |
| `Enumeration.AbandonedReaderStaysOpen` | Insight.Database/DbReaderExtensions.cs:118-119 | Stopping early after k items leaves the reader undisposed, on the same result set, with exactly k more rows read. Every call made was a successful Read, so NextResult was never called. |
| `Enumeration.PullBeyond` | Insight.Database/DbReaderExtensions.cs:279-285 | Asking for more items than can still be produced gives exactly the full drain. |
| `Enumeration.FirstPullStartsWithRead` | Insight.Database/DbReaderExtensions.cs:279 | The first pull of a fresh iterator begins with exactly one Read, which reports whether a row remains. |
| `Enumeration.ConsecutiveEnumerations` | Insight.Database/DbReaderExtensions.cs:282-283 | When another result set follows, the reader left by full enumeration is still open. Enumerating it again yields the mapped rows of that next set. |
| `Enumeration.MapRowsAt` | Insight.Database/DbReaderExtensions.cs:280 | The reference items are `mapper` applied to each row: same length, and element i comes from row i. |
| `ReaderExtensions.RowEnumerable.constructor` | Insight.Database/DbReaderExtensions.cs:137-141 | The public `AsEnumerable<T>` returns an enumerable that holds the reader and the fixed mapper. It touches no reader. |
| `ReaderExtensions.RowEnumerable.GetEnumerator` | Insight.Database/DbReaderExtensions.cs:276-285 | Every enumeration is a new run of the iterator body. It is not yet started, uses the same reader and mapper, and starts from the reader as it now stands, which it leaves unchanged. |
| `ReaderExtensions.RowEnumerable.ToList` | Insight.Database/DbReaderExtensions.cs:36 | `ToList` on the enumerable drains a new enumeration. It returns `Drain`'s items from a fresh start and leaves the reader in `Drain`'s final state. |
| `ReaderExtensions.RowEnumerator.constructor` | Insight.Database/DbReaderExtensions.cs:276 | A new run of the iterator fixes the reader and mapper and starts `NotStarted`. The reader is left unchanged: nothing is read until the first MoveNext. |
| `ReaderExtensions.RowEnumerator.MoveNext` | Insight.Database/DbReaderExtensions.cs:276-285 | One in-place resumption changes the iterator and the reader exactly as `Enumeration.MoveNext` does. |
| `ReaderExtensions.RowEnumerator.ToList` | Insight.Database/DbReaderExtensions.cs:36 | Draining one enumerator returns the items of `Drain` and leaves the iterator and the reader in `Drain`'s final state. |
| `ReaderExtensions.ToList` | Insight.Database/DbReaderExtensions.cs:23-107 | `reader.AsEnumerable(...).ToList()` returns the mapper applied to every remaining row of the current set, in order. The reader ends in the `Exhausted` state. It is disposed if and only if no result set follows, and otherwise stands at the start of the next set. |
| `MultiTypeOverloads.Adapt2` | Insight.Database/DbReaderExtensions.cs:163 | The adapter gives the caller's callback exactly the first two objects. Calling it without a callback faults. |
| `MultiTypeOverloads.Adapt3` | Insight.Database/DbReaderExtensions.cs:187 | The adapter gives the callback exactly the first three objects. Calling it without a callback faults. |
| `MultiTypeOverloads.Adapt4` | Insight.Database/DbReaderExtensions.cs:212 | The adapter gives the callback exactly the first four objects. Calling it without a callback faults. |
| `MultiTypeOverloads.Adapt5` | Insight.Database/DbReaderExtensions.cs:238 | The adapter gives the callback exactly the first five objects. Calling it without a callback faults. |
| `MultiTypeOverloads.Adapt6` | Insight.Database/DbReaderExtensions.cs:266 | The six-type overload passes the callback through unchanged. Calling a missing one faults. |
| `MultiTypeOverloads.Mapper2` | Insight.Database/DbReaderExtensions.cs:162-163 | Each row is mapped by the deserializer fetched with the flag `callback != null`, given the two-object adapter. |
| `MultiTypeOverloads.Mapper3` | Insight.Database/DbReaderExtensions.cs:186-187 | The same for three types. |
| `MultiTypeOverloads.Mapper4` | Insight.Database/DbReaderExtensions.cs:211-212 | The same for four types. |
| `MultiTypeOverloads.Mapper5` | Insight.Database/DbReaderExtensions.cs:237-238 | The same for five types. |
| `MultiTypeOverloads.Mapper6` | Insight.Database/DbReaderExtensions.cs:264-266 | The same for six types, with the callback passed directly. |
| `MultiTypeOverloads.Adapt2AgreesWithAdapt6` | Insight.Database/DbReaderExtensions.cs:163 | The 2-object adapter gives, at every point, what the 6-type pass-through gives on the caller's callback lifted so that it ignores the `NoClass` slots. |
| `MultiTypeOverloads.Adapt3AgreesWithAdapt6` | Insight.Database/DbReaderExtensions.cs:187 | The 3-object adapter gives, at every point, what the 6-type pass-through gives on the caller's callback lifted so that it ignores the `NoClass` slots. |
| `MultiTypeOverloads.Adapt4AgreesWithAdapt6` | Insight.Database/DbReaderExtensions.cs:212 | The 4-object adapter gives, at every point, what the 6-type pass-through gives on the caller's callback lifted so that it ignores the `NoClass` slots. |
| `MultiTypeOverloads.Adapt5AgreesWithAdapt6` | Insight.Database/DbReaderExtensions.cs:238 | The 5-object adapter gives, at every point, what the 6-type pass-through gives on the caller's callback lifted so that it ignores the `NoClass` slots. |
| `MultiTypeOverloads.Mapper2WithoutCallback` | Insight.Database/DbReaderExtensions.cs:48 | The 2-type `ToList` passes no callback. Its mapper uses the deserializer fetched with the flag false, and the adapted callback faults whenever it is invoked. |
| `MultiTypeOverloads.Mapper3WithoutCallback` | Insight.Database/DbReaderExtensions.cs:61 | The 3-type `ToList` passes no callback. Its mapper uses the deserializer fetched with the flag false, and the adapted callback faults whenever it is invoked. |
| `MultiTypeOverloads.Mapper4WithoutCallback` | Insight.Database/DbReaderExtensions.cs:75 | The 4-type `ToList` passes no callback. Its mapper uses the deserializer fetched with the flag false, and the adapted callback faults whenever it is invoked. |
| `MultiTypeOverloads.Mapper5WithoutCallback` | Insight.Database/DbReaderExtensions.cs:90 | The 5-type `ToList` passes no callback. Its mapper uses the deserializer fetched with the flag false, and the adapted callback faults whenever it is invoked. |
| `MultiTypeOverloads.Mapper6WithoutCallback` | Insight.Database/DbReaderExtensions.cs:106 | The 6-type `ToList` passes no callback. Its mapper uses the deserializer fetched with the flag false, and the adapted callback faults whenever it is invoked. |

How the overloads are modelled:

- Every `ToList` overload (lines 23-107) is one expression, `reader.AsEnumerable<...>().ToList()`. The model has a single generic `ReaderExtensions.ToList`, called with the row mapper that the matching `AsEnumerable` overload builds.
- The multi-type `ToList` overloads pass no callback, so their mapper is `MapperN(getDeserializer, None)`.
- Each public `AsEnumerable` overload is a call of the `RowEnumerable` constructor with its mapper.
- Enumerating the same enumerable twice gives two `RowEnumerator`s over one reader. `Enumeration.ConsecutiveEnumerations` shows what the second run yields after the first leaves the reader at the next result set.

## Left out

- `DbReaderDeserializer<...>.GetDeserializer` and the code generation behind it are not shown. The single-type mapper is a parameter `Row -> T`. For the multi-type overloads, the deserializer is a parameter that takes the callback flag. So the model does not show that the mapper depends on the reader's schema. It only shows that the mapper is fixed when the iterator is created, before any Read.
- `FastExpando` (the dynamic overloads at lines 23-26 and 121-125) is just one more opaque row mapper.
- The `idColumns` dictionary is only passed on to the deserializer, so it is left out.
- The real `IDataReader` is left out: database I/O, column access and `CommandBehavior.CloseConnection`. A reader leaked after early abandonment is only cleaned up by the garbage collector, and the model leaves that out too.
- `DataReaders.DataReader.Read`, `DataReaders.DataReader.NextResult`: both require an open reader. On a disposed reader the .NET reader throws, and the adapter does not handle that case.
- Exceptions thrown by the mapper are .NET exception plumbing and are left out. So is the exception a deserializer would hit by calling a null callback, except that invoking an adapted missing callback gives the value `NullReference`.
- A callback is a C# `Action` with side effects. The model represents its effect as an opaque value `E`, so it does not model what the callback does to the objects.
- `Insight.Database/Mapping/IColumnMapper.cs` is an interface with no implementation. The chain of mappers that enforces its protocol is not part of this model.
- A `RowEnumerator` is one enumeration of the returned `IEnumerable<T>`. Once it has finished, further `MoveNext` or `ToList` calls on it yield nothing. Calling `ToList` on the enumerable again makes a new `RowEnumerator` (`RowEnumerable.GetEnumerator`) over the same reader. That re-run requires an undisposed reader: once no result set follows, the reader is disposed and the .NET reader would throw, which the model excludes.
- The iterator's `Current` after it finishes, and `Reset`/`Dispose` of the enumerator object, are left out. The C# compiler generates those members; they are not code in these files.
