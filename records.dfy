/**
 * JavaScript values as the todo-item table stores them, and records as plain
 * objects whose absent properties read as `undefined`.
 */
module Records {

  datatype Option<T> = None | Some(value: T)

  /** A property value: the todoitem columns are strings and booleans; null
      and numbers also occur, in text typed into the custom-input box. */
  datatype Value = Null | Bool(b: bool) | Num(n: int) | Str(s: string)

  /** A record: a plain object from property names to values. */
  type Record = map<string, Value>

  const IdKey := "id"
  const DeletedKey := "deleted"
  const TextKey := "text"
  const VersionKey := "version"
  const CompleteKey := "complete"

  /** `record.key`: the value, or None where JavaScript reads `undefined`. */
  function Get(r: Record, key: string): (v: Option<Value>)
    ensures v.Some? <==> key in r
  {
    if key in r then Some(r[key]) else None
  }

  /** `record.key = v`; assigning `undefined` leaves a property that reads, and serialises, as absent. */
  function Put(r: Record, key: string, v: Option<Value>): (q: Record)
    ensures Get(q, key) == v
    ensures forall k :: k != key ==> Get(q, k) == Get(r, k)
  {
    match v
    case Some(x) => r[key := x]
    case None => r - {key}
  }

  /** JavaScript's ToBoolean on a property read. */
  predicate Truthy(v: Option<Value>)
  {
    match v
    case None => false
    case Some(Null) => false
    case Some(Bool(b)) => b
    case Some(Num(n)) => n != 0
    case Some(Str(s)) => s != ""
  }

  /** The two records read the same on every property outside `keys`. */
  ghost predicate AgreeExcept(a: Record, b: Record, keys: set<string>)
  {
    forall k :: k !in keys ==> Get(a, k) == Get(b, k)
  }
}
