/** Keys, typed values and deadlines, shared by the keyspace, the effect log and the codecs. */
module Values {
  import opened Ordering
  import opened Wrappers

  type Key = string

  const WRONG_TYPE := "WRONGTYPE Operation against a key holding the wrong kind of value"

  datatype Value =
    | StringValue(text: string)
    | ListValue(items: seq<string>)
    | HashValue(fields: map<string, string>)
    | SetValue(members: set<string>)
    | ZSetValue(scores: map<string, Score>)
  {
    predicate SameKind(other: Value) {
      && StringValue? == other.StringValue?
      && ListValue? == other.ListValue?
      && HashValue? == other.HashValue?
      && SetValue? == other.SetValue?
      && ZSetValue? == other.ZSetValue?
    }

    /** A collection without elements, which is never kept. */
    predicate IsEmpty() {
      match this
      case StringValue(_) => false
      case ListValue(items) => items == []
      case HashValue(fields) => fields == map[]
      case SetValue(members) => members == {}
      case ZSetValue(scores) => scores == map[]
    }
  }

  /** A value and its deadline in unix milliseconds. */
  datatype Content = Content(value: Value, expiresAt: Option<int>)
  {
    predicate Expired(now: int) {
      expiresAt.Some? && now >= expiresAt.value
    }
  }
}
