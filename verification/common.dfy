// Shared value wrappers used across the model.
module Common {
  /** A possibly absent value; `None` stands for a Java `null` reference. */
  datatype Option<T> = None | Some(value: T)

  /** No object appears twice in the list. */
  predicate Distinct<T(==)>(s: seq<T>)
  {
    forall j, k :: 0 <= j < k < |s| ==> s[j] != s[k]
  }
}
