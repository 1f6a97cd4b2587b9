// Small definitions that several modules share.
module Options {
  datatype Option<T> = None | Some(value: T)

  predicate NoRepeat<T(==)>(ts: seq<T>) { forall i, j :: 0 <= i < j < |ts| ==> ts[i] != ts[j] }
}
