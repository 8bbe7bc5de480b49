/** Optional values, for lookups and loads that can fail. */
module Options {
  datatype Option<+T> = None | Some(value: T)
}

/** Ranging over a Go map: the keys come in an order the program cannot choose. */
module MapRange {
  method Pick<K>(todo: set<K>) returns (key: K)
    requires todo != {}
    ensures key in todo
  {
    key :| key in todo;
  }
}
