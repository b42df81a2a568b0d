/** Python dictionaries that the modelled functions receive and update in place. */
module PyDict {

  /** The values the modelled code stores in its meta-data dictionaries. */
  datatype MetaValue =
    | Str(s: string)
    | Int(i: int)
    | Bool(b: bool)
    | NoneValue

  /** A mutable dict keyed by strings; callers share it by reference. */
  class Dict<V> {
    var entries: map<string, V>

    /** `{}` */
    constructor ()
      ensures entries == map[]
    {
      entries := map[];
    }

    /** d[k] = v */
    method Set(k: string, v: V)
      modifies this
      ensures entries == old(entries)[k := v]
    {
      entries := entries[k := v];
    }
  }
}
