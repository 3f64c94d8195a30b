/** Small shared vocabulary. */
module Common {

  datatype Option<+T> = None | Some(value: T)

  /** `d.get(key, default)`, where nothing stands for a missing key. */
  function GetOr<T>(o: Option<T>, default: T): T {
    match o
    case None => default
    case Some(value) => value
  }

  /** The number a map assigns to a key, zero when the key is absent. */
  function CountOf(counts: map<string, nat>, key: string): nat {
    if key in counts then counts[key] else 0
  }
}
