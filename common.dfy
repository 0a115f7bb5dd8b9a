/** Values shared by the property source and the listener. */
module Common {

  /** A Java reference that may be `null`. */
  datatype Option<T> = None | Some(value: T)

  /** The exceptions the modelled code can raise. */
  datatype JavaException =
    | NullPointerException
    | StringIndexOutOfBoundsException
    | JedisException

  /** How a Java call completes: normally with a value, or abruptly with an exception. */
  datatype Completion<T> = Normal(value: T) | Abrupt(exception: JavaException)

  /** `Map.get` / `Properties.getProperty`: the value under `key`, or `null`. */
  function Lookup(m: map<string, string>, key: string): Option<string>
  {
    if key in m then Some(m[key]) else None
  }
}
