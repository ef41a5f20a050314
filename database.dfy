/** The values the settings store keeps (src/database.rs): strings and 32-bit
  * unsigned integers, with conversions to and from the Rust types. */
module Database {
  import opened Wrappers
  import opened Numeric

  datatype DatabaseValue = String(s: string) | U32(n: U32)

  /** `From<&str>` and `From<String>`. */
  function FromString(s: string): DatabaseValue
  {
    String(s)
  }

  /** `From<u32>`. */
  function FromU32(n: U32): DatabaseValue
  {
    U32(n)
  }

  /** `TryFrom<DatabaseValue> for String`: only string values convert. */
  function StringFromValue(v: DatabaseValue): (r: Result<string, ()>)
    ensures r.Ok? <==> v.String?
  {
    match v
    case String(s) => Ok(s)
    case _ => Err(())
  }

  /** `TryFrom<DatabaseValue> for u32`: only integer values convert. */
  function U32FromValue(v: DatabaseValue): (r: Result<U32, ()>)
    ensures r.Ok? <==> v.U32?
  {
    match v
    case U32(n) => Ok(n)
    case _ => Err(())
  }

  /** Converting into a store value and back gives the original, and a value that
    * converts back came from that conversion. */
  lemma StringConversionRoundTrip(s: string, v: DatabaseValue)
    ensures StringFromValue(FromString(s)) == Ok(s)
    ensures StringFromValue(v).Ok? ==> FromString(StringFromValue(v).value) == v
  {
  }

  lemma U32ConversionRoundTrip(n: U32, v: DatabaseValue)
    ensures U32FromValue(FromU32(n)) == Ok(n)
    ensures U32FromValue(v).Ok? ==> FromU32(U32FromValue(v).value) == v
  {
  }

  /** A value converts to at most one of the two Rust types. */
  lemma ConversionsAreExclusive(v: DatabaseValue)
    ensures StringFromValue(v).Ok? != U32FromValue(v).Ok?
  {
  }
}
