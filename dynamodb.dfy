/** The DynamoDB settings store (src/database/dynamodb.rs), seen through the items it
  * reads back: how store values are encoded as attribute values, and how the
  * responses of `GetItem` and `UpdateItem` are turned into results. */
module DynamoDb {
  import opened Wrappers
  import opened Numeric
  import opened Database

  /** The attribute value kinds the handle tells apart; `Other` stands for every kind
    * it does not read (binary values and sets, lists, maps, null). */
  datatype AttributeValue =
    | S(s: string)
    | N(n: string)
    | Ss(ss: seq<string>)
    | Ns(ns: seq<string>)
    | Bool(b: bool)
    | Other

  type Item = map<string, AttributeValue>

  datatype DynamoDbHandleError =
    | DynamoDbError(message: string)
    | UnexpectedAttributeType(attribute: string)
    | MalformedAttributeValue(attribute: string)

  /** The partition key of a guild's item. */
  function GuildKey(guildId: U64): AttributeValue
  {
    S("Guild#" + NatToString(guildId))
  }

  /** Different guilds never share an item. */
  lemma GuildKeyIsInjective(a: U64, b: U64)
    requires GuildKey(a) == GuildKey(b)
    ensures a == b
  {
    var sa, sb := GuildKey(a).s, GuildKey(b).s;
    assert sa[6..] == NatToString(a) && sb[6..] == NatToString(b);
  }

  /** `database_value_to_attribute_value`: a string as `S`, an integer as `N` in decimal. */
  function ToAttributeValue(v: DatabaseValue): AttributeValue
  {
    match v
    case String(s) => S(s)
    case U32(n) => N(NatToString(n))
  }

  /** `database_value_to_set_attribute_value`: the one-element set of the value. */
  function ToSetAttributeValue(v: DatabaseValue): AttributeValue
  {
    match v
    case String(s) => Ss([s])
    case U32(n) => Ns([NatToString(n)])
  }

  /** `extract_attribute`: the attribute under `key`, read as a store value and then
    * converted to the caller's type. */
  function ExtractAttribute<T>(item: Item, key: string, convert: DatabaseValue -> Result<T, ()>)
    : Result<Option<T>, DynamoDbHandleError>
  {
    if key !in item then Ok(None)
    else
      var value: Result<DatabaseValue, DynamoDbHandleError> :=
        match item[key]
        case S(s) => Ok(String(s))
        case N(n) =>
          (match ParseU32(n)
           case Some(n) => Ok(U32(n))
           case None => Err(MalformedAttributeValue(key)))
        case _ => Err(UnexpectedAttributeType(key));
      match value
      case Err(e) => Err(e)
      case Ok(v) =>
        match convert(v)
        case Ok(t) => Ok(Some(t))
        case Err(_) => Err(UnexpectedAttributeType(key))
  }

  /** A value written by `set` is what `get` reads back under the same key (when the
    * caller's type accepts it), whatever else the item holds. */
  lemma ExtractInvertsEncoding<T>(item: Item, key: string, v: DatabaseValue, convert: DatabaseValue -> Result<T, ()>)
    ensures ExtractAttribute(item[key := ToAttributeValue(v)], key, convert)
         == (match convert(v)
             case Ok(t) => Ok(Some(t))
             case Err(_) => Err(UnexpectedAttributeType(key)))
  {
    if v.U32? {
      ParseU32OfDisplay(v.n);
    }
  }

  /** The error cases of `extract_attribute`. */
  lemma ExtractAttributeErrors<T>(item: Item, key: string, convert: DatabaseValue -> Result<T, ()>)
    ensures key !in item ==> ExtractAttribute(item, key, convert) == Ok(None)
    ensures key in item && !item[key].S? && !item[key].N?
            ==> ExtractAttribute(item, key, convert) == Err(UnexpectedAttributeType(key))
    ensures key in item && item[key].N? && ParseU32(item[key].n).None?
            ==> ExtractAttribute(item, key, convert) == Err(MalformedAttributeValue(key))
  {
  }

  /** `get`: no item means no value. */
  function Get<T>(response: Result<Option<Item>, string>, key: string, convert: DatabaseValue -> Result<T, ()>)
    : Result<Option<T>, DynamoDbHandleError>
  {
    match response
    case Err(e) => Err(DynamoDbError(e))
    case Ok(None) => Ok(None)
    case Ok(Some(item)) => ExtractAttribute(item, key, convert)
  }

  predicate AnyParsesTo(ns: seq<string>, n: U32)
  {
    exists i :: 0 <= i < |ns| && ParseU32(ns[i]) == Some(n)
  }

  /** `contains_in_set`: whether the set under `key` holds the value; a missing attribute
    * holds nothing, and a set of the other kind is an error. */
  function ContainsInSet(item: Item, key: string, value: DatabaseValue): Result<bool, DynamoDbHandleError>
  {
    if key !in item then Ok(false)
    else
      match (item[key], value)
      case (Ns(ns), U32(n)) => Ok(AnyParsesTo(ns, n))
      case (Ss(ss), String(s)) => Ok(s in ss)
      case _ => Err(UnexpectedAttributeType(key))
  }

  /** The members of an `Ns` set, converted one by one in order; the first element that
    * does not parse or does not convert decides the error. */
  function NumberMembers<T(==)>(ns: seq<string>, key: string, convert: DatabaseValue -> Result<T, ()>)
    : Result<set<T>, DynamoDbHandleError>
  {
    if ns == [] then Ok({})
    else
      match ParseU32(ns[0])
      case None => Err(MalformedAttributeValue(key))
      case Some(n) =>
        match convert(U32(n))
        case Err(_) => Err(UnexpectedAttributeType(key))
        case Ok(t) =>
          match NumberMembers(ns[1..], key, convert)
          case Err(e) => Err(e)
          case Ok(rest) => Ok({t} + rest)
  }

  function StringMembers<T(==)>(ss: seq<string>, key: string, convert: DatabaseValue -> Result<T, ()>)
    : Result<set<T>, DynamoDbHandleError>
  {
    if ss == [] then Ok({})
    else
      match convert(String(ss[0]))
      case Err(_) => Err(UnexpectedAttributeType(key))
      case Ok(t) =>
        match StringMembers(ss[1..], key, convert)
        case Err(e) => Err(e)
        case Ok(rest) => Ok({t} + rest)
  }

  /** `set_members`: a missing item or attribute is the empty set. */
  function SetMembers<T(==)>(response: Result<Option<Item>, string>, key: string, convert: DatabaseValue -> Result<T, ()>)
    : Result<set<T>, DynamoDbHandleError>
  {
    match response
    case Err(e) => Err(DynamoDbError(e))
    case Ok(None) => Ok({})
    case Ok(Some(item)) =>
      if key !in item then Ok({})
      else
        match item[key]
        case Ns(ns) => NumberMembers(ns, key, convert)
        case Ss(ss) => StringMembers(ss, key, convert)
        case _ => Err(UnexpectedAttributeType(key))
  }

  /** A well-formed number set, read as integers, has exactly the elements that parse. */
  lemma {:induction false} NumberMembersAsU32(ns: seq<string>, key: string)
    requires forall i :: 0 <= i < |ns| ==> ParseU32(ns[i]).Some?
    ensures NumberMembers(ns, key, U32FromValue).Ok?
    ensures forall n: U32 :: n in NumberMembers(ns, key, U32FromValue).value <==> AnyParsesTo(ns, n)
  {
    if ns != [] {
      assert ParseU32(ns[0]).Some?;
      NumberMembersAsU32(ns[1..], key);
      forall n: U32 ensures AnyParsesTo(ns, n) <==> ParseU32(ns[0]) == Some(n) || AnyParsesTo(ns[1..], n) {
        if AnyParsesTo(ns, n) {
          var i :| 0 <= i < |ns| && ParseU32(ns[i]) == Some(n);
          if i > 0 { assert ns[1..][i - 1] == ns[i]; }
        }
        if AnyParsesTo(ns[1..], n) {
          var i :| 0 <= i < |ns[1..]| && ParseU32(ns[1..][i]) == Some(n);
          assert ns[i + 1] == ns[1..][i];
        }
      }
    }
  }

  /** `set_add`: the old attributes returned by the `ADD` update report whether the value
    * was new; no old attribute means it was. */
  function SetAddResult(response: Result<Option<Item>, string>, key: string, value: DatabaseValue)
    : Result<bool, DynamoDbHandleError>
  {
    match response
    case Err(e) => Err(DynamoDbError(e))
    case Ok(None) => Ok(true)
    case Ok(Some(attributes)) =>
      match ContainsInSet(attributes, key, value)
      case Ok(exists_) => Ok(!exists_)
      case Err(e) => Err(e)
  }

  /** `set_remove`: the old attributes returned by the `DELETE` update report whether the
    * value was there; no old attribute means it was not. */
  function SetRemoveResult(response: Result<Option<Item>, string>, key: string, value: DatabaseValue)
    : Result<bool, DynamoDbHandleError>
  {
    match response
    case Err(e) => Err(DynamoDbError(e))
    case Ok(None) => Ok(false)
    case Ok(Some(attributes)) => ContainsInSet(attributes, key, value)
  }

  /** For a number set that `set_members` reads without error, `set_add` reports the value
    * as new exactly when `set_members` did not list it, and `set_remove` reports it as
    * removed exactly when it did. */
  lemma SetAddAndRemoveAgreeWithMembers(before: Item, key: string, n: U32)
    requires key in before && before[key].Ns?
    requires forall i :: 0 <= i < |before[key].ns| ==> ParseU32(before[key].ns[i]).Some?
    ensures SetMembers(Ok(Some(before)), key, U32FromValue).Ok?
    ensures SetAddResult(Ok(Some(before)), key, FromU32(n))
         == Ok(n !in SetMembers(Ok(Some(before)), key, U32FromValue).value)
    ensures SetRemoveResult(Ok(Some(before)), key, FromU32(n))
         == Ok(n in SetMembers(Ok(Some(before)), key, U32FromValue).value)
  {
    NumberMembersAsU32(before[key].ns, key);
  }

  /** The one-element set written by `set_add` holds the value it was built from. */
  lemma SetAttributeHoldsItsValue(item: Item, key: string, v: DatabaseValue)
    ensures ContainsInSet(item[key := ToSetAttributeValue(v)], key, v) == Ok(true)
  {
    if v.U32? {
      ParseU32OfDisplay(v.n);
      assert ParseU32([NatToString(v.n)][0]) == Some(v.n);
    }
  }

  /** A set of the other kind never answers membership: it is reported as an error. */
  lemma MismatchedSetIsAnError(item: Item, key: string, v: DatabaseValue)
    requires key in item
    requires (item[key].Ns? && v.String?) || (item[key].Ss? && v.U32?) || item[key].S? || item[key].N?
    ensures ContainsInSet(item, key, v) == Err(UnexpectedAttributeType(key))
    ensures SetAddResult(Ok(Some(item)), key, v) == Err(UnexpectedAttributeType(key))
  {
  }

  /** `flag_get`: a missing item or attribute gives the default; only a boolean attribute
    * is read as a flag. */
  function FlagGet(response: Result<Option<Item>, string>, key: string, default: bool)
    : (r: Result<bool, DynamoDbHandleError>)
  {
    match response
    case Err(e) => Err(DynamoDbError(e))
    case Ok(None) => Ok(default)
    case Ok(Some(item)) =>
      if key !in item then Ok(default)
      else if item[key].Bool? then Ok(item[key].b)
      else Err(UnexpectedAttributeType(key))
  }

  /** `flag_set` writes a boolean attribute, which `flag_get` reads back whatever the default. */
  lemma FlagSetThenGet(item: Item, key: string, flag: bool, default: bool)
    ensures FlagGet(Ok(Some(item[key := Bool(flag)])), key, default) == Ok(flag)
    ensures key !in item ==> FlagGet(Ok(Some(item)), key, default) == Ok(default)
    ensures FlagGet(Ok(None), key, default) == Ok(default)
  {
  }
}
