/** Parsed JSON, and reading typed fields out of an object. What is wrong with a
    file is not told apart here: it is refused. */
module JsonValues {
  import opened Options
  import opened Domain

  /** Numbers are whole, as positions and parameters are here. */
  datatype Json =
    | Null
    | Bool(truth: bool)
    | Num(number: int)
    | Str(text: string)
    | Arr(items: seq<Json>)
    | Obj(fields: map<string, Json>)

  datatype Result<+T> = Ok(value: T) | Refused
  {
    predicate IsFailure() {
      Refused?
    }

    function PropagateFailure<U>(): Result<U>
      requires Refused?
    {
      Refused
    }

    function Extract(): T
      requires Ok?
    {
      value
    }
  }

  type Fields = map<string, Json>

  function AsObject(value: Json): Result<Fields> {
    if value.Obj? then Ok(value.fields) else Refused
  }

  function AsArray(value: Json): Result<seq<Json>> {
    if value.Arr? then Ok(value.items) else Refused
  }

  /** A field that is there and not null. */
  function Present(parent: Fields, key: string): Option<Json> {
    if key in parent && parent[key] != Null then Some(parent[key]) else None
  }

  function Required(parent: Fields, key: string): Result<Json> {
    match Present(parent, key)
    case None => Refused
    case Some(value) => Ok(value)
  }

  function AsText(value: Json): Result<string> {
    if value.Str? then Ok(value.text) else Refused
  }

  function RequiredText(parent: Fields, key: string): Result<string> {
    var value :- Required(parent, key);
    AsText(value)
  }

  function OptionalText(parent: Fields, key: string): Result<Option<string>> {
    match Present(parent, key)
    case None => Ok(None)
    case Some(value) =>
      var text :- AsText(value);
      Ok(Some(text))
  }

  function Flag(parent: Fields, key: string, default: bool): Result<bool> {
    match Present(parent, key)
    case None => Ok(default)
    case Some(value) => if value.Bool? then Ok(value.truth) else Refused
  }

  /** A number that fits 32 bits without a sign. */
  function Count(parent: Fields, key: string): Result<Option<U32>> {
    match Present(parent, key)
    case None => Ok(None)
    case Some(value) =>
      if value.Num? && 0 <= value.number < 0x1_0000_0000 then
        var n: U32 := value.number;
        Ok(Some(n))
      else Refused
  }

  function Coordinate(parent: Fields, key: string): Result<int> {
    match Present(parent, key)
    case None => Ok(0)
    case Some(value) => if value.Num? then Ok(value.number) else Refused
  }
}
