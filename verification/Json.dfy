/** Parsed JSON values, and the lookups the proxy does on them. */
module Json {
  import opened Options

  datatype Json =
    | Null
    | Bool(value: bool)
    | Number(number: real)
    | Str(text: string)
    | Arr(items: seq<Json>)
    | Obj(fields: map<string, Json>)

  type Fields = map<string, Json>

  /** json_string: the text of a field that is there and is a string. */
  function StringField(o: Fields, key: string): Option<string> {
    if key in o && o[key].Str? then Some(o[key].text) else None
  }

  /** The fields of a field that is there and is an object. */
  function ObjectField(o: Fields, key: string): Option<Fields> {
    if key in o && o[key].Obj? then Some(o[key].fields) else None
  }

  predicate Filled(s: Option<string>) {
    s.Some? && s.value != ""
  }

  function FirstNonEmpty(values: seq<Option<string>>): Option<string> {
    if values == [] then None
    else if Filled(values[0]) then values[0]
    else FirstNonEmpty(values[1..])
  }

  function OrElse<T>(a: Option<T>, b: Option<T>): Option<T> {
    if a.Some? then a else b
  }

  predicate Contains(s: string, part: string) {
    exists i | 0 <= i <= |s| :: part <= s[i..]
  }

  /** A conversion to a signed integer drops the fraction. */
  function Truncate(r: real): (t: int)
    ensures if r >= 0.0 then t as real <= r < t as real + 1.0 else t as real - 1.0 < r <= t as real
  {
    if r >= 0.0 then r.Floor else -((-r).Floor)
  }
}
