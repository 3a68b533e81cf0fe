/** Parsed JSON documents as the upstream server returns them, and the few
    Python operations the connection wrapper applies to them: subscripting,
    `dict.get`, the `in` operator, truthiness and iteration.  Python
    exceptions are modelled as `Err` results. */
module PyJson {

  /** A parsed JSON value.  Objects are Python dicts keyed by strings. */
  datatype Json =
    | Null
    | Bool(b: bool)
    | Num(n: int)
    | Str(s: string)
    | Arr(items: seq<Json>)
    | Obj(fields: map<string, Json>)

  /** The Python exceptions the modelled code can raise. */
  datatype Error =
    | KeyError(key: string)     // dict subscript with a missing key
    | TypeError                 // subscript, `in` or iteration on the wrong kind of value, unhashable key
    | AttributeError            // a method (`get`, `sort`, `casefold`) the value does not have
    | ValueError                // unpacking too few values, `list.remove` of an absent element
    | InvalidBase64             // `binascii.Error` raised by `base64.b64decode`
    | IndexError                // `list[-1]` on an empty list
    | JobFailed(result: Json)   // `AssertionError(result)` raised for a job without a `Right` result

  datatype Option<T> = None | Some(value: T)

  datatype Result<T> = Ok(value: T) | Err(error: Error)

  /** `x[key]` for a string key. */
  function Subscript(x: Json, key: string): (r: Result<Json>)
    ensures r.Ok? <==> x.Obj? && key in x.fields
    ensures r.Ok? ==> r.value == x.fields[key]
    ensures x.Obj? && key !in x.fields ==> r == Err(KeyError(key))
    ensures !x.Obj? ==> r == Err(TypeError)
  {
    match x
    case Obj(m) => if key in m then Ok(m[key]) else Err(KeyError(key))
    case _ => Err(TypeError)
  }

  /** `x.get(key)`: `None` (here `Null`) for a missing key; only dicts have `get`. */
  function Get(x: Json, key: string): (r: Result<Json>)
    ensures r.Ok? <==> x.Obj?
    ensures x.Obj? && key in x.fields ==> r == Ok(x.fields[key])
    ensures x.Obj? && key !in x.fields ==> r == Ok(Null)
  {
    match x
    case Obj(m) => Ok(if key in m then m[key] else Null)
    case _ => Err(AttributeError)
  }

  /** `needle` occurs in `hay` starting at index `i`. */
  predicate OccursAt(needle: string, hay: string, i: int) {
    0 <= i && i + |needle| <= |hay| && hay[i..i + |needle|] == needle
  }

  /** `needle` occurs as a contiguous piece of `hay`. */
  predicate IsSubstring(needle: string, hay: string) {
    exists i | 0 <= i <= |hay| - |needle| :: OccursAt(needle, hay, i)
  }

  /** `name in x` for a string `name`: element test on a list, key test on a
      dict, substring test on a string; other values are not iterable. */
  function Contains(x: Json, name: string): (r: Result<bool>)
    ensures r.Ok? <==> x.Arr? || x.Obj? || x.Str?
    ensures x.Arr? ==> r == Ok(Str(name) in x.items)
    ensures x.Obj? ==> r == Ok(name in x.fields)
    ensures x.Str? ==> r == Ok(IsSubstring(name, x.s))
    ensures x.Str? && r == Ok(true) ==> |name| <= |x.s|
  {
    match x
    case Arr(items) => Ok(Str(name) in items)
    case Obj(m) => Ok(name in m)
    case Str(s) => Ok(IsSubstring(name, s))
    case _ => Err(TypeError)
  }

  /** Python truthiness of a JSON value. */
  predicate Truthy(x: Json) {
    match x
    case Null => false
    case Bool(b) => b
    case Num(n) => n != 0
    case Str(s) => s != ""
    case Arr(items) => items != []
    case Obj(m) => m != map[]
  }

  /** The elements a `for` loop over `x` visits, as far as the callers here can
      use them.  A list yields its items.  An empty dict or string yields
      nothing.  A non-empty dict or string yields strings, and every caller in
      the connection wrapper subscripts each element with a string key, which
      raises `TypeError` on a string, so that is the result here.  Other
      values are not iterable. */
  function Elements(x: Json): (r: Result<seq<Json>>)
    ensures x.Arr? ==> r == Ok(x.items)
    ensures r.Ok? && !x.Arr? ==> r.value == []
    ensures !(x.Arr? || x.Obj? || x.Str?) ==> r == Err(TypeError)
  {
    match x
    case Arr(items) => Ok(items)
    case Obj(m) => if m == map[] then Ok([]) else Err(TypeError)
    case Str(s) => if s == "" then Ok([]) else Err(TypeError)
    case _ => Err(TypeError)
  }

  /** `s.split(sep, 1)` unpacked into two names: the part before the first
      `sep` and the part after it; unpacking raises `ValueError` when `sep`
      does not occur, because the split then yields one part only. */
  function SplitOnce<T(==)>(s: seq<T>, sep: T): (r: Result<(seq<T>, seq<T>)>)
    ensures r.Ok? <==> sep in s
    ensures r.Ok? ==> r.value.0 + [sep] + r.value.1 == s && sep !in r.value.0
    ensures r.Err? ==> r.error == ValueError
  {
    if s == [] then Err(ValueError)
    else if s[0] == sep then Ok(([], s[1..]))
    else
      match SplitOnce(s[1..], sep)
      case Err(e) => Err(e)
      case Ok(parts) => Ok(([s[0]] + parts.0, parts.1))
  }

  /** The split is determined by where the first separator is: text before a
      separator that does not itself contain one comes back whole. */
  lemma SplitOnceOf<T>(a: seq<T>, b: seq<T>, sep: T)
    requires sep !in a
    ensures SplitOnce(a + [sep] + b, sep) == Ok((a, b))
  {
    var s := a + [sep] + b;
    var r := SplitOnce(s, sep);
    assert s[|a|] == sep;
    var x, y := r.value.0, r.value.1;
    assert s[|x|] == sep;
    assert x == s[..|x|] && a == s[..|a|];
    assert y == s[|x| + 1..] && b == s[|a| + 1..];
  }
}
