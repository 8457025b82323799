/** The dynamic value model that flows through rendering: values, the
    borrowed-or-owned wrapper, errors with their trace context, and the two
    textual forms of a value (its rendering and its source form). */
module Values {

  datatype Option<+T> = None | Some(value: T)

  /** A runtime value. Floating-point numbers and dates are not modelled. */
  datatype Value =
    | Nil
    | Bool(b: bool)
    | Int(i: int)
    | Str(s: string)
    | Array(elems: seq<Value>)
    | Object(entries: seq<(string, Value)>)

  /** A value handle that either refers into existing state or owns a freshly computed value. */
  datatype ValueCow = Borrowed(value: Value) | Owned(value: Value)

  /** An error: its message, the `key: value` context annotations and the trace lines added while it propagated. */
  datatype Error = Error(msg: string, context: seq<(string, string)>, trace: seq<string>) {
    function Context(key: string, value: string): Error {
      this.(context := context + [(key, value)])
    }

    function Trace(line: string): Error {
      this.(trace := trace + [line])
    }
  }

  function Message(msg: string): Error {
    Error(msg, [], [])
  }

  datatype Result<+T> = Ok(value: T) | Err(error: Error)

  /** The result of an operation that produces no value (`Result<()>`). */
  datatype Outcome = Done | Failed(error: Error)

  /** One path segment: an object key or an array offset (negative offsets count from the end). */
  datatype Index = Key(key: string) | Pos(pos: int)

  /** The value stored under `key`, taking the first entry with that key; Nil when there is none. */
  function Find(entries: seq<(string, Value)>, key: string): Value
  {
    if entries == [] then Nil
    else if entries[0].0 == key then entries[0].1
    else Find(entries[1..], key)
  }

  /** Child lookup. A missing key, an offset out of range or indexing a scalar yields Nil, not an error. */
  function Get(v: Value, idx: Index): Value
  {
    match (v, idx)
    case (Array(elems), Pos(p)) =>
      if 0 <= p < |elems| then elems[p]
      else if p < 0 && -p <= |elems| then elems[|elems| + p]
      else Nil
    case (Object(entries), Key(k)) => Find(entries, k)
    case _ => Nil
  }

  function GetPath(v: Value, path: seq<Index>): Value
    decreases path
  {
    if path == [] then v else GetPath(Get(v, path[0]), path[1..])
  }

  function Digit(d: nat): char
    requires d < 10
  {
    "0123456789"[d]
  }

  function NatToString(n: nat): string
  {
    if n < 10 then [Digit(n)] else NatToString(n / 10) + [Digit(n % 10)]
  }

  function IntToString(i: int): string
  {
    if i < 0 then "-" + NatToString(-i) else NatToString(i)
  }

  function Concat(parts: seq<string>): string
  {
    if parts == [] then "" else parts[0] + Concat(parts[1..])
  }

  /** `parts` separated by `sep`. */
  function Join(parts: seq<string>, sep: string): string
  {
    if parts == [] then ""
    else if |parts| == 1 then parts[0]
    else parts[0] + sep + Join(parts[1..], sep)
  }

  lemma {:induction false} JoinSnoc(parts: seq<string>, last: string, sep: string)
    requires parts != []
    ensures Join(parts + [last], sep) == Join(parts, sep) + sep + last
  {
    if |parts| == 1 {
      assert parts + [last] == [parts[0], last];
      assert [parts[0], last][1..] == [last];
    } else {
      assert (parts + [last])[1..] == parts[1..] + [last];
      JoinSnoc(parts[1..], last, sep);
    }
  }

  lemma {:induction false} ConcatSnoc(parts: seq<string>, last: string)
    ensures Concat(parts + [last]) == Concat(parts) + last
  {
    if parts == [] {
      assert [last][1..] == [];
    } else {
      assert (parts + [last])[1..] == parts[1..] + [last];
      ConcatSnoc(parts[1..], last);
    }
  }

  /** The text a value renders as: Nil renders as the empty string, an array as its elements' renderings
      one after the other, an object as each key followed by its value's rendering. */
  function Render(v: Value): string
    decreases v
  {
    match v
    case Nil => ""
    case Bool(b) => if b then "true" else "false"
    case Int(i) => IntToString(i)
    case Str(s) => s
    case Array(elems) => Concat(seq(|elems|, k requires 0 <= k < |elems| => Render(elems[k])))
    case Object(entries) =>
      Concat(seq(|entries|, k requires 0 <= k < |entries| => entries[k].0 + Render(entries[k].1)))
  }

  /** The source-equivalent form of a value, as it would be written in a template. */
  function Source(v: Value): string
    decreases v
  {
    match v
    case Nil => "nil"
    case Bool(b) => if b then "true" else "false"
    case Int(i) => IntToString(i)
    case Str(s) => "\"" + s + "\""
    case Array(elems) =>
      "[" + Join(seq(|elems|, k requires 0 <= k < |elems| => Source(elems[k])), ", ") + "]"
    case Object(entries) =>
      "{" + Join(seq(|entries|, k requires 0 <= k < |entries| => "\"" + entries[k].0 + "\": " + Source(entries[k].1)), ", ") + "}"
  }
}
