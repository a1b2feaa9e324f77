/** JSON values as the raw writer encodes them, and how many bytes an encoding takes. */
module JsonSize {
  import opened Wrappers

  datatype Json =
    | Null
    | Bool(flag: bool)
    | Number(value: real, bytes: nat)
    | Text(text: string)
    | List(items: seq<Json>)
    | Object(fields: seq<Field>)

  datatype Field = Field(name: string, value: Json)

  /** Bytes of a string between its quotes: UTF-8 and escapes, left uninterpreted. */
  type Encoding = string -> nat

  /** Bytes of a value when each separator takes `sep` bytes. */
  function Bytes(enc: Encoding, v: Json, sep: nat): nat
    decreases v
  {
    match v
    case Null => 4
    case Bool(flag) => if flag then 4 else 5
    case Number(_, bytes) => bytes
    case Text(text) => enc(text) + 2
    case List(items) => 2 + ItemBytes(enc, items, sep)
    case Object(fields) => 2 + FieldBytes(enc, fields, sep)
  }

  function ItemBytes(enc: Encoding, items: seq<Json>, sep: nat): nat
    decreases items
  {
    if items == [] then 0
    else Bytes(enc, items[0], sep) + (if |items| > 1 then sep else 0) + ItemBytes(enc, items[1..], sep)
  }

  function FieldBytes(enc: Encoding, fields: seq<Field>, sep: nat): nat
    decreases fields
  {
    if fields == [] then 0
    else enc(fields[0].name) + 2 + sep + Bytes(enc, fields[0].value, sep) + (if |fields| > 1 then sep else 0) + FieldBytes(enc, fields[1..], sep)
  }

  const COMPACT: nat := 1

  const SPACED: nat := 2

  lemma {:induction false} NarrowIsShorter(enc: Encoding, v: Json, a: nat, b: nat)
    requires a <= b
    ensures Bytes(enc, v, a) <= Bytes(enc, v, b)
    decreases v
  {
    match v {
      case List(items) => ItemsNarrow(enc, items, a, b);
      case Object(fields) => FieldsNarrow(enc, fields, a, b);
      case _ =>
    }
  }

  lemma {:induction false} ItemsNarrow(enc: Encoding, items: seq<Json>, a: nat, b: nat)
    requires a <= b
    ensures ItemBytes(enc, items, a) <= ItemBytes(enc, items, b)
    decreases items
  {
    if items != [] {
      NarrowIsShorter(enc, items[0], a, b);
      ItemsNarrow(enc, items[1..], a, b);
    }
  }

  lemma {:induction false} FieldsNarrow(enc: Encoding, fields: seq<Field>, a: nat, b: nat)
    requires a <= b
    ensures FieldBytes(enc, fields, a) <= FieldBytes(enc, fields, b)
    decreases fields
  {
    if fields != [] {
      NarrowIsShorter(enc, fields[0].value, a, b);
      FieldsNarrow(enc, fields[1..], a, b);
    }
  }

  /** A line as written never exceeds the size measured for it. */
  lemma WrittenWithinMeasured(enc: Encoding, v: Json)
    ensures Bytes(enc, v, COMPACT) + 1 <= Bytes(enc, v, SPACED) + 1
  {
    NarrowIsShorter(enc, v, COMPACT, SPACED);
  }

  function Lookup(fields: seq<Field>, name: string): Option<Json> {
    if fields == [] then None else if fields[0].name == name then Some(fields[0].value) else Lookup(fields[1..], name)
  }

  /******* The text that is counted *******/

  /** How strings, between their quotes, and numbers are spelled, one character a byte; and the two separators. */
  datatype Style = Style(quoted: string -> string, digits: (real, nat) -> string, comma: string, colon: string)

  ghost predicate StyleOk(st: Style, enc: Encoding, sep: nat) {
    && (forall t :: |st.quoted(t)| == enc(t)) && (forall x, n :: |st.digits(x, n)| == n)
    && |st.comma| == sep && |st.colon| == sep
  }

  /** The JSON text of a value. */
  function Print(st: Style, v: Json): string
    decreases v
  {
    match v
    case Null => "null"
    case Bool(flag) => if flag then "true" else "false"
    case Number(value, bytes) => st.digits(value, bytes)
    case Text(text) => "\"" + st.quoted(text) + "\""
    case List(items) => "[" + PrintItems(st, items) + "]"
    case Object(fields) => "{" + PrintFields(st, fields) + "}"
  }

  function PrintItems(st: Style, items: seq<Json>): string
    decreases items
  {
    if items == [] then "" else Print(st, items[0]) + (if |items| > 1 then st.comma else "") + PrintItems(st, items[1..])
  }

  function PrintFields(st: Style, fields: seq<Field>): string
    decreases fields
  {
    if fields == [] then "" else
      ("\"" + st.quoted(fields[0].name) + "\"") + st.colon + Print(st, fields[0].value)
      + (if |fields| > 1 then st.comma else "") + PrintFields(st, fields[1..])
  }

  /** The counted size is the length of the text. */
  lemma {:induction false} BytesAreLength(st: Style, enc: Encoding, sep: nat, v: Json)
    requires StyleOk(st, enc, sep)
    ensures |Print(st, v)| == Bytes(enc, v, sep)
    decreases v
  {
    match v {
      case List(items) => ItemsAreLength(st, enc, sep, items);
      case Object(fields) => FieldsAreLength(st, enc, sep, fields);
      case _ =>
    }
  }

  lemma {:induction false} ItemsAreLength(st: Style, enc: Encoding, sep: nat, items: seq<Json>)
    requires StyleOk(st, enc, sep)
    ensures |PrintItems(st, items)| == ItemBytes(enc, items, sep)
    decreases items
  {
    if items != [] {
      BytesAreLength(st, enc, sep, items[0]);
      ItemsAreLength(st, enc, sep, items[1..]);
    }
  }

  lemma {:induction false} FieldsAreLength(st: Style, enc: Encoding, sep: nat, fields: seq<Field>)
    requires StyleOk(st, enc, sep)
    ensures |PrintFields(st, fields)| == FieldBytes(enc, fields, sep)
    decreases fields
  {
    if fields != [] {
      BytesAreLength(st, enc, sep, fields[0].value);
      FieldsAreLength(st, enc, sep, fields[1..]);
    }
  }

  /** Looking a name up finds the field of that name, if there is one. */
  lemma {:induction false} LookupMeans(fields: seq<Field>, name: string)
    ensures match Lookup(fields, name)
            case Some(v) => Field(name, v) in fields
            case None => forall f :: f in fields ==> f.name != name
  {
    if fields != [] && fields[0].name != name {
      LookupMeans(fields[1..], name);
      assert fields == [fields[0]] + fields[1..];
    }
  }
}
