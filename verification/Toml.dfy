/** TOML as the bundle reads it: values looked into by key, and the text they are read from and
    written to, which one law ties together. */
module Toml {
  import opened Outcomes

  type Table = map<string, Value>

  datatype Value =
    | Str(text: string)
    | Bool(on: bool)
    | Array(items: seq<Value>)
    | Tab(table: map<string, Value>)
    | Other(token: string)

  /** What the crate takes from elsewhere: the TOML reader and printer, SHA-256 in hexadecimal,
      lower-casing, which characters are blank, and nothing more. */
  datatype World = World(
    parse: string -> Option<Table>,
    printed: Table -> string,
    hash: string -> string,
    lower: string -> string,
    blank: char -> bool
  )

  /** What is printed reads back as the table it was printed from. */
  ghost predicate Lawful(w: World) {
    forall t :: w.parse(w.printed(t)) == Some(t)
  }

  function Field(t: Table, key: string): Option<Value> {
    if key in t then Some(t[key]) else None
  }

  /** A value looked into by a key answers only where it is a table holding the key. */
  function Get(v: Value, key: string): Option<Value> {
    match v
    case Tab(t) => Field(t, key)
    case _ => None
  }

  function AsStr(v: Option<Value>): Option<string> {
    match v
    case Some(Str(text)) => Some(text)
    case _ => None
  }

  function AsBool(v: Option<Value>): Option<bool> {
    match v
    case Some(Bool(on)) => Some(on)
    case _ => None
  }

  function AsArray(v: Option<Value>): seq<Value> {
    match v
    case Some(Array(items)) => items
    case _ => []
  }

  function AsTable(v: Option<Value>): Option<Table> {
    match v
    case Some(Tab(t)) => Some(t)
    case _ => None
  }

  function TextAt(v: Value, key: string): Option<string> {
    AsStr(Get(v, key))
  }

  /** The array `name` names in a table, nothing where it names none. */
  function Rows(t: Table, name: string): seq<Value> {
    AsArray(Field(t, name))
  }

  /** Every text of an array, in order, anything else in it left out. */
  function Texts(items: seq<Value>): seq<string> {
    if items == [] then []
    else (if items[0].Str? then [items[0].text] else []) + Texts(items[1..])
  }

  lemma {:induction false} TextsHold(items: seq<Value>, text: string)
    ensures text in Texts(items) <==> Str(text) in items
  {
    if items != [] {
      TextsHold(items[1..], text);
      assert items == [items[0]] + items[1..];
    }
  }

  function Words(v: Option<Value>): seq<string> {
    Texts(AsArray(v))
  }

  function Or<T>(o: Option<T>, default: T): T {
    match o
    case Some(value) => value
    case None => default
  }

  /** The id each row names. */
  function Ids(rows: seq<Value>): (r: seq<Option<string>>)
    ensures |r| == |rows|
  {
    seq(|rows|, i requires 0 <= i < |rows| => TextAt(rows[i], "id"))
  }
}
