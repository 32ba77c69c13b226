/** Decoded JSON documents, as `response.json()` hands them to Python, and what the
    subscript operator `v[k]` does on them. */
module Json {
  import opened PyText

  /** A decoded JSON value. Numbers are integers only; see README for floats. */
  datatype Json =
    | JNull
    | JBool(b: bool)
    | JNum(n: int)
    | JStr(s: string)
    | JArr(items: seq<Json>)
    | JObj(fields: map<string, Json>)

  /** One subscript: `v['name']` or `v[i]`. */
  datatype Key = Field(name: string) | Index(i: nat)

  /** The outcome of a subscript: the value found, a `KeyError` or `IndexError`
      (`Missing`), or a `TypeError` (`WrongType`), each with its `str(e)`. */
  datatype Lookup = Found(value: Json) | Missing(detail: string) | WrongType(detail: string)

  /** `str(KeyError(name))` for the plain key names used here: the name in single quotes. */
  function QuotedKey(name: string): string {
    "'" + name + "'"
  }

  /** Python's `v[k]` on a decoded JSON value: a dict looks its key up, a list or a
      string is indexed by position, and a string key on a list or string, or any
      subscript on `None`, a bool or a number, is a type error. */
  function Subscript(v: Json, k: Key): (r: Lookup)
    ensures r.Found? <==>
      || (v.JObj? && k.Field? && k.name in v.fields)
      || (v.JArr? && k.Index? && k.i < |v.items|)
      || (v.JStr? && k.Index? && k.i < |v.s|)
    ensures r.WrongType? <==> !(v.JObj? || ((v.JArr? || v.JStr?) && k.Index?))
  {
    match v
    case JObj(m) =>
      (match k
       case Field(n) => if n in m then Found(m[n]) else Missing(QuotedKey(n))
       case Index(i) => Missing(IntToString(i)))
    case JArr(xs) =>
      (match k
       case Index(i) => if i < |xs| then Found(xs[i]) else Missing("list index out of range")
       case Field(_) => WrongType("list indices must be integers or slices, not str"))
    case JStr(s) =>
      (match k
       case Index(i) => if i < |s| then Found(JStr([s[i]])) else Missing("string index out of range")
       case Field(_) => WrongType("string indices must be integers, not 'str'"))
    case JNull => WrongType("'NoneType' object is not subscriptable")
    case JBool(_) => WrongType("'bool' object is not subscriptable")
    case JNum(_) => WrongType("'int' object is not subscriptable")
  }

  /** `v[k1][k2]...`: subscripts applied left to right, stopping at the first that raises. */
  function Walk(v: Json, path: seq<Key>): Lookup
    decreases |path|
  {
    if path == [] then Found(v)
    else
      match Subscript(v, path[0])
      case Found(w) => Walk(w, path[1..])
      case other => other
  }

  /** Walking a longer path is walking its first part, then the rest from where it ended. */
  lemma {:induction false} WalkAppend(v: Json, p: seq<Key>, q: seq<Key>)
    ensures Walk(v, p + q) == match Walk(v, p) case Found(w) => Walk(w, q) case other => other
    decreases |p|
  {
    if p == [] {
      assert p + q == q;
    } else {
      assert (p + q)[0] == p[0] && (p + q)[1..] == p[1..] + q;
      match Subscript(v, p[0])
      case Found(w) => WalkAppend(w, p[1..], q);
      case _ =>
    }
  }

  /** The smallest document in which `path` leads to `leaf`: a one-key object for a
      key, and for an index a list holding nulls before the one element. */
  function Nest(path: seq<Key>, leaf: Json): Json
    decreases |path|
  {
    if path == [] then leaf
    else
      var inner := Nest(path[1..], leaf);
      match path[0]
      case Field(n) => JObj(map[n := inner])
      case Index(i) => JArr(seq(i, _ => JNull) + [inner])
  }

  /** A walk finds what was nested along the same path. */
  lemma {:induction false} WalkNest(path: seq<Key>, leaf: Json)
    ensures Walk(Nest(path, leaf), path) == Found(leaf)
  {
    if path != [] {
      WalkNest(path[1..], leaf);
      match path[0]
      case Field(n) =>
      case Index(i) =>
        assert (seq(i, _ => JNull) + [Nest(path[1..], leaf)])[i] == Nest(path[1..], leaf);
    }
  }

  /** What a wrapper's query step returns. The Gemini path returns whatever JSON value
      it finds at the end of the path; a value that is not a string is returned as it is. */
  datatype Reply = Text(text: string) | NonText(value: Json)
}
