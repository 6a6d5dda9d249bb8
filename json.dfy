/** The contents of the `JSONField`s the core reads and writes (`metadata`,
    `meta`): a map from keys to values. A value that names a row is `Ref(id)`;
    the model does not parse identifiers out of text. */
module Json {
  import opened Basics

  datatype Value = Ref(id: Id) | Num(n: int) | Text(s: string) | Flag(b: bool) | Null

  type Object = map<string, Value>

  /** Python truthiness of a value. */
  predicate Truthy(v: Value) {
    match v
    case Ref(_) => true
    case Num(n) => n != 0
    case Text(s) => s != ""
    case Flag(b) => b
    case Null => false
  }

  /** `arg or {}` for an optional object argument. */
  function OrEmpty(m: Option<Object>): (r: Object)
    ensures m.Some? ==> r == m.value
    ensures m.None? ==> r == map[]
  {
    if m.Some? then m.value else map[]
  }

  /** `d.get(key)`. */
  function Get(d: Object, key: string): (r: Option<Value>)
    ensures r.Some? <==> key in d
    ensures r.Some? ==> r.value == d[key]
  {
    if key in d then Some(d[key]) else None
  }

  /** `dict.update(u)`: keys of `u` take its values, every other key keeps its own. */
  function Update(d: Object, u: Object): (r: Object)
    ensures r.Keys == d.Keys + u.Keys
    ensures forall k :: k in u ==> r[k] == u[k]
    ensures forall k :: k in d && k !in u ==> r[k] == d[k]
  {
    d + u
  }

  /** Updating twice with the same object is updating once. */
  lemma UpdateIdempotent(d: Object, u: Object)
    ensures Update(Update(d, u), u) == Update(d, u)
  {
    var once, twice := Update(d, u), Update(Update(d, u), u);
    assert forall k :: k in twice <==> k in once;
    assert forall k :: k in twice ==> twice[k] == once[k];
  }

  /** Updating with an empty object changes nothing. */
  lemma UpdateEmpty(d: Object)
    ensures Update(d, map[]) == d
  {
  }
}
