/** The grouping loop as written, on a plain `{}` object: `query[key]`
    finds not only the record's own entries but also the members that
    every object inherits from `Object.prototype`. Those members are
    functions, hence truthy and not arrays, so a parameter named like one
    of them starts a two-element list whose first element is the inherited
    function. `Navigation.Group`, which looks at own entries only, is the
    intended behaviour and the one the rest of the model uses. */
module QueryPrototype {
  import opened JsValues
  import opened Navigation

  /** An entry as the as-written loop can see it. */
  datatype Slot = Text(s: string) | List(items: seq<Slot>) | Inherited

  /** The function-valued members of `Object.prototype` (the `__proto__`
      accessor is not part of this model). */
  const PrototypeMethods: set<string> := {
    "constructor", "hasOwnProperty", "isPrototypeOf", "propertyIsEnumerable",
    "toLocaleString", "toString", "valueOf",
    "__defineGetter__", "__defineSetter__", "__lookupGetter__", "__lookupSetter__"
  }

  /** `query[key]` on a plain object: an own entry first, then an inherited member. */
  function Lookup(query: map<string, Slot>, key: string): Option<Slot>
  {
    if key in query then Some(query[key])
    else if key in PrototypeMethods then Some(Inherited)
    else None
  }

  predicate SlotTruthy(v: Slot)
  {
    !v.Text? || v.s != ""
  }

  function AddParamAsWritten(query: map<string, Slot>, key: string, value: string): map<string, Slot>
  {
    var current := Lookup(query, key);
    if current.Some? && SlotTruthy(current.value) then
      if current.value.List? then query[key := List(current.value.items + [Text(value)])]
      else query[key := List([current.value, Text(value)])]
    else
      query[key := Text(value)]
  }

  function GroupAsWritten(params: seq<Param>): map<string, Slot>
  {
    if params == [] then map[]
    else
      var last := params[|params| - 1];
      AddParamAsWritten(GroupAsWritten(params[..|params| - 1]), last.0, last.1)
  }

  function Embed(v: QueryValue): Slot
  {
    match v
    case Single(s) => Text(s)
    case Multi(vs) => List(seq(|vs|, i requires 0 <= i < |vs| => Text(vs[i])))
  }

  function EmbedAll(query: map<string, QueryValue>): map<string, Slot>
  {
    map k | k in query :: Embed(query[k])
  }

  /** `?constructor=x` gives `constructor` the list [Object, "x"] as written,
      where the own-entry grouping gives the plain string "x". */
  lemma ConstructorParamBecomesList()
    ensures GroupAsWritten([("constructor", "x")]) == map["constructor" := List([Inherited, Text("x")])]
    ensures Group([("constructor", "x")]) == map["constructor" := Single("x")]
  {
  }

  /** For parameters whose keys avoid the inherited members, the loop as
      written and the own-entry grouping build the same record. */
  lemma {:induction false} AsWrittenAgreesOffPrototype(params: seq<Param>)
    requires forall p :: p in params ==> p.0 !in PrototypeMethods
    ensures GroupAsWritten(params) == EmbedAll(Group(params))
  {
    if params != [] {
      var prefix, last := params[..|params| - 1], params[|params| - 1];
      assert forall p :: p in prefix ==> p in params;
      AsWrittenAgreesOffPrototype(prefix);
      var q := Group(prefix);
      var (key, value) := last;
      assert last in params;
      if key in q && Occupied(q[key]) {
        match q[key]
        case Multi(vs) =>
          assert Embed(Multi(vs + [value])).items == Embed(Multi(vs)).items + [Text(value)];
        case Single(s) =>
          assert Embed(Multi([s, value])).items == [Text(s), Text(value)];
      }
    }
  }
}
