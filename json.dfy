/** The JavaScript values that `JSON.parse` can produce, with the two
    JavaScript notions the request handler relies on: truthiness (`!x`) and
    the key equality a `Set` uses (SameValueZero). */
module JsValues {
  import opened Wrappers

  /** A JSON value. Numbers are the doubles `JSON.parse` produces, kept as
      reals (so `-0` and `0` coincide, exactly as SameValueZero treats them). */
  datatype Json =
    | JNull
    | JBool(b: bool)
    | JNum(x: real)
    | JStr(s: string)
    | JArr(items: seq<Json>)
    | JObj(members: seq<(string, Json)>)

  /** A property read: `None` is `undefined`. */
  type Field = Option<Json>

  /** JavaScript truthiness of a property value (`!!v`). */
  predicate Truthy(v: Field)
    ensures Truthy(v) <==> v.Some? && v.value !in {JNull, JBool(false), JNum(0.0), JStr("")}
    ensures v.Some? && (v.value.JArr? || v.value.JObj?) ==> Truthy(v)
  {
    match v
    case None => false
    case Some(JNull) => false
    case Some(JBool(b)) => b
    case Some(JNum(x)) => x != 0.0
    case Some(JStr(s)) => s != ""
    case Some(_) => true
  }

  /** Arrays and objects are compared by identity, every other value by
      content. Every `JSON.parse` call allocates fresh arrays and objects. */
  predicate Primitive(j: Json)
  {
    !j.JArr? && !j.JObj?
  }

  /** The value of property `name` of a parsed object: `JSON.parse` keeps the
      last of several members with the same name. */
  function Get(members: seq<(string, Json)>, name: string): Field
  {
    if |members| == 0 then None
    else if members[|members| - 1].0 == name then Some(members[|members| - 1].1)
    else Get(members[..|members| - 1], name)
  }

  /** Get finds a property exactly when some member has that name, and then
      it is the value of the last such member. */
  lemma {:induction false} GetIsLastMember(members: seq<(string, Json)>, name: string)
    ensures Get(members, name).Some? <==> exists i :: 0 <= i < |members| && members[i].0 == name
    ensures Get(members, name).Some? ==>
      exists i :: (0 <= i < |members| && members[i] == (name, Get(members, name).value)
                   && forall k :: i < k < |members| ==> members[k].0 != name)
  {
    if |members| > 0 && members[|members| - 1].0 != name {
      var init := members[..|members| - 1];
      GetIsLastMember(init, name);
      assert forall i :: 0 <= i < |init| ==> init[i] == members[i];
    }
  }

  /** Reading property `name` of any non-null parsed value: arrays, strings,
      numbers and booleans have none of the handler's property names. */
  function Property(j: Json, name: string): Field
    requires j != JNull
  {
    if j.JObj? then Get(j.members, name) else None
  }
}
