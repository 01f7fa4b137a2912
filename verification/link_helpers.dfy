/**
  Reading and writing the id of the process a diagram element links to.
  The link lives on the element's business object, which may offer
  `get`/`set` accessors, may carry a plain `linkedProcessId` property, and
  may have an `$attrs` map of namespaced attributes where the link is
  mirrored under `pp:linkedProcessId`.
 */
module LinkHelpers {
  import opened Js

  const AttributeName := "pp:linkedProcessId"

  /** The JavaScript values the link slots hold. */
  datatype JsValue = Undefined | Null | Str(s: string)

  /**
    A business object. `property` is the `linkedProcessId` slot: `None`
    when the object has no such property, `Some(v)` when it has one holding
    `v`. When the object has accessors, `get`/`set` read and write that same
    slot. `attrs` is the `$attrs` map, when the object has one.
   */
  datatype BusinessObject = BusinessObject(
    hasAccessors: bool,
    property: Option<JsValue>,
    attrs: Option<map<string, JsValue>>)

  /** JavaScript truthiness of a slot value. */
  predicate IsTruthy(v: JsValue) {
    v.Str? && v.s != ""
  }

  /** `value || null`. */
  function TruthyOrNull(v: JsValue): (r: Option<string>)
    ensures r.Some? <==> IsTruthy(v)
    ensures r.Some? ==> Str(r.value) == v
  {
    if IsTruthy(v) then Some(v.s) else None
  }

  /** `value ?? null`: only null and undefined become null. */
  function NullishOrNull(v: JsValue): (r: Option<string>)
    ensures r.Some? <==> v.Str?
    ensures r.Some? ==> Str(r.value) == v
  {
    if v.Str? then Some(v.s) else None
  }

  /** `$attrs?.['pp:linkedProcessId']`. */
  function MirroredValue(o: BusinessObject): JsValue {
    if o.attrs.Some? && AttributeName in o.attrs.value then o.attrs.value[AttributeName] else Undefined
  }

  /**
    The linked process id: the accessor's value when it is defined, else the
    plain property, else the `$attrs` entry. The first two read a falsy value
    as null; the last reads only null and undefined as null.
   */
  function GetLinkedProcessId(bo: Option<BusinessObject>): (r: Option<string>)
    ensures bo.None? ==> r.None?
    ensures bo.Some? && bo.value.property.Some? ==> r == TruthyOrNull(bo.value.property.value)
    ensures bo.Some? && bo.value.property.None? ==> r == NullishOrNull(MirroredValue(bo.value))
  {
    match bo
    case None => None
    case Some(o) =>
      var accessed := o.property.GetOr(Undefined);
      if o.hasAccessors && accessed != Undefined then TruthyOrNull(accessed)
      else if o.property.Some? then TruthyOrNull(o.property.value)
      else NullishOrNull(MirroredValue(o))
  }

  /** Null, undefined and the empty string all mean "no link". */
  predicate IsUnset(id: JsValue) {
    id == Null || id == Undefined || id == Str("")
  }

  /**
    Sets or clears the link. Clearing sets the accessor slot to undefined
    (or deletes the plain property) and removes the `$attrs` entry. Setting
    writes the slot and mirrors the id into `$attrs` when that map exists.
   */
  function SetLinkedProcessId(bo: Option<BusinessObject>, id: JsValue): (r: Option<BusinessObject>)
    ensures bo.None? ==> r.None?
    ensures bo.Some? ==> r.Some? && r.value.hasAccessors == bo.value.hasAccessors
    ensures bo.Some? ==> (r.value.attrs.Some? <==> bo.value.attrs.Some?)
    ensures bo.Some? && r.value.attrs.Some? ==>
              forall k :: k != AttributeName ==>
                (k in r.value.attrs.value <==> k in bo.value.attrs.value)
                && (k in r.value.attrs.value ==> r.value.attrs.value[k] == bo.value.attrs.value[k])
    ensures bo.Some? && IsUnset(id) ==> MirroredValue(r.value) == Undefined
    ensures bo.Some? && !IsUnset(id) ==> r.value.property == Some(id)
    ensures bo.Some? && !IsUnset(id) && r.value.attrs.Some? ==> MirroredValue(r.value) == id
  {
    match bo
    case None => None
    case Some(o) =>
      if IsUnset(id) then
        var cleared :=
          if o.hasAccessors then o.(property := Some(Undefined))
          else if o.property.Some? then o.(property := None)
          else o;
        if cleared.attrs.Some? && AttributeName in cleared.attrs.value
        then Some(cleared.(attrs := Some(cleared.attrs.value - {AttributeName})))
        else Some(cleared)
      else
        var written := o.(property := Some(id));
        if written.attrs.Some?
        then Some(written.(attrs := Some(written.attrs.value[AttributeName := id])))
        else Some(written)
  }

  // ---------------------------------------------------------------------
  // Properties.
  // ---------------------------------------------------------------------

  /** Setting a non-empty id and reading it back yields that id. */
  lemma SetThenGet(bo: BusinessObject, s: string)
    requires s != ""
    ensures GetLinkedProcessId(SetLinkedProcessId(Some(bo), Str(s))) == Some(s)
  {
  }

  /** Clearing the link makes it read as null. */
  lemma ClearThenGet(bo: BusinessObject, id: JsValue)
    requires IsUnset(id)
    ensures GetLinkedProcessId(SetLinkedProcessId(Some(bo), id)) == None
  {
  }

  /** Setting the same value twice is the same as setting it once. */
  lemma SetIsIdempotent(bo: Option<BusinessObject>, id: JsValue)
    ensures SetLinkedProcessId(SetLinkedProcessId(bo, id), id) == SetLinkedProcessId(bo, id)
  {
    if bo.Some? && bo.value.attrs.Some? {
      var m := bo.value.attrs.value;
      if IsUnset(id) {
        assert AttributeName !in m - {AttributeName};
      } else {
        assert m[AttributeName := id][AttributeName := id] == m[AttributeName := id];
      }
    }
  }

  /**
    A present property, even an empty or null one, hides the `$attrs`
    entry, while an empty `$attrs` entry reads as the empty string.
   */
  lemma PropertyShadowsAttrs(bo: BusinessObject, mirrored: JsValue)
    requires bo.property.Some? && bo.attrs == Some(map[AttributeName := mirrored])
    ensures GetLinkedProcessId(Some(bo)) == TruthyOrNull(bo.property.value)
    ensures GetLinkedProcessId(Some(bo.(property := None))) == NullishOrNull(mirrored)
    ensures GetLinkedProcessId(Some(bo.(property := None, attrs := Some(map[AttributeName := Str("")])))) == Some("")
  {
  }
}
