/**
 * The JSON values the normalizers receive from the backend, with the parts of JavaScript's
 * semantics they rely on: `undefined` versus `null`, `??`, optional property access `?.`,
 * `Boolean(...)` and `String(...)`.
 */
module JsValues {
  import opened Wrappers
  import opened JsText

  /** A JSON value; numbers are modelled as integers. */
  datatype JsValue =
    | JsNull
    | JsBool(b: bool)
    | JsNumber(n: int)
    | JsString(s: string)
    | JsArray(items: seq<JsValue>)
    | JsObject(fields: map<string, JsValue>)

  /** What a property read yields: `None` is `undefined`. */
  type Slot = Option<JsValue>

  /** `null` or `undefined`: the values `??` and `?.` skip. */
  predicate Nullish(v: Slot) {
    v.None? || v.value.JsNull?
  }

  /** `a ?? b` */
  function Coalesce(a: Slot, b: Slot): (r: Slot)
    ensures r == a || r == b
    ensures Nullish(r) <==> Nullish(a) && Nullish(b)
    ensures !Nullish(a) ==> r == a
    ensures Nullish(a) ==> r == b
  {
    if Nullish(a) then b else a
  }

  /**
   * `r` is the value of `a ?? b ?? d`, case by case: the first operand that is neither null
   * nor undefined, else the default. A chain of one key is written with `b` being `None`.
   */
  predicate FirstOf(r: JsValue, a: Slot, b: Slot, d: JsValue) {
    && (!Nullish(a) ==> Some(r) == a)
    && (Nullish(a) && !Nullish(b) ==> Some(r) == b)
    && (Nullish(a) && Nullish(b) ==> r == d)
  }

  /** `a ?? d` for a default `d` that is itself a value. */
  function Default(a: Slot, d: JsValue): (r: JsValue)
    ensures FirstOf(r, a, None, d)
    ensures d != JsNull ==> r != JsNull
  {
    if Nullish(a) then d else a.value
  }

  /**
   * `v?.key`: undefined on a nullish `v`; an object's own property; the `length` of an array
   * (its element count) or of a string (its UTF-16 length); undefined otherwise. Array index
   * properties are never read by the normalizers and are not modelled.
   */
  function Get(v: Slot, key: string): (r: Slot)
    ensures Nullish(v) ==> r.None?
    ensures r.Some? && key != "length" ==> v.Some? && v.value.JsObject? && key in v.value.fields
    // an object's own property, or undefined when it has none
    ensures !Nullish(v) && v.value.JsObject? ==>
      r == (if key in v.value.fields then Some(v.value.fields[key]) else None)
    // `length` of an array counts its elements, of a string its UTF-16 code units
    ensures !Nullish(v) && v.value.JsArray? ==> r == (if key == "length" then Some(JsNumber(|v.value.items|)) else None)
    ensures !Nullish(v) && v.value.JsString? ==> r == (if key == "length" then Some(JsNumber(Utf16Length(v.value.s))) else None)
    // a boolean or number has none of the properties the normalizers read
    ensures !Nullish(v) && (v.value.JsBool? || v.value.JsNumber?) ==> r.None?
  {
    if Nullish(v) then None
    else match v.value
      case JsObject(m) => if key in m then Some(m[key]) else None
      case JsArray(items) => if key == "length" then Some(JsNumber(|items|)) else None
      case JsString(s) => if key == "length" then Some(JsNumber(Utf16Length(s))) else None
      case _ => None
  }

  /** An object literal property `key: v`, which a property read gives back as `v`. */
  function Put(m: map<string, JsValue>, key: string, v: Slot): (r: map<string, JsValue>)
    ensures Get(Some(JsObject(r)), key) == v
    ensures forall k :: k != key ==> Get(Some(JsObject(r)), k) == Get(Some(JsObject(m)), k)
  {
    if v.Some? then m[key := v.value] else m - {key}
  }

  /** `Boolean(v)` (no `NaN` among the modelled numbers). */
  function Truthy(v: Slot): (r: bool)
    ensures Nullish(v) ==> !r
    // every array and object is truthy, even an empty one
    ensures v.Some? && (v.value.JsArray? || v.value.JsObject?) ==> r
    // a boolean is itself, a number is truthy when non-zero, a string when non-empty
    ensures v.Some? && v.value.JsBool? ==> (r <==> v.value.b)
    ensures v.Some? && v.value.JsNumber? ==> (r <==> v.value.n != 0)
    ensures v.Some? && v.value.JsString? ==> (r <==> v.value.s != [])
  {
    match v
    case None => false
    case Some(x) =>
      match x
      case JsNull => false
      case JsBool(b) => b
      case JsNumber(n) => n != 0
      case JsString(s) => s != []
      case _ => true
  }

  /** `String(v)`, which for these values is also what `v.toString()` gives. */
  function ToStr(v: JsValue): (r: string)
    ensures v.JsNull? ==> r == "null"
    ensures v.JsBool? ==> r == (if v.b then "true" else "false")
    ensures v.JsNumber? ==> r == IntToString(v.n) && r != [] && (r[0] == '-' <==> v.n < 0)
    ensures v.JsString? ==> r == v.s
    ensures v.JsArray? ==> r == JoinItems(v.items, v)
    ensures v.JsObject? ==> r == "[object Object]"
    decreases v, 1, 0
  {
    match v
    case JsNull => "null"
    case JsBool(b) => if b then "true" else "false"
    case JsNumber(n) => IntToString(n)
    case JsString(s) => s
    case JsArray(items) => JoinItems(items, v)
    case JsObject(_) => "[object Object]"
  }

  /** `Array.prototype.join(",")`: elements converted to text, `null` as the empty text. */
  function JoinItems(items: seq<JsValue>, whole: JsValue): (r: string)
    requires forall x :: x in items ==> x < whole
    ensures items == [] ==> r == []

    decreases whole, 0, |items|
  {
    if items == [] then []
    else
      assert items[0] in items;
      var first := ItemText(items[0]);
      assert forall x :: x in items[1..] ==> x in items;
      if |items| == 1 then first else first + "," + JoinItems(items[1..], whole)
  }

  /** One array element as `join` writes it: `null` as the empty text. */
  function ItemText(x: JsValue): string {
    if x.JsNull? then [] else ToStr(x)
  }

  /** The join does not depend on which enclosing value the elements are measured against. */
  lemma {:induction false} JoinItemsAnyWhole(items: seq<JsValue>, w1: JsValue, w2: JsValue)
    requires forall x :: x in items ==> x < w1 && x < w2
    ensures JoinItems(items, w1) == JoinItems(items, w2)
    decreases |items|
  {
    if items != [] {
      assert forall x :: x in items[1..] ==> x in items;
      JoinItemsAnyWhole(items[1..], w1, w2);
    }
  }

  /**
   * `String` of an array: the empty array is "", and otherwise the first element's text,
   * followed by "," and the text of the remaining array when there is one.
   */
  lemma ArrayText(x: JsValue, rest: seq<JsValue>)
    ensures ToStr(JsArray([])) == []
    ensures ToStr(JsArray([x] + rest)) ==
      ItemText(x) + (if rest == [] then [] else "," + ToStr(JsArray(rest)))
  {
    var items := [x] + rest;
    assert items[0] == x && items[1..] == rest;
    assert forall y :: y in rest ==> y in items;
    if rest != [] {
      JoinItemsAnyWhole(rest, JsArray(items), JsArray(rest));
    }
  }

  /** `toStringId`: `undefined` and `null` become "", anything else its text. */
  function ToStringId(v: Slot): (r: string)
    ensures Nullish(v) ==> r == []
    ensures !Nullish(v) ==> r == ToStr(v.value)
  {
    if Nullish(v) then [] else ToStr(v.value)
  }

  /**
   * The empty id arises from `null`, `undefined` or the empty string and from no other
   * number, boolean or string.
   */
  lemma ToStringIdEmpty(v: Slot)
    requires v.Some? ==> (v.value.JsNull? || v.value.JsBool? || v.value.JsNumber? || v.value.JsString?)
    ensures ToStringId(v) == [] <==> Nullish(v) || v == Some(JsString([]))
  {
  }

  /** A numeric id and the same id sent as text normalize to the same string. */
  lemma NumberIdMatchesTextId(n: int)
    ensures ToStringId(Some(JsNumber(n))) == ToStringId(Some(JsString(IntToString(n))))
    ensures ToStringId(Some(JsNumber(n))) != []
  {
  }
}
