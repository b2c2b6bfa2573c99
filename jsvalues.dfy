/**
 * The JavaScript values the core handles: the results of `JSON.parse` (a small
 * JSON datatype) plus `undefined`, with the few language operations the source
 * applies to them: property access, truthiness, conversion to a string and the
 * object spread `{...payload}`. JSON text itself is never interpreted:
 * `JSON.parse` and `JSON.stringify` are the two functions of a `JsonCodec`
 * that every operation receives.
 */
module JsValues {
  import opened Wrappers
  import Text

  /** A JSON value. Numbers are integers; an object keeps its keys in insertion order. */
  datatype Json =
    | JNull
    | JBool(b: bool)
    | JNum(n: int)
    | JStr(s: string)
    | JArr(items: seq<Json>)
    | JObj(fields: seq<(string, Json)>)

  /** A value JavaScript code can hold after parsing: a JSON value or `undefined`. */
  datatype Value = Undefined | Defined(json: Json)

  /** `JSON.parse` (None when it throws) and `JSON.stringify`, left uninterpreted. */
  datatype JsonCodec = JsonCodec(parse: string -> Option<Json>, stringify: Json -> string)

  /** The value of `key` among `fields`; a repeated key has its last value, as `JSON.parse` gives it. */
  function Lookup(fields: seq<(string, Json)>, key: string): Value
    decreases |fields|
  {
    if |fields| == 0 then Undefined
    else if fields[|fields| - 1].0 == key then Defined(fields[|fields| - 1].1)
    else Lookup(fields[..|fields| - 1], key)
  }

  /** A key is found exactly when some field has it, and then with the value of its last field. */
  lemma {:induction false} LookupFindsLast(fields: seq<(string, Json)>, key: string)
    ensures Lookup(fields, key).Defined? <==> exists k :: 0 <= k < |fields| && fields[k].0 == key
    ensures Lookup(fields, key).Defined? ==>
      exists k :: 0 <= k < |fields| && fields[k] == (key, Lookup(fields, key).json)
        && forall k' :: k < k' < |fields| ==> fields[k'].0 != key
    decreases |fields|
  {
    if |fields| > 0 {
      var init := fields[..|fields| - 1];
      LookupFindsLast(init, key);
      assert forall k :: 0 <= k < |init| ==> init[k] == fields[k];
    }
  }

  /**
   * `v[key]` for a named key (not an array index, not `length`, not a member of
   * `Object.prototype`: the keys the source reads). None when the access throws
   * a TypeError, which it does exactly on `null` and `undefined`.
   */
  function Member(v: Value, key: string): (r: Option<Value>)
    ensures r.None? <==> v == Undefined || v == Defined(JNull)
    ensures v.Defined? && v.json.JObj? ==> r == Some(Lookup(v.json.fields, key))
    // Arrays, strings, numbers and booleans have no such own property.
    ensures v.Defined? && !v.json.JObj? && v.json != JNull ==> r == Some(Undefined)
  {
    match v
    case Undefined => None
    case Defined(JNull) => None
    case Defined(JObj(fields)) => Some(Lookup(fields, key))
    case _ => Some(Undefined)
  }

  /** `v[key]` where `v` is known not to be null or undefined. */
  function Get(v: Value, key: string): Value {
    Member(v, key).GetOr(Undefined)
  }

  /** `v[0]` on a value that is neither null nor undefined. */
  function At0(v: Value): (r: Value)
    ensures v.Defined? && v.json.JArr? ==>
      (r.Defined? <==> |v.json.items| > 0) && (r.Defined? ==> r.json == v.json.items[0])
    ensures v.Defined? && v.json.JStr? ==>
      (r.Defined? <==> v.json.s != "") && (r.Defined? ==> r.json == JStr([v.json.s[0]]))
    ensures v.Defined? && v.json.JObj? ==> r == Lookup(v.json.fields, "0")
    ensures v.Defined? && (v.json.JBool? || v.json.JNum?) ==> r == Undefined
  {
    match v
    case Defined(JArr(items)) => if |items| > 0 then Defined(items[0]) else Undefined
    case Defined(JStr(s)) => if |s| > 0 then Defined(JStr([s[0]])) else Undefined
    case Defined(JObj(fields)) => Lookup(fields, "0")
    case _ => Undefined
  }

  /** JavaScript truthiness (JSON has no NaN, so a number is falsy only when it is 0). */
  predicate Truthy(v: Value) {
    match v
    case Undefined => false
    case Defined(JNull) => false
    case Defined(JBool(b)) => b
    case Defined(JNum(n)) => n != 0
    case Defined(JStr(s)) => s != ""
    case Defined(JArr(_)) => true
    case Defined(JObj(_)) => true
  }

  /** The falsy values JSON can give: undefined, null, false, 0 and the empty string. */
  lemma FalsyValues(v: Value)
    ensures !Truthy(v) <==>
      v == Undefined || v == Defined(JNull) || v == Defined(JBool(false)) || v == Defined(JNum(0)) || v == Defined(JStr(""))
  {
  }

  /** `a || b`. */
  function Or(a: Value, b: Value): (r: Value)
    ensures Truthy(a) ==> r == a
    ensures !Truthy(a) ==> r == b
  {
    if Truthy(a) then a else b
  }

  /** The value is the string `s`. */
  predicate IsString(v: Value) {
    v.Defined? && v.json.JStr?
  }

  /**
   * `String(v)`, which is also what `text += v` appends: arrays are joined with
   * commas (null and undefined elements as empty text), plain objects give
   * "[object Object]".
   */
  function ToJsString(v: Value): string
    decreases v, 1
  {
    match v
    case Undefined => "undefined"
    case Defined(j) => JsonToString(j)
  }

  function JsonToString(j: Json): string
    decreases j, if j.JArr? then |j.items| + 1 else 0
  {
    match j
    case JNull => "null"
    case JBool(b) => if b then "true" else "false"
    case JNum(n) => Text.IntToDecimal(n)
    case JStr(s) => s
    case JArr(items) => JoinElements(j, items)
    case JObj(_) => "[object Object]"
  }

  function JoinElements(j: Json, items: seq<Json>): string
    requires j.JArr? && forall x :: x in items ==> x in j.items
    decreases j, |items|
  {
    if |items| == 0 then ""
    else
      assert items[0] in j.items;
      var first := if items[0] == JNull then "" else JsonToString(items[0]);
      if |items| == 1 then first else first + "," + JoinElements(j, items[1..])
  }

  /**
   * `String(v)` on the scalars: undefined, null, booleans and strings as
   * themselves, a number as its decimal digits with a minus sign when it is
   * negative; a plain object as "[object Object]".
   */
  lemma ToJsStringScalars(v: Value)
    ensures v == Undefined ==> ToJsString(v) == "undefined"
    ensures v == Defined(JNull) ==> ToJsString(v) == "null"
    ensures v == Defined(JBool(true)) ==> ToJsString(v) == "true"
    ensures v == Defined(JBool(false)) ==> ToJsString(v) == "false"
    ensures v.Defined? && v.json.JObj? ==> ToJsString(v) == "[object Object]"
    ensures v.Defined? && v.json.JStr? ==> ToJsString(v) == v.json.s
    ensures v.Defined? && v.json.JNum? && v.json.n >= 0 ==> Text.DecimalValue(ToJsString(v)) == v.json.n
    ensures v.Defined? && v.json.JNum? && v.json.n < 0 ==>
      |ToJsString(v)| >= 2 && ToJsString(v)[0] == '-' && Text.DecimalValue(ToJsString(v)[1..]) == -v.json.n
  {
    if v.Defined? && v.json.JNum? {
      var n := v.json.n;
      if n >= 0 {
        Text.NatToDecimalDigits(n);
      } else {
        Text.NatToDecimalDigits(-n);
        assert ("-" + Text.NatToDecimal(-n))[1..] == Text.NatToDecimal(-n);
      }
    }
  }

  /** An element's text in `array.join(",")`: a null element gives empty text. */
  function ElementText(x: Json): string {
    if x == JNull then "" else JsonToString(x)
  }

  /** The comma join over the elements is `array.join(",")` over their texts. */
  lemma {:induction false} JoinElementsIsJoin(j: Json, items: seq<Json>)
    requires j.JArr? && forall x :: x in items ==> x in j.items
    ensures JoinElements(j, items)
         == Text.Join(seq(|items|, k requires 0 <= k < |items| => ElementText(items[k])), ",")
    decreases |items|
  {
    var parts := seq(|items|, k requires 0 <= k < |items| => ElementText(items[k]));
    if |items| > 1 {
      JoinElementsIsJoin(j, items[1..]);
      assert parts[1..] == seq(|items| - 1, k requires 0 <= k < |items| - 1 => ElementText(items[1..][k]));
    }
  }

  /** `String(array)` is `array.join(",")`, which is what `Array.prototype.toString` does. */
  lemma ArrayToJsString(items: seq<Json>)
    ensures ToJsString(Defined(JArr(items)))
         == Text.Join(seq(|items|, k requires 0 <= k < |items| => ElementText(items[k])), ",")
  {
    JoinElementsIsJoin(JArr(items), items);
  }

  /** The fields of the object literal `{k1: v1, ...}`: `JSON.stringify` leaves out undefined values. */
  function ObjOf(fields: seq<(string, Value)>): (r: Json)
    ensures r.JObj? && |r.fields| <= |fields|
    decreases |fields|
  {
    if |fields| == 0 then JObj([])
    else
      var init := ObjOf(fields[..|fields| - 1]);
      var (k, v) := fields[|fields| - 1];
      if v.Undefined? then init else JObj(init.fields + [(k, v.json)])
  }

  /**
   * Reading back a field of an object literal with distinct keys: a defined
   * value is found as written, an undefined one (or a key not written) is absent.
   */
  lemma {:induction false} ObjOfLookup(fields: seq<(string, Value)>, key: string)
    requires forall a, b :: 0 <= a < b < |fields| ==> fields[a].0 != fields[b].0
    ensures forall k :: 0 <= k < |fields| && fields[k].0 == key ==> Lookup(ObjOf(fields).fields, key) == fields[k].1
    ensures (forall k :: 0 <= k < |fields| ==> fields[k].0 != key) ==> Lookup(ObjOf(fields).fields, key) == Undefined
    decreases |fields|
  {
    if |fields| > 0 {
      var init := fields[..|fields| - 1];
      var prefix := ObjOf(init).fields;
      var (k, v) := fields[|fields| - 1];
      ObjOfLookup(init, key);
      assert forall a :: 0 <= a < |init| ==> init[a] == fields[a];
      if !v.Undefined? {
        assert ObjOf(fields).fields == prefix + [(k, v.json)];
        assert (prefix + [(k, v.json)])[..|prefix|] == prefix;
      }
    }
  }

  /** Sets `key` to `val`: in place when the key is present, otherwise at the end. */
  function Assign(fields: seq<(string, Json)>, key: string, val: Json): (r: seq<(string, Json)>)
    ensures |r| >= |fields|
    ensures forall k :: 0 <= k < |fields| ==> r[k].0 == fields[k].0
    decreases |fields|
  {
    if |fields| == 0 then [(key, val)]
    else if fields[0].0 == key then [(key, val)] + fields[1..]
    else [fields[0]] + Assign(fields[1..], key, val)
  }

  /** The own enumerable fields a spread `...v` copies; null and primitives have none. */
  function OwnFields(v: Json): seq<(string, Json)> {
    if v.JObj? then v.fields else []
  }

  /** `{...base, ...payload}`: the fields of `payload` are assigned in order on top of `base`. */
  function Spread(base: seq<(string, Json)>, payload: seq<(string, Json)>): seq<(string, Json)>
    decreases |payload|
  {
    if |payload| == 0 then base
    else Spread(Assign(base, payload[0].0, payload[0].1), payload[1..])
  }

  /** The keys of `fields`, in order. */
  function Keys(fields: seq<(string, Json)>): (r: seq<string>)
    ensures |r| == |fields|
  {
    seq(|fields|, k requires 0 <= k < |fields| => fields[k].0)
  }

  /** No key appears twice: the fields of an object JavaScript code builds. */
  predicate UniqueKeys(fields: seq<(string, Json)>) {
    forall a, b :: 0 <= a < b < |fields| ==> Keys(fields)[a] != Keys(fields)[b]
  }

  lemma {:induction false} LookupAbsent(fields: seq<(string, Json)>, key: string)
    requires key !in Keys(fields)
    ensures Lookup(fields, key) == Undefined
    decreases |fields|
  {
    if |fields| > 0 {
      var init := fields[..|fields| - 1];
      assert Keys(fields)[|fields| - 1] == fields[|fields| - 1].0;
      assert forall k :: 0 <= k < |init| ==> Keys(init)[k] == Keys(fields)[k];
      LookupAbsent(init, key);
    }
  }

  /** Looking up in `[x] + rest`: the last binding wins, so `x` counts only when `rest` lacks the key. */
  lemma {:induction false} LookupCons(x: (string, Json), rest: seq<(string, Json)>, key: string)
    ensures Lookup([x] + rest, key)
         == if Lookup(rest, key).Defined? then Lookup(rest, key) else if x.0 == key then Defined(x.1) else Undefined
    decreases |rest|
  {
    var all := [x] + rest;
    if |rest| > 0 {
      assert all[..|all| - 1] == [x] + rest[..|rest| - 1];
      assert all[|all| - 1] == rest[|rest| - 1];
      LookupCons(x, rest[..|rest| - 1], key);
    } else {
      assert all[..|all| - 1] == [];
    }
  }

  lemma KeysCons(x: (string, Json), rest: seq<(string, Json)>)
    ensures Keys([x] + rest) == [x.0] + Keys(rest)
  {
  }

  /** Assigning adds the key at the end when it is new and otherwise leaves the keys as they are. */
  lemma {:induction false} AssignKeys(fields: seq<(string, Json)>, key: string, val: Json)
    ensures Keys(Assign(fields, key, val)) == if key in Keys(fields) then Keys(fields) else Keys(fields) + [key]
    decreases |fields|
  {
    if |fields| == 0 {
      assert Keys([(key, val)]) == [key];
    } else {
      var rest := fields[1..];
      assert fields == [fields[0]] + rest;
      KeysCons(fields[0], rest);
      if fields[0].0 == key {
        KeysCons((key, val), rest);
      } else {
        AssignKeys(rest, key, val);
        KeysCons(fields[0], Assign(rest, key, val));
      }
    }
  }

  lemma AssignUnique(fields: seq<(string, Json)>, key: string, val: Json)
    requires UniqueKeys(fields)
    ensures UniqueKeys(Assign(fields, key, val))
  {
    AssignKeys(fields, key, val);
  }

  /** Assigning a key gives it the new value and keeps the value of every other key. */
  lemma {:induction false} AssignLookup(fields: seq<(string, Json)>, key: string, val: Json, probe: string)
    requires UniqueKeys(fields)
    ensures Lookup(Assign(fields, key, val), probe) == if probe == key then Defined(val) else Lookup(fields, probe)
    decreases |fields|
  {
    if |fields| == 0 {
      LookupCons((key, val), [], probe);
      assert [(key, val)] + [] == [(key, val)];
    } else {
      var rest := fields[1..];
      assert fields == [fields[0]] + rest;
      LookupCons(fields[0], rest, probe);
      KeysCons(fields[0], rest);
      assert UniqueKeys(rest) by {
        assert forall k :: 0 <= k < |rest| ==> Keys(rest)[k] == Keys(fields)[k + 1];
      }
      if fields[0].0 == key {
        LookupCons((key, val), rest, probe);
        if probe == key {
          assert key !in Keys(rest) by {
            forall k | 0 <= k < |rest| ensures Keys(rest)[k] != key {
              assert Keys(rest)[k] == Keys(fields)[k + 1] && Keys(fields)[0] == key;
            }
          }
          LookupAbsent(rest, key);
        }
      } else {
        AssignLookup(rest, key, val, probe);
        LookupCons(fields[0], Assign(rest, key, val), probe);
      }
    }
  }

  /**
   * `{...base, ...payload}` for an object `base` JavaScript code built: a key of
   * `payload` takes its (last) value there, any other key keeps its value in
   * `base`, and the keys of `base` keep their places at the front.
   */
  lemma {:induction false} SpreadLookup(base: seq<(string, Json)>, payload: seq<(string, Json)>, probe: string)
    requires UniqueKeys(base)
    ensures UniqueKeys(Spread(base, payload))
    ensures Lookup(Spread(base, payload), probe)
         == if Lookup(payload, probe).Defined? then Lookup(payload, probe) else Lookup(base, probe)
    ensures |Spread(base, payload)| >= |base|
    ensures forall k :: 0 <= k < |base| ==> Spread(base, payload)[k].0 == base[k].0
    decreases |payload|
  {
    if |payload| > 0 {
      var next := Assign(base, payload[0].0, payload[0].1);
      AssignUnique(base, payload[0].0, payload[0].1);
      AssignLookup(base, payload[0].0, payload[0].1, probe);
      SpreadLookup(next, payload[1..], probe);
      assert payload == [payload[0]] + payload[1..];
      LookupCons(payload[0], payload[1..], probe);
    }
  }
}
