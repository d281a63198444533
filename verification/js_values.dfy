/** The JavaScript values the model handles: what `JSON.parse` and `res.json()`
    produce, plus `undefined` for a missing property. Numbers are idealised as
    reals (no NaN, no infinities, no negative zero). */
module JsValues {
  import opened Common

  datatype JsValue =
    | Undefined
    | Null
    | Bool(b: bool)
    | Num(n: real)
    | Str(s: string)
    | Arr(items: seq<JsValue>)
    | Obj(fields: map<string, JsValue>)

  /** JavaScript truthiness: `undefined`, `null`, `false`, `0` and `""` are falsy. */
  predicate Truthy(v: JsValue) {
    match v
    case Undefined => false
    case Null => false
    case Bool(b) => b
    case Num(n) => n != 0.0
    case Str(s) => s != ""
    case Arr(_) => true
    case Obj(_) => true
  }

  /** Loose equality with null: `v == null`. */
  predicate IsNullish(v: JsValue) {
    v.Undefined? || v.Null?
  }

  /** Property access `v.key`. Reading a property of `null` or `undefined`
      throws a TypeError (`None`); an object yields its own property or
      `undefined`; arrays and primitives have none of the property names this
      program looks up, so they yield `undefined`. */
  function Get(v: JsValue, key: string): (r: Option<JsValue>)
    ensures r.None? <==> IsNullish(v)
    ensures v.Obj? && key in v.fields ==> r == Some(v.fields[key])
    ensures v.Obj? && key !in v.fields ==> r == Some(Undefined)
  {
    match v
    case Undefined => None
    case Null => None
    case Obj(fields) => Some(if key in fields then fields[key] else Undefined)
    case _ => Some(Undefined)
  }

  /** Property access behind a guard that already excluded `null` and `undefined`. */
  function Prop(v: JsValue, key: string): JsValue {
    if v.Obj? && key in v.fields then v.fields[key] else Undefined
  }

  /** The own enumerable properties that object spread `{...v}` copies: an
      object's fields; an array's elements and a string's characters under
      their decimal indices; nothing for `null`, `undefined`, booleans and
      numbers. */
  function SpreadFields(v: JsValue): (m: map<string, JsValue>)
    ensures v.Obj? ==> m == v.fields
    ensures v.Arr? ==> m.Keys == IndexKeys(|v.items|)
    ensures v.Arr? ==> forall i :: 0 <= i < |v.items| ==> NatToString(i) in m && m[NatToString(i)] == v.items[i]
    ensures v.Str? ==> m.Keys == IndexKeys(|v.s|)
    ensures v.Str? ==> forall i :: 0 <= i < |v.s| ==> NatToString(i) in m && m[NatToString(i)] == Str([v.s[i]])
    ensures !v.Obj? && !v.Arr? && !v.Str? ==> m == map[]
  {
    match v
    case Obj(fields) => fields
    case Arr(items) => IndexFields(items)
    case Str(s) => IndexFields(seq(|s|, i requires 0 <= i < |s| => Str([s[i]])))
    case _ => map[]
  }

  /** The decimal indices `"0"` up to `n - 1`. */
  function IndexKeys(n: nat): set<string>
  {
    set i | 0 <= i < n :: NatToString(i)
  }

  /** One more index adds its own key, which no smaller index renders. */
  lemma IndexKeysStep(n: nat)
    ensures IndexKeys(n + 1) == IndexKeys(n) + {NatToString(n)}
    ensures NatToString(n) !in IndexKeys(n)
  {
    forall k | k in IndexKeys(n + 1)
      ensures k in IndexKeys(n) + {NatToString(n)}
    {
      var i :| 0 <= i < n + 1 && k == NatToString(i);
      if i < n {
        assert k in IndexKeys(n);
      }
    }
    if NatToString(n) in IndexKeys(n) {
      var i :| 0 <= i < n && NatToString(n) == NatToString(i);
      NatToStringInjective(i, n);
    }
  }

  /** The elements of `items` keyed by their decimal indices. */
  function IndexFields(items: seq<JsValue>): (m: map<string, JsValue>)
    ensures m.Keys == IndexKeys(|items|)
    ensures forall i :: 0 <= i < |items| ==> NatToString(i) in m && m[NatToString(i)] == items[i]
  {
    if items == [] then map[]
    else
      var n := |items| - 1;
      var prefix := IndexFields(items[..n]);
      IndexFieldsExtend(items, prefix);
      prefix[NatToString(n) := items[n]]
  }

  /** Adding the key of index `n` to a map keyed by the indices below `n`. */
  lemma UpdatedKeys(prefix: map<string, JsValue>, n: nat, v: JsValue)
    requires prefix.Keys == IndexKeys(n)
    ensures prefix[NatToString(n) := v].Keys == IndexKeys(n + 1)
  {
    IndexKeysStep(n);
    assert prefix[NatToString(n) := v].Keys == prefix.Keys + {NatToString(n)};
  }

  /** Keying the last element by its index extends the keying of the
      others. */
  lemma IndexFieldsExtend(items: seq<JsValue>, prefix: map<string, JsValue>)
    requires |items| > 0
    requires prefix.Keys == IndexKeys(|items| - 1)
    requires forall i :: 0 <= i < |items| - 1 ==> NatToString(i) in prefix && prefix[NatToString(i)] == items[..|items| - 1][i]
    ensures prefix[NatToString(|items| - 1) := items[|items| - 1]].Keys == IndexKeys(|items|)
    ensures forall i :: 0 <= i < |items| ==>
      NatToString(i) in prefix[NatToString(|items| - 1) := items[|items| - 1]] &&
      prefix[NatToString(|items| - 1) := items[|items| - 1]][NatToString(i)] == items[i]
  {
    var n := |items| - 1;
    var m := prefix[NatToString(n) := items[n]];
    UpdatedKeys(prefix, n, items[n]);
    IndexKeysStep(n);
    forall i | 0 <= i < n + 1
      ensures NatToString(i) in m && m[NatToString(i)] == items[i]
    {
      if i < n {
        assert NatToString(i) in IndexKeys(n);
        assert items[..n][i] == items[i];
      }
    }
  }

  /** Spreading a string or an array gives one field per index, and each
      index names its own element. */
  lemma SpreadOfIndexed(v: JsValue, i: nat, j: nat)
    requires v.Arr? && i < j < |v.items|
    ensures NatToString(i) != NatToString(j)
    ensures SpreadFields(v)[NatToString(i)] == v.items[i] && SpreadFields(v)[NatToString(j)] == v.items[j]
  {
    if NatToString(i) == NatToString(j) {
      NatToStringInjective(i, j);
    }
  }
}
