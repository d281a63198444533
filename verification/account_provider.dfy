/** The account context's state transitions: the authentication reducer,
    the account-data reducer, and the choice of the profile picture shown.
    Records are maps from property names to values; object spread is map
    union with the right-hand side winning. */
module AccountProvider {
  import opened Common
  import opened JsValues

  type Record = map<string, JsValue>

  /** A dispatched action; `payload` is `Undefined` when the action has none. */
  datatype Action = Action(kind: string, payload: JsValue)

  const AuthKeys: set<string> := {"username", "userId", "nextStep", "accessToken", "idToken", "error", "loading"}

  /** `initAuthState`: every field `null`. */
  const InitAuthState: Record :=
    map["username" := Null, "userId" := Null, "nextStep" := Null, "accessToken" := Null,
        "idToken" := Null, "error" := Null, "loading" := Null]

  /** `initData`. */
  const InitData: Record :=
    map["address" := Arr([]), "loading" := Null, "error" := Null,
        "addresses" := Obj(map["loading" := Null, "data" := Arr([]), "error" := Null])]

  const DefaultAvatar: string := "https://react.pixelstrap.net/fastkart/assets/avatar.png"

  /** `reducer(state, action)`. */
  function Reduce(state: Record, action: Action): (r: Record)
    ensures action.kind == "LOADING" ==>
      r.Keys == state.Keys + {"loading"} && r["loading"] == action.payload &&
      forall k :: k in state && k != "loading" ==> r[k] == state[k]
    ensures action.kind == "SIGNED_IN" ==>
      r.Keys == state.Keys + SpreadFields(action.payload).Keys + {"loading"} && r["loading"] == Bool(false) &&
      (forall k :: k in SpreadFields(action.payload) && k != "loading" ==> r[k] == SpreadFields(action.payload)[k]) &&
      (forall k :: k in state && k !in SpreadFields(action.payload) && k != "loading" ==> r[k] == state[k])
    ensures action.kind == "SIGNED_OUT" ==> r == InitAuthState
    ensures action.kind == "ERROR" ==>
      r.Keys == state.Keys + {"error", "loading"} && r["error"] == action.payload && r["loading"] == Bool(false) &&
      forall k :: k in state && k !in {"error", "loading"} ==> r[k] == state[k]
    ensures action.kind !in {"LOADING", "SIGNED_IN", "SIGNED_OUT", "ERROR"} ==> r == state
  {
    match action.kind
    case "LOADING" => state["loading" := action.payload]
    case "SIGNED_IN" => (state + SpreadFields(action.payload))["loading" := Bool(false)]
    case "SIGNED_OUT" => InitAuthState
    case "ERROR" => state["error" := action.payload]["loading" := Bool(false)]
    case _ => state
  }

  /** The state after a sequence of dispatches. */
  function ReduceAll(state: Record, actions: seq<Action>): Record
    decreases actions
  {
    if actions == [] then state else ReduceAll(Reduce(state, actions[0]), actions[1..])
  }

  /** Starting from `initAuthState` (or any state holding its seven fields),
      no sequence of dispatches loses one of them. */
  lemma {:induction false} AuthFieldsKept(state: Record, actions: seq<Action>)
    requires AuthKeys <= state.Keys
    ensures AuthKeys <= ReduceAll(state, actions).Keys
    decreases actions
  {
    if actions != [] {
      AuthFieldsKept(Reduce(state, actions[0]), actions[1..]);
    }
  }

  /** A sign-in or an error always leaves the state not loading, whatever
      the payload says. */
  lemma SettledActions(state: Record, payload: JsValue)
    ensures Reduce(state, Action("SIGNED_IN", payload))["loading"] == Bool(false)
    ensures Reduce(state, Action("ERROR", payload))["loading"] == Bool(false)
  {
  }

  /** The sign-up actions the provider dispatches leave the state as it was. */
  lemma SignUpActionsIgnored(state: Record, payload: JsValue)
    ensures Reduce(state, Action("SIGNED_UP", payload)) == state
    ensures Reduce(state, Action("CONFIRMED_SIGN_UP", payload)) == state
  {
  }

  /** Signing out forgets everything: the state after it does not depend on
      the state before it, and signing out twice is signing out once. */
  lemma SignOutForgets(s1: Record, s2: Record, p1: JsValue, p2: JsValue)
    ensures Reduce(s1, Action("SIGNED_OUT", p1)) == Reduce(s2, Action("SIGNED_OUT", p2))
    ensures Reduce(Reduce(s1, Action("SIGNED_OUT", p1)), Action("SIGNED_OUT", p2)) == Reduce(s1, Action("SIGNED_OUT", p1))
  {
  }

  /** `reducerData(state, action)`; `None` is the TypeError raised by
      reading `data` from a `null` or `undefined` payload. */
  function ReduceData(state: Record, action: Action): (r: Option<Record>)
    ensures action.kind != "SET_ADDRESSES" ==> r == Some(state)
    ensures action.kind == "SET_ADDRESSES" ==> (r.None? <==> IsNullish(action.payload))
    ensures r.Some? && action.kind == "SET_ADDRESSES" ==>
      r.value.Keys == state.Keys + {"address"} &&
      Some(r.value["address"]) == Get(action.payload, "data") &&
      forall k :: k in state && k != "address" ==> r.value[k] == state[k]
  {
    if action.kind == "SET_ADDRESSES" then
      match Get(action.payload, "data")
      case None => None
      case Some(data) => Some(state["address" := data])
    else Some(state)
  }

  /** The loading and error actions `fetchAddresses` dispatches to the data
      reducer are ignored by it: only the address list ever changes. */
  lemma {:induction false} DataReducerOnlySetsAddresses(state: Record, actions: seq<Action>)
    requires forall i :: 0 <= i < |actions| ==> actions[i].kind != "SET_ADDRESSES"
    ensures ReduceDataAll(state, actions) == Some(state)
  {
    if actions != [] {
      DataReducerOnlySetsAddresses(state, actions[1..]);
    }
  }

  /** The data state after a sequence of dispatches, `None` once one throws. */
  function ReduceDataAll(state: Record, actions: seq<Action>): Option<Record>
    decreases actions
  {
    if actions == [] then Some(state)
    else match ReduceData(state, actions[0])
      case None => None
      case Some(next) => ReduceDataAll(next, actions[1..])
  }

  /** The profile-picture effect: the user's `profile` attribute when a user
      is signed in and the attribute is truthy, the default avatar
      otherwise. `attributes` is the `/me` query's data, `Undefined` while
      it has not arrived. */
  function Profile(auth: Record, attributes: JsValue): (p: JsValue)
    ensures Truthy(p)
    ensures p != Str(DefaultAvatar) ==> "userId" in auth && Truthy(auth["userId"])
    ensures p != Str(DefaultAvatar) ==> p == Prop(attributes, "profile")
    ensures "userId" in auth && Truthy(auth["userId"]) && !IsNullish(attributes) && Truthy(Prop(attributes, "profile")) ==>
      p == Prop(attributes, "profile")
  {
    var userId := if "userId" in auth then auth["userId"] else Undefined;
    var picture := if IsNullish(attributes) then Undefined else Prop(attributes, "profile");
    if Truthy(userId) && Truthy(picture) then picture else Str(DefaultAvatar)
  }

  /** After signing out, the default avatar is shown whatever attributes the
      `/me` query still holds. */
  lemma SignedOutShowsDefault(state: Record, attributes: JsValue, payload: JsValue)
    ensures Profile(Reduce(state, Action("SIGNED_OUT", payload)), attributes) == Str(DefaultAvatar)
  {
    assert Reduce(state, Action("SIGNED_OUT", payload))["userId"] == Null;
  }

  /** After a sign-in whose payload carries a truthy `userId`, the user's
      own truthy profile picture is shown. */
  lemma SignedInShowsProfile(state: Record, payload: JsValue, attributes: JsValue)
    requires payload.Obj? && "userId" in payload.fields && Truthy(payload.fields["userId"])
    requires attributes.Obj? && Truthy(Prop(attributes, "profile"))
    ensures Profile(Reduce(state, Action("SIGNED_IN", payload)), attributes) == Prop(attributes, "profile")
  {
    var r := Reduce(state, Action("SIGNED_IN", payload));
    assert r["userId"] == payload.fields["userId"];
  }
}
