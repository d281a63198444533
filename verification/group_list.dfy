/** The group list page (`GroupList`): the de-duplication of the chats the
    API returns, the load/retry state, and the navigation on a row click.
    JavaScript's `String(v)`, which turns a chat id into an object key and
    into a path segment, is the parameter `str`. */
module GroupList {
  import opened Common
  import opened JsValues
  import opened RetryPolicy
  import Api
  import ErrorUtils

  /** `data.data || data` for the value `fetchChats` resolved to. */
  function GroupsData(data: JsValue): JsValue
    requires !IsNullish(data)
  {
    if Truthy(Prop(data, "data")) then Prop(data, "data") else data
  }

  /** `fetchChats` resolves to an array, whose `data` property is
      `undefined`, so the list used is the array itself. */
  lemma GroupsDataOfArray(items: seq<JsValue>)
    ensures GroupsData(Arr(items)) == Arr(items)
  {
  }

  /** `g.chat_id` for a group that is not `null` or `undefined`. */
  function ChatId(g: JsValue): JsValue {
    Prop(g, "chat_id")
  }

  /** The group has a chat id other than `null` and `undefined`. */
  predicate HasId(g: JsValue) {
    !IsNullish(g) && !IsNullish(ChatId(g))
  }

  /** The TypeError `g.chat_id` throws for a `null` or `undefined` group. */
  function ReadChatIdError(g: JsValue): string {
    Api.NullishReadMessage(g, "chat_id")
  }

  /** The group at `i` has an id and no earlier group has the same key. */
  predicate FirstOfKey(groups: seq<JsValue>, i: int, str: JsValue -> string)
    requires 0 <= i < |groups|
  {
    HasId(groups[i]) &&
    forall j :: 0 <= j < i && HasId(groups[j]) ==> str(ChatId(groups[j])) != str(ChatId(groups[i]))
  }

  /** The groups that are the first with their key, in input order. */
  function FirstOccurrences(groups: seq<JsValue>, str: JsValue -> string): seq<JsValue> {
    if groups == [] then []
    else
      var k := |groups| - 1;
      FirstOccurrences(groups[..k], str) + (if FirstOfKey(groups, k, str) then [groups[k]] else [])
  }

  /** The ids of the groups that repeat the key of an earlier group. */
  function RepeatedIds(groups: seq<JsValue>, str: JsValue -> string): set<JsValue> {
    set i | 0 <= i < |groups| && Repeats(groups, i, str) :: ChatId(groups[i])
  }

  /** The group at `i` has an id whose key an earlier group already has. */
  predicate Repeats(groups: seq<JsValue>, i: int, str: JsValue -> string)
    requires 0 <= i < |groups|
  {
    HasId(groups[i]) && !FirstOfKey(groups, i, str)
  }

  /** `chatIdToGroups`: the groups with an id, listed under their key. */
  function GroupedByKey(groups: seq<JsValue>, str: JsValue -> string): map<string, seq<JsValue>> {
    if groups == [] then map[]
    else
      var k := |groups| - 1;
      var m := GroupedByKey(groups[..k], str);
      var g := groups[k];
      if HasId(g) then
        var key := str(ChatId(g));
        m[key := (if key in m then m[key] else []) + [g]]
      else m
  }

  /** `chatIdToGroups` after one more group. */
  lemma GroupedByKeyLast(groups: seq<JsValue>, str: JsValue -> string)
    requires groups != []
    ensures var k := |groups| - 1;
      var m := GroupedByKey(groups[..k], str);
      var g := groups[k];
      var key := str(ChatId(g));
      GroupedByKey(groups, str) ==
        if !HasId(g) then m
        else if key in m then m[key := m[key] + [g]]
        else m[key := [g]]
  {
  }

  /** The outcome of the de-duplication pass. */
  datatype Dedup = Dedup(byKey: map<string, seq<JsValue>>, deduplicated: seq<JsValue>, duplicates: set<JsValue>)

  /** A key is listed in `chatIdToGroups` exactly when a group with an id
      has it. */
  lemma {:induction false} GroupedKeys(groups: seq<JsValue>, str: JsValue -> string, key: string)
    ensures key in GroupedByKey(groups, str) <==>
      exists j :: 0 <= j < |groups| && HasId(groups[j]) && str(ChatId(groups[j])) == key
    decreases |groups|
  {
    if groups != [] {
      var k := |groups| - 1;
      GroupedKeys(groups[..k], str, key);
      if exists j :: 0 <= j < |groups| && HasId(groups[j]) && str(ChatId(groups[j])) == key {
        var j :| 0 <= j < |groups| && HasId(groups[j]) && str(ChatId(groups[j])) == key;
        if j < k {
          assert groups[..k][j] == groups[j];
        }
      }
      if exists j :: 0 <= j < k && HasId(groups[..k][j]) && str(ChatId(groups[..k][j])) == key {
        var j :| 0 <= j < k && HasId(groups[..k][j]) && str(ChatId(groups[..k][j])) == key;
        assert groups[j] == groups[..k][j];
      }
    }
  }

  /** Whether a group is the first of its key does not depend on the groups
      after it. */
  lemma FirstOfKeyPrefix(groups: seq<JsValue>, n: int, i: int, str: JsValue -> string)
    requires 0 <= i < n <= |groups|
    ensures FirstOfKey(groups[..n], i, str) == FirstOfKey(groups, i, str)
  {
    assert forall j :: 0 <= j <= i ==> groups[..n][j] == groups[j];
  }

  /** The repeated ids of a list, one group appended. */
  lemma RepeatedIdsLast(groups: seq<JsValue>, str: JsValue -> string)
    requires groups != []
    ensures var k := |groups| - 1;
      RepeatedIds(groups, str) ==
        RepeatedIds(groups[..k], str) + (if Repeats(groups, k, str) then {ChatId(groups[k])} else {})
  {
    var k := |groups| - 1;
    var front := groups[..k];
    forall x | x in RepeatedIds(groups, str)
      ensures x in RepeatedIds(front, str) || (Repeats(groups, k, str) && x == ChatId(groups[k]))
    {
      var i :| 0 <= i < |groups| && Repeats(groups, i, str) && ChatId(groups[i]) == x;
      if i < k {
        FirstOfKeyPrefix(groups, k, i, str);
        assert front[i] == groups[i] && Repeats(front, i, str);
      }
    }
    forall x | x in RepeatedIds(front, str)
      ensures x in RepeatedIds(groups, str)
    {
      var i :| 0 <= i < |front| && Repeats(front, i, str) && ChatId(front[i]) == x;
      FirstOfKeyPrefix(groups, k, i, str);
      assert groups[i] == front[i] && Repeats(groups, i, str);
    }
  }

  /** How one more group changes the three structures of the pass, and
      that a key is already listed exactly when the group is no first. */
  lemma DedupStep(groups: seq<JsValue>, i: int, str: JsValue -> string)
    requires 0 <= i < |groups|
    ensures var g := groups[i];
      var prefix := groups[..i + 1];
      var m := GroupedByKey(groups[..i], str);
      (HasId(g) ==> (str(ChatId(g)) in m <==> !FirstOfKey(groups, i, str))) &&
      GroupedByKey(prefix, str) ==
        (if !HasId(g) then m
         else if str(ChatId(g)) in m then m[str(ChatId(g)) := m[str(ChatId(g))] + [g]]
         else m[str(ChatId(g)) := [g]]) &&
      FirstOccurrences(prefix, str) ==
        FirstOccurrences(groups[..i], str) + (if FirstOfKey(groups, i, str) then [g] else []) &&
      RepeatedIds(prefix, str) ==
        RepeatedIds(groups[..i], str) + (if Repeats(groups, i, str) then {ChatId(g)} else {})
  {
    var g := groups[i];
    var prefix := groups[..i + 1];
    assert prefix[..i] == groups[..i] && prefix[i] == g;
    FirstOfKeyPrefix(groups, i + 1, i, str);
    RepeatedIdsLast(prefix, str);
    GroupedByKeyLast(prefix, str);
    if HasId(g) {
      GroupedKeys(groups[..i], str, str(ChatId(g)));
      if !FirstOfKey(groups, i, str) {
        var j :| 0 <= j < i && HasId(groups[j]) && str(ChatId(groups[j])) == str(ChatId(g));
        assert groups[..i][j] == groups[j];
      }
    }
  }

  /** The `groupsData.forEach` pass: skips groups whose id is `null` or
      `undefined`, keeps the first group of each key, records the ids of
      later ones. A `null` or `undefined` group makes it throw. */
  method Deduplicate(groupsData: seq<JsValue>, str: JsValue -> string) returns (r: Api.Attempt<Dedup>)
    ensures r.Threw? <==> exists i :: 0 <= i < |groupsData| && IsNullish(groupsData[i])
    ensures r.Threw? ==>
      exists i :: (0 <= i < |groupsData| && IsNullish(groupsData[i]) &&
        (forall j :: 0 <= j < i ==> !IsNullish(groupsData[j])) && r.message == ReadChatIdError(groupsData[i]))
    ensures r.Returned? ==>
      r.value == Dedup(GroupedByKey(groupsData, str), FirstOccurrences(groupsData, str), RepeatedIds(groupsData, str))
  {
    var chatIdToGroups: map<string, seq<JsValue>> := map[];
    var deduplicatedGroups: seq<JsValue> := [];
    var duplicateChatIdsSet: set<JsValue> := {};
    var i := 0;
    while i < |groupsData|
      invariant 0 <= i <= |groupsData|
      invariant forall j :: 0 <= j < i ==> !IsNullish(groupsData[j])
      invariant chatIdToGroups == GroupedByKey(groupsData[..i], str)
      invariant deduplicatedGroups == FirstOccurrences(groupsData[..i], str)
      invariant duplicateChatIdsSet == RepeatedIds(groupsData[..i], str)
    {
      var g := groupsData[i];
      DedupStep(groupsData, i, str);
      match Get(g, "chat_id") {
        case None =>
          return Api.Threw(ReadChatIdError(g));
        case Some(id) =>
          assert id == ChatId(g);
          if !IsNullish(id) {
            if str(id) !in chatIdToGroups {
              chatIdToGroups := chatIdToGroups[str(id) := [g]];
              deduplicatedGroups := deduplicatedGroups + [g];
            } else {
              chatIdToGroups := chatIdToGroups[str(id) := chatIdToGroups[str(id)] + [g]];
              duplicateChatIdsSet := duplicateChatIdsSet + {id};
            }
          }
      }
      i := i + 1;
    }
    assert groupsData[..i] == groupsData;
    return Api.Returned(Dedup(chatIdToGroups, deduplicatedGroups, duplicateChatIdsSet));
  }

  /** Every kept group has an id, and each kept group is the first in the
      input with its key. */
  lemma {:induction false} KeptAreFirsts(groups: seq<JsValue>, str: JsValue -> string)
    ensures forall x :: x in FirstOccurrences(groups, str) ==>
      exists i :: 0 <= i < |groups| && groups[i] == x && FirstOfKey(groups, i, str)
    decreases |groups|
  {
    if groups != [] {
      var k := |groups| - 1;
      KeptAreFirsts(groups[..k], str);
      forall x | x in FirstOccurrences(groups[..k], str)
        ensures exists i :: 0 <= i < |groups| && groups[i] == x && FirstOfKey(groups, i, str)
      {
        var i :| 0 <= i < k && groups[..k][i] == x && FirstOfKey(groups[..k], i, str);
        FirstOfKeyPrefix(groups, k, i, str);
      }
    }
  }

  /** The kept groups have pairwise different keys. */
  lemma {:induction false} KeptKeysDistinct(groups: seq<JsValue>, str: JsValue -> string)
    ensures forall a :: 0 <= a < |FirstOccurrences(groups, str)| ==> HasId(FirstOccurrences(groups, str)[a])
    ensures forall a, b :: 0 <= a < b < |FirstOccurrences(groups, str)| ==>
      str(ChatId(FirstOccurrences(groups, str)[a])) != str(ChatId(FirstOccurrences(groups, str)[b]))
    decreases |groups|
  {
    if groups != [] {
      var k := |groups| - 1;
      var front := groups[..k];
      var prev := FirstOccurrences(front, str);
      KeptKeysDistinct(front, str);
      assert forall a :: 0 <= a < |prev| ==> HasId(prev[a]);
      assert FirstOccurrences(groups, str) == prev + (if FirstOfKey(groups, k, str) then [groups[k]] else []);
      if FirstOfKey(groups, k, str) {
        KeptAreFirsts(front, str);
        forall a | 0 <= a < |prev|
          ensures str(ChatId(prev[a])) != str(ChatId(groups[k]))
        {
          assert prev[a] in prev;
          var i :| 0 <= i < k && front[i] == prev[a] && FirstOfKey(front, i, str);
          assert groups[i] == prev[a];
        }
        var kept := prev + [groups[k]];
        forall a, b | 0 <= a < b < |kept|
          ensures str(ChatId(kept[a])) != str(ChatId(kept[b]))
        {
          if b < |prev| {
            assert kept[a] == prev[a] && kept[b] == prev[b];
          } else {
            assert kept[a] == prev[a] && kept[b] == groups[k];
          }
        }
        forall a | 0 <= a < |kept|
          ensures HasId(kept[a])
        {
          if a < |prev| {
            assert kept[a] == prev[a];
            assert HasId(prev[a]);
          } else {
            assert kept[a] == groups[k];
            assert HasId(groups[k]);
          }
        }
      }
    }
  }

  /** Every group with an id has its key among the kept groups, through a
      kept group at or before it: the first group with that key. */
  lemma KeptCoversKeys(groups: seq<JsValue>, str: JsValue -> string, i: int)
    requires 0 <= i < |groups| && HasId(groups[i])
    ensures exists j :: (0 <= j <= i && FirstOfKey(groups, j, str) && groups[j] in FirstOccurrences(groups, str) &&
      str(ChatId(groups[j])) == str(ChatId(groups[i])))
  {
    var j := EarliestWithKey(groups, i, str, 0);
    FirstIsKept(groups, j, str);
  }

  /** The first index from `j` on whose group has an id with the key of
      group `i`, given that none before `j` has. */
  function EarliestWithKey(groups: seq<JsValue>, i: int, str: JsValue -> string, j: int): (r: int)
    requires 0 <= j <= i < |groups| && HasId(groups[i])
    requires forall m :: 0 <= m < j && HasId(groups[m]) ==> str(ChatId(groups[m])) != str(ChatId(groups[i]))
    ensures j <= r <= i && FirstOfKey(groups, r, str) && str(ChatId(groups[r])) == str(ChatId(groups[i]))
    decreases i - j
  {
    if HasId(groups[j]) && str(ChatId(groups[j])) == str(ChatId(groups[i])) then j
    else EarliestWithKey(groups, i, str, j + 1)
  }

  /** The first group with its key is kept. */
  lemma {:induction false} FirstIsKept(groups: seq<JsValue>, j: int, str: JsValue -> string)
    requires 0 <= j < |groups| && FirstOfKey(groups, j, str)
    ensures groups[j] in FirstOccurrences(groups, str)
    decreases |groups|
  {
    var k := |groups| - 1;
    if j < k {
      FirstOfKeyPrefix(groups, k, j, str);
      FirstIsKept(groups[..k], j, str);
      assert groups[..k][j] == groups[j];
    }
  }

  /** A group's key is the key of a repeated id exactly when another group
      with an id has the same key. */
  lemma RepeatedMeansShared(groups: seq<JsValue>, str: JsValue -> string, i: int)
    requires 0 <= i < |groups| && HasId(groups[i])
    ensures (exists x :: x in RepeatedIds(groups, str) && str(x) == str(ChatId(groups[i]))) <==>
      exists j :: 0 <= j < |groups| && j != i && HasId(groups[j]) && str(ChatId(groups[j])) == str(ChatId(groups[i]))
  {
    var key := str(ChatId(groups[i]));
    if exists j :: 0 <= j < |groups| && j != i && HasId(groups[j]) && str(ChatId(groups[j])) == key {
      var j :| 0 <= j < |groups| && j != i && HasId(groups[j]) && str(ChatId(groups[j])) == key;
      var later := if i < j then j else i;
      assert Repeats(groups, later, str);
      assert ChatId(groups[later]) in RepeatedIds(groups, str);
    }
    if exists x :: x in RepeatedIds(groups, str) && str(x) == key {
      var x :| x in RepeatedIds(groups, str) && str(x) == key;
      var l :| 0 <= l < |groups| && Repeats(groups, l, str) && ChatId(groups[l]) == x;
      var e :| 0 <= e < l && HasId(groups[e]) && str(ChatId(groups[e])) == key;
      assert l != i || e != i;
    }
  }

  /** The list page's state: the groups shown, the error text ("" when
      none), the loading flag, the retry counter and the duplicates flag. */
  datatype ListState = ListState(
    groups: seq<JsValue>, error: string, isLoading: bool, retryCount: nat, duplicatesDetected: bool)

  /** The counter is non-zero only while an error is shown, and a list
      flagged as de-duplicated has ids with pairwise different keys. */
  predicate StateValid(st: ListState, str: JsValue -> string) {
    (st.error == "" ==> st.retryCount == 0) &&
    (st.duplicatesDetected ==>
      (forall a :: 0 <= a < |st.groups| ==> HasId(st.groups[a])) &&
      forall a, b :: 0 <= a < b < |st.groups| ==> str(ChatId(st.groups[a])) != str(ChatId(st.groups[b])))
  }

  /** The index of the first `null` or `undefined` group, `|groups|` when
      there is none. */
  function FirstNullish(groups: seq<JsValue>): (i: nat)
    ensures i <= |groups|
    ensures i < |groups| ==> IsNullish(groups[i])
    ensures forall j :: 0 <= j < i ==> !IsNullish(groups[j])
  {
    if groups == [] then 0
    else if IsNullish(groups[0]) then 0
    else
      var i := FirstNullish(groups[1..]);
      assert forall j :: 1 <= j < i + 1 ==> groups[j] == groups[1..][j - 1];
      1 + i
  }

  /** The state `loadGroups(isRetry)` leaves once `fetchChats()` settled with
      `reply`: on success the de-duplicated list (when ids repeat) or the
      list as received, no error and the counter at zero; when the fetch
      throws, or the pass over the list meets a `null` group, the list and
      the flag stay, the error is the friendly "groups" text of what was
      thrown and the counter moves by `CountAfterLoad`. */
  function AfterLoad(st: ListState, isRetry: bool, reply: Api.Attempt<seq<JsValue>>, str: JsValue -> string): (t: ListState)
    ensures !t.isLoading
    ensures reply.Returned? && FirstNullish(reply.value) == |reply.value| ==>
      t.error == "" && t.retryCount == 0 &&
      (t.duplicatesDetected <==> RepeatedIds(reply.value, str) != {}) &&
      t.groups == (if t.duplicatesDetected then FirstOccurrences(reply.value, str) else reply.value)
    ensures reply.Threw? ==>
      t == st.(error := ErrorUtils.CreateUserFriendlyErrorMessage(reply.message, "groups"),
               retryCount := CountAfterLoad(st.retryCount, isRetry, false), isLoading := false)
    ensures reply.Returned? && FirstNullish(reply.value) < |reply.value| ==>
      t == st.(error := ErrorUtils.CreateUserFriendlyErrorMessage(
                 ReadChatIdError(reply.value[FirstNullish(reply.value)]), "groups"),
               retryCount := CountAfterLoad(st.retryCount, isRetry, false), isLoading := false)
    ensures StateValid(st, str) ==> StateValid(t, str)
  {
    match reply
    case Threw(message) => Failed(st, isRetry, message)
    case Returned(data) =>
      var i := FirstNullish(data);
      if i < |data| then Failed(st, isRetry, ReadChatIdError(data[i]))
      else if RepeatedIds(data, str) != {} then
        KeptKeysDistinct(data, str);
        ListState(FirstOccurrences(data, str), "", false, 0, true)
      else ListState(data, "", false, 0, false)
  }

  /** The `catch` branch of `loadGroups` followed by its `finally`. */
  function Failed(st: ListState, isRetry: bool, message: string): (t: ListState)
    ensures t.error != "" && !t.isLoading
    ensures t.groups == st.groups && t.duplicatesDetected == st.duplicatesDetected
  {
    st.(error := ErrorUtils.CreateUserFriendlyErrorMessage(message, "groups"),
        retryCount := CountAfterLoad(st.retryCount, isRetry, false), isLoading := false)
  }

  /** A load that succeeds clears the error and the counter whatever came
      before, so the next tick of the timer is a plain refresh. */
  lemma SuccessThenRefresh(st: ListState, isRetry: bool, data: seq<JsValue>, str: JsValue -> string)
    requires FirstNullish(data) == |data|
    ensures var t := AfterLoad(st, isRetry, Api.Returned(data), str);
      t.error == "" && TickDecision(t.error != "", t.retryCount) == Refresh
  {
  }

  /** A failed automatic retry leaves the counter where it was, so after a
      failed manual load the automatic retries run until one succeeds. */
  lemma FailedRetryKeepsCount(st: ListState, message: string, str: JsValue -> string)
    ensures AfterLoad(st, true, Api.Threw(message), str).retryCount == st.retryCount
    ensures AfterLoad(st, false, Api.Threw(message), str).retryCount == st.retryCount + 1
  {
  }

  /** The list page's state, as a component with the same fields. */
  class GroupListView {
    var groups: seq<JsValue>
    var error: string
    var isLoading: bool
    var retryCount: nat
    var duplicatesDetected: bool

    function State(): ListState
      reads this
    {
      ListState(groups, error, isLoading, retryCount, duplicatesDetected)
    }

    predicate Valid(str: JsValue -> string)
      reads this
    {
      StateValid(State(), str)
    }

    constructor(str: JsValue -> string)
      ensures Valid(str)
      ensures groups == [] && error == "" && isLoading && retryCount == 0 && !duplicatesDetected
    {
      groups := [];
      error := "";
      isLoading := true;
      retryCount := 0;
      duplicatesDetected := false;
    }

    /** The `catch` branch: the friendly "groups" text and the counter policy. */
    method Fail(message: string, isRetry: bool)
      modifies this
      ensures error == ErrorUtils.CreateUserFriendlyErrorMessage(message, "groups") && error != ""
      ensures retryCount == CountAfterLoad(old(retryCount), isRetry, false)
      ensures groups == old(groups) && duplicatesDetected == old(duplicatesDetected) && isLoading == old(isLoading)
    {
      error := ErrorUtils.CreateUserFriendlyErrorMessage(message, "groups");
      retryCount := CountAfterLoad(retryCount, isRetry, false);
    }

    /** `loadGroups(isRetry)`, where `reply` is what `fetchChats()` resolved
        to or the error it threw. */
    method LoadGroups(isRetry: bool, reply: Api.Attempt<seq<JsValue>>, str: JsValue -> string)
      requires Valid(str)
      modifies this
      ensures Valid(str)
      ensures State() == AfterLoad(old(State()), isRetry, reply, str)
    {
      isLoading := true;
      error := "";
      ghost var before := old(State());
      match reply {
        case Threw(message) =>
          Fail(message, isRetry);
        case Returned(data) =>
          GroupsDataOfArray(data);
          var groupsData := GroupsData(Arr(data)).items;
          var pass := Deduplicate(groupsData, str);
          match pass {
            case Threw(message) =>
              var i :| 0 <= i < |groupsData| && IsNullish(groupsData[i]) &&
                (forall j :: 0 <= j < i ==> !IsNullish(groupsData[j])) && message == ReadChatIdError(groupsData[i]);
              assert i == FirstNullish(data);
              Fail(message, isRetry);
            case Returned(d) =>
              if |d.duplicates| > 0 {
                KeptKeysDistinct(groupsData, str);
                groups := d.deduplicated;
                duplicatesDetected := true;
              } else {
                groups := groupsData;
                duplicatesDetected := false;
              }
              error := "";
              retryCount := 0;
          }
      }
      isLoading := false;
    }

    /** One tick of the refresh timer; `reply` is the outcome of the load
        it starts, if it starts one. */
    method Tick(reply: Api.Attempt<seq<JsValue>>, str: JsValue -> string) returns (action: TickAction)
      requires Valid(str)
      modifies this
      ensures Valid(str)
      ensures action == TickDecision(old(error) != "", old(retryCount))
      ensures action == Wait ==> unchanged(this)
      ensures action == AutoRetry ==> State() == AfterLoad(old(State()), true, reply, str)
      ensures action == Refresh ==> State() == AfterLoad(old(State()), false, reply, str)
    {
      action := TickDecision(error != "", retryCount);
      if action == AutoRetry {
        LoadGroups(true, reply, str);
      } else if action == Refresh {
        LoadGroups(false, reply, str);
      }
    }

    /** `handleRetry`: the counter restarts from zero before loading. */
    method HandleRetry(reply: Api.Attempt<seq<JsValue>>, str: JsValue -> string)
      requires Valid(str)
      modifies this
      ensures Valid(str)
      ensures State() == AfterLoad(old(State()).(retryCount := 0), false, reply, str)
    {
      retryCount := 0;
      LoadGroups(false, reply, str);
    }
  }

  /** `handleRowClick(group)`: the path navigated to, if any. */
  function RowClickTarget(group: JsValue, str: JsValue -> string): (path: Option<string>)
    requires !IsNullish(group)
    ensures path.Some? <==> Truthy(ChatId(group))
    ensures path.Some? ==> path.value == "/group/" + str(ChatId(group)) + "/page"
  {
    var chatId := ChatId(group);
    if Truthy(chatId) then Some("/group/" + str(chatId) + "/page") else None
  }

  /** Rows with different keys lead to different pages. */
  lemma RowPathsDistinct(g1: JsValue, g2: JsValue, str: JsValue -> string)
    requires !IsNullish(g1) && !IsNullish(g2)
    requires RowClickTarget(g1, str).Some? && RowClickTarget(g2, str).Some?
    requires RowClickTarget(g1, str) == RowClickTarget(g2, str)
    ensures str(ChatId(g1)) == str(ChatId(g2))
  {
    var a := str(ChatId(g1));
    var b := str(ChatId(g2));
    var p := RowClickTarget(g1, str).value;
    assert p == "/group/" + a + "/page";
    assert p == "/group/" + b + "/page";
    assert a == p[7..7 + |a|];
    assert b == p[7..7 + |b|];
  }
}
