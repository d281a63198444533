/** The server-information panel (`Info`): the running-time formatter and
    the load/retry state kept by the component. */
module Info {
  import opened Common
  import opened JsValues
  import opened RetryPolicy
  import Api
  import ErrorUtils

  const SecondsPerDay: nat := 24 * 3600

  /** The day, hour, minute and second units of `seconds`. */
  datatype Units = Units(days: nat, hours: nat, minutes: nat, secs: nat)

  /** `Math.floor(seconds / 86400)`, `Math.floor(seconds % 86400 / 3600)`,
      `Math.floor(seconds % 3600 / 60)` and `seconds % 60`. */
  function Decompose(seconds: nat): (u: Units)
    ensures u.days * SecondsPerDay + u.hours * 3600 + u.minutes * 60 + u.secs == seconds
    ensures u.hours < 24 && u.minutes < 60 && u.secs < 60
  {
    DecomposeSums(seconds);
    Units(seconds / SecondsPerDay, (seconds % SecondsPerDay) / 3600, (seconds % 3600) / 60, seconds % 60)
  }

  /** A positive multiple of `m` is at least `m`. */
  lemma {:induction false} MultipleAtLeast(k: nat, m: nat)
    requires k >= 1
    ensures k * m >= m
  {
    if k > 1 {
      MultipleAtLeast(k - 1, m);
      assert k * m == (k - 1) * m + m;
    }
  }

  /** Division with a non-negative remainder below the divisor is unique. */
  lemma DivModUnique(x: int, m: int, q: int, r: int)
    requires m > 0 && 0 <= r < m && x == q * m + r
    ensures x / m == q && x % m == r
  {
    var q0 := x / m;
    var r0 := x % m;
    assert x == q0 * m + r0;
    if q0 < q {
      MultipleGap(q, q0, m);
    } else if q < q0 {
      MultipleGap(q0, q, m);
    }
  }

  /** Multiples of `m` with different factors are at least `m` apart. */
  lemma MultipleGap(a: int, b: int, m: int)
    requires a > b && m > 0
    ensures a * m >= b * m + m
  {
    MultipleAtLeast(a - b, m);
    assert a * m - b * m == (a - b) * m;
  }

  /** The units recombine into the seconds: the remainders by an hour and by
      a minute are those of the remainder by a day and by an hour. */
  lemma DecomposeSums(seconds: nat)
    ensures (seconds / SecondsPerDay) * SecondsPerDay + ((seconds % SecondsPerDay) / 3600) * 3600 +
      ((seconds % 3600) / 60) * 60 + seconds % 60 == seconds
    ensures (seconds % SecondsPerDay) / 3600 < 24 && (seconds % 3600) / 60 < 60 && seconds % 60 < 60
  {
    var d := seconds / SecondsPerDay;
    var r1 := seconds % SecondsPerDay;
    var h := r1 / 3600;
    var r2 := r1 % 3600;
    var m := r2 / 60;
    var s := r2 % 60;
    assert seconds == d * SecondsPerDay + r1;
    assert r1 == h * 3600 + r2;
    assert r2 == m * 60 + s;
    assert seconds == (d * 24 + h) * 3600 + r2;
    DivModUnique(seconds, 3600, d * 24 + h, r2);
    assert seconds == ((d * 24 + h) * 60 + m) * 60 + s;
    DivModUnique(seconds, 60, (d * 24 + h) * 60 + m, s);
    DivModUnique(r1, 3600, h, r2);
    assert h < 24;
  }

  /** Every unit as it would be printed: days unpadded with "d", the others
      padded to two digits with "h", "m" and "s". */
  function AllParts(u: Units): (parts: seq<string>)
    ensures |parts| == 4
  {
    [NatToString(u.days) + "d", PadStart2(NatToString(u.hours)) + "h",
     PadStart2(NatToString(u.minutes)) + "m", PadStart2(NatToString(u.secs)) + "s"]
  }

  /** The `parts` array: a unit is pushed when it or a larger unit is
      non-zero; seconds always are. */
  function Parts(u: Units): seq<string> {
    (if u.days > 0 then [NatToString(u.days) + "d"] else []) +
    (if u.hours > 0 || u.days > 0 then [PadStart2(NatToString(u.hours)) + "h"] else []) +
    (if u.minutes > 0 || u.hours > 0 || u.days > 0 then [PadStart2(NatToString(u.minutes)) + "m"] else []) +
    [PadStart2(NatToString(u.secs)) + "s"]
  }

  /** How many of the leading units (days, hours, minutes) are zero before
      the first non-zero one. */
  function LeadingZeroUnits(u: Units): (n: nat)
    ensures n <= 3
  {
    if u.days > 0 then 0 else if u.hours > 0 then 1 else if u.minutes > 0 then 2 else 3
  }

  /** The shown parts are the units from the first non-zero one on: no
      leading zero unit, no gap, seconds always present and last. */
  lemma PartsAreSuffix(u: Units)
    ensures var n := LeadingZeroUnits(u);
      Parts(u) == AllParts(u)[n..] &&
      (n >= 1 ==> u.days == 0) && (n >= 2 ==> u.hours == 0) && (n >= 3 ==> u.minutes == 0) &&
      (n == 0 ==> u.days > 0) && (n == 1 ==> u.hours > 0) && (n == 2 ==> u.minutes > 0)
  {
  }

  /** `formatRunningTime(seconds)` for a whole, non-negative number of seconds. */
  function FormatRunningTime(seconds: nat): (r: string)
    ensures var u := Decompose(seconds);
      |r| >= 3 && r[|r| - 3..] == PadStart2(NatToString(u.secs)) + "s"
    ensures seconds < 60 ==> r == PadStart2(NatToString(seconds)) + "s"
  {
    var u := Decompose(seconds);
    JoinedEndsWithSeconds(u);
    SmallDecompose(seconds);
    Join(Parts(u), ":")
  }

  /** The joined parts end with the seconds part, and are only that part
      when every larger unit is zero. */
  lemma JoinedEndsWithSeconds(u: Units)
    requires u.secs < 60
    ensures var r := Join(Parts(u), ":");
      |r| >= 3 && r[|r| - 3..] == PadStart2(NatToString(u.secs)) + "s"
    ensures u.days == 0 && u.hours == 0 && u.minutes == 0 ==>
      Join(Parts(u), ":") == PadStart2(NatToString(u.secs)) + "s"
  {
    var parts := Parts(u);
    assert parts[|parts| - 1] == PadStart2(NatToString(u.secs)) + "s";
    JoinEndsWithLast(parts, ":");
    SecondsPartLength(u.secs);
  }

  /** Less than a minute is seconds only. */
  lemma SmallDecompose(seconds: nat)
    ensures seconds < 60 ==> Decompose(seconds) == Units(0, 0, 0, seconds)
  {
  }

  /** The seconds part is three characters: two digits and "s". */
  lemma SecondsPartLength(secs: nat)
    requires secs < 60
    ensures |PadStart2(NatToString(secs)) + "s"| == 3
  {
    if secs >= 10 {
      var d := NatToString(secs);
      assert d == NatToString(secs / 10) + [DigitChar(secs % 10)];
    }
  }

  /** The days part appears iff there is at least a day, the hours part iff
      there is at least an hour, the minutes part iff there is at least a
      minute; the number of parts tells them apart. */
  lemma PartsPresence(seconds: nat)
    ensures var u := Decompose(seconds);
      var n := |Parts(u)|;
      (n == 4 <==> seconds >= SecondsPerDay) &&
      (n >= 3 <==> seconds >= 3600) &&
      (n >= 2 <==> seconds >= 60) && n >= 1
  {
    var u := Decompose(seconds);
    PartsAreSuffix(u);
    UnitThresholds(seconds);
  }

  /** Which leading units are non-zero, in terms of the seconds. */
  lemma UnitThresholds(seconds: nat)
    ensures var u := Decompose(seconds);
      (u.days > 0 <==> seconds >= SecondsPerDay) &&
      (u.days > 0 || u.hours > 0 <==> seconds >= 3600) &&
      (u.days > 0 || u.hours > 0 || u.minutes > 0 <==> seconds >= 60)
  {
    var u := Decompose(seconds);
    if seconds < SecondsPerDay {
      assert u.days == 0 && seconds % SecondsPerDay == seconds;
      assert u.hours > 0 <==> seconds >= 3600;
      if seconds < 3600 {
        assert u.hours == 0 && seconds % 3600 == seconds;
      }
    }
  }

  lemma OneHourOneMinuteOneSecond()
    ensures FormatRunningTime(3661) == "01h:01m:01s"
  {
    var u := Decompose(3661);
    assert u == Units(0, 1, 1, 1);
    assert NatToString(1) == "1";
    assert PadStart2("1") == "01";
    assert PadStart2(NatToString(1)) + "h" == "01h";
    assert PadStart2(NatToString(1)) + "m" == "01m";
    assert PadStart2(NatToString(1)) + "s" == "01s";
    assert Parts(u) == [] + ["01h"] + ["01m"] + ["01s"];
    assert Join(["01h", "01m", "01s"], ":") == "01h:01m:01s";
  }

  lemma ZeroSeconds()
    ensures FormatRunningTime(0) == "00s"
  {
    assert NatToString(0) == "0";
  }

  /** The panel's state: the last information loaded, the error text shown
      ("" when none), whether a load is under way and the retry counter. */
  datatype InfoState = InfoState(info: Option<JsValue>, error: string, loading: bool, retryCount: nat)

  /** The counter is non-zero only while an error is shown. */
  predicate InfoStateValid(st: InfoState) {
    st.error == "" ==> st.retryCount == 0
  }

  /** The state `loadInfo(isRetry)` leaves once `fetchInfo()` settled with
      `reply`: the information and no error on success, the friendly "info"
      text and the old information on failure; the counter follows
      `CountAfterLoad` and loading has ended either way. */
  function AfterInfoLoad(st: InfoState, isRetry: bool, reply: Api.Attempt<JsValue>): (t: InfoState)
    ensures !t.loading
    ensures t.retryCount == CountAfterLoad(st.retryCount, isRetry, reply.Returned?)
    ensures reply.Returned? ==> t.info == Some(reply.value) && t.error == ""
    ensures reply.Threw? ==>
      t.info == st.info && t.error == ErrorUtils.CreateUserFriendlyErrorMessage(reply.message, "info") && t.error != ""
    ensures InfoStateValid(st) ==> InfoStateValid(t)
  {
    match reply
    case Returned(data) => InfoState(Some(data), "", false, CountAfterLoad(st.retryCount, isRetry, true))
    case Threw(message) =>
      InfoState(st.info, ErrorUtils.CreateUserFriendlyErrorMessage(message, "info"), false,
                CountAfterLoad(st.retryCount, isRetry, false))
  }

  /** Whatever the panel showed, a failed load keeps the information it had
      and a successful one leaves the next tick a plain refresh. */
  lemma InfoLoadOutcomes(st: InfoState, isRetry: bool, reply: Api.Attempt<JsValue>)
    ensures reply.Returned? ==> TickDecision(AfterInfoLoad(st, isRetry, reply).error != "",
                                            AfterInfoLoad(st, isRetry, reply).retryCount) == Refresh
    ensures reply.Threw? && isRetry ==> AfterInfoLoad(st, isRetry, reply).retryCount == st.retryCount
    ensures reply.Threw? && !isRetry ==> AfterInfoLoad(st, isRetry, reply).retryCount == st.retryCount + 1
  {
  }

  /** The panel, as a component with these fields. */
  class InfoView {
    var info: Option<JsValue>
    var error: string
    var loading: bool
    var retryCount: nat

    /** No error is shown while the counter is non-zero only after a
        failure; success clears both. */
    function State(): InfoState
      reads this
    {
      InfoState(info, error, loading, retryCount)
    }

    predicate Valid()
      reads this
    {
      InfoStateValid(State())
    }

    constructor()
      ensures Valid()
      ensures info == None && error == "" && loading && retryCount == 0
    {
      info := None;
      error := "";
      loading := true;
      retryCount := 0;
    }

    /** `loadInfo(isRetry)`, where `reply` is what `fetchInfo()` resolved to
        or the error it threw. */
    method LoadInfo(isRetry: bool, reply: Api.Attempt<JsValue>)
      requires Valid()
      modifies this
      ensures Valid()
      ensures State() == AfterInfoLoad(old(State()), isRetry, reply)
    {
      loading := true;
      error := "";
      match reply {
        case Returned(data) =>
          info := Some(data);
          retryCount := CountAfterLoad(retryCount, isRetry, true);
        case Threw(message) =>
          error := ErrorUtils.CreateUserFriendlyErrorMessage(message, "info");
          retryCount := CountAfterLoad(retryCount, isRetry, false);
      }
      loading := false;
    }

    /** One tick of the refresh timer; `reply` is the outcome of the load
        it starts, if it starts one. */
    method Tick(reply: Api.Attempt<JsValue>) returns (action: TickAction)
      requires Valid()
      modifies this
      ensures Valid()
      ensures action == TickDecision(old(error) != "", old(retryCount))
      ensures action == Wait ==> unchanged(this)
      ensures action == AutoRetry ==> State() == AfterInfoLoad(old(State()), true, reply)
      ensures action == Refresh ==> old(retryCount) == 0 && State() == AfterInfoLoad(old(State()), false, reply)
    {
      action := TickDecision(error != "", retryCount);
      if action == AutoRetry {
        LoadInfo(true, reply);
      } else if action == Refresh {
        LoadInfo(false, reply);
      }
    }

    /** `handleRetry`: the counter restarts from zero before loading. */
    method HandleRetry(reply: Api.Attempt<JsValue>)
      requires Valid()
      modifies this
      ensures Valid()
      ensures State() == AfterInfoLoad(old(State()).(retryCount := 0), false, reply)
      ensures retryCount == (if reply.Returned? then 0 else 1)
    {
      retryCount := 0;
      LoadInfo(false, reply);
    }
  }
}
