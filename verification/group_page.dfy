/** The group page's performance figures: the average of the metrics a
    call carries, the filter of calls that carry any, the best and worst
    performers, and how a single figure is styled and formatted. */
module GroupPage {
  import opened Common
  import opened JsValues

  /** A call as the group page reads it: its three performance metrics
      (`None` for `null` or `undefined`) and its other properties. */
  datatype Call = Call(
    performance1m: Option<real>,
    performance5m: Option<real>,
    performance15m: Option<real>,
    fields: map<string, JsValue>)

  /** The metrics that are present, in the order 1m, 5m, 15m. */
  function PresentValues(call: Call): (v: seq<real>)
    ensures |v| <= 3
    ensures v == [] <==> call.performance1m.None? && call.performance5m.None? && call.performance15m.None?
    ensures call.performance1m.Some? && call.performance5m.Some? && call.performance15m.Some? ==>
      v == [call.performance1m.value, call.performance5m.value, call.performance15m.value]
  {
    (if call.performance1m.Some? then [call.performance1m.value] else []) +
    (if call.performance5m.Some? then [call.performance5m.value] else []) +
    (if call.performance15m.Some? then [call.performance15m.value] else [])
  }

  /** `values.reduce((sum, val) => sum + val, 0)`. */
  function Sum(v: seq<real>): real {
    if v == [] then 0.0 else Sum(v[..|v| - 1]) + v[|v| - 1]
  }

  /** `calculateAveragePerformance(call)`: the mean of the present metrics,
      0 when none is present. */
  function AveragePerformance(call: Call): (avg: real)
    ensures PresentValues(call) == [] ==> avg == 0.0
    ensures PresentValues(call) != [] ==> avg * (|PresentValues(call)| as real) == Sum(PresentValues(call))
  {
    var v := PresentValues(call);
    if |v| == 0 then 0.0 else Sum(v) / (|v| as real)
  }

  lemma {:induction false} SumBounds(v: seq<real>, lo: real, hi: real)
    requires forall i :: 0 <= i < |v| ==> lo <= v[i] <= hi
    ensures (|v| as real) * lo <= Sum(v) <= (|v| as real) * hi
  {
    if v != [] {
      SumBounds(v[..|v| - 1], lo, hi);
    }
  }

  /** When a metric is present, the average lies between the smallest and
      the largest present metric. */
  lemma AverageWithinRange(call: Call, lo: real, hi: real)
    requires PresentValues(call) != []
    requires forall i :: 0 <= i < |PresentValues(call)| ==> lo <= PresentValues(call)[i] <= hi
    ensures lo <= AveragePerformance(call) <= hi
  {
    var v := PresentValues(call);
    SumBounds(v, lo, hi);
    // at most three metrics: the division is by a constant
    if |v| == 1 {
      assert AveragePerformance(call) == Sum(v) / 1.0;
    } else if |v| == 2 {
      assert AveragePerformance(call) == Sum(v) / 2.0;
    } else {
      assert AveragePerformance(call) == Sum(v) / 3.0;
    }
  }

  /** The average of a call carrying exactly one metric is that metric. */
  lemma SingleMetricAverage(call: Call, x: real)
    requires PresentValues(call) == [x]
    ensures AveragePerformance(call) == x
  {
    AverageWithinRange(call, x, x);
  }

  /** The filter used for the best/worst selection, the displayed count and
      the table rows: a call is valid when any metric is present. */
  predicate IsValidCall(call: Call) {
    call.performance1m.Some? || call.performance5m.Some? || call.performance15m.Some?
  }

  /** `calls.filter(isValid)`, order kept. */
  function ValidCalls(calls: seq<Call>): (r: seq<Call>)
    ensures |r| <= |calls|
    ensures forall c :: c in r <==> c in calls && IsValidCall(c)
    ensures forall i :: 0 <= i < |r| ==> PresentValues(r[i]) != []
  {
    if calls == [] then []
    else
      var rest := ValidCalls(calls[..|calls| - 1]);
      var last := calls[|calls| - 1];
      assert calls == calls[..|calls| - 1] + [last];
      if IsValidCall(last) then rest + [last] else rest
  }

  /** The positions in `calls` that `ValidCalls` keeps, in increasing
      order: the result is the subsequence of valid calls, order and
      repeats kept. */
  function ValidIndices(calls: seq<Call>): (idx: seq<nat>)
    ensures |idx| == |ValidCalls(calls)|
    ensures forall k :: 0 <= k < |idx| ==> idx[k] < |calls| && ValidCalls(calls)[k] == calls[idx[k]]
    ensures forall k, l :: 0 <= k < l < |idx| ==> idx[k] < idx[l]
    ensures forall i :: 0 <= i < |calls| && IsValidCall(calls[i]) ==> i in idx
  {
    if calls == [] then []
    else
      var n := |calls| - 1;
      var rest := ValidIndices(calls[..n]);
      var idx := if IsValidCall(calls[n]) then rest + [n] else rest;
      ValidIndicesExtend(calls, rest, idx);
      idx
  }

  /** The positions kept from all of `calls` are those kept from all but the
      last call, followed by the last one when it is valid. */
  lemma ValidIndicesExtend(calls: seq<Call>, rest: seq<nat>, idx: seq<nat>)
    requires |calls| > 0
    requires |rest| == |ValidCalls(calls[..|calls| - 1])|
    requires forall k :: 0 <= k < |rest| ==> rest[k] < |calls| - 1 && ValidCalls(calls[..|calls| - 1])[k] == calls[..|calls| - 1][rest[k]]
    requires forall k, l :: 0 <= k < l < |rest| ==> rest[k] < rest[l]
    requires forall i :: 0 <= i < |calls| - 1 && IsValidCall(calls[..|calls| - 1][i]) ==> i in rest
    requires idx == if IsValidCall(calls[|calls| - 1]) then rest + [|calls| - 1] else rest
    ensures |idx| == |ValidCalls(calls)|
    ensures forall k :: 0 <= k < |idx| ==> idx[k] < |calls| && ValidCalls(calls)[k] == calls[idx[k]]
    ensures forall k, l :: 0 <= k < l < |idx| ==> idx[k] < idx[l]
    ensures forall i :: 0 <= i < |calls| && IsValidCall(calls[i]) ==> i in idx
  {
    ValidIndicesPicks(calls, rest, idx);
    ValidIndicesCover(calls, rest, idx);
  }

  /** The entries picked by the extended positions are the kept calls. */
  lemma ValidIndicesPicks(calls: seq<Call>, rest: seq<nat>, idx: seq<nat>)
    requires |calls| > 0
    requires |rest| == |ValidCalls(calls[..|calls| - 1])|
    requires forall k :: 0 <= k < |rest| ==> rest[k] < |calls| - 1 && ValidCalls(calls[..|calls| - 1])[k] == calls[..|calls| - 1][rest[k]]
    requires idx == if IsValidCall(calls[|calls| - 1]) then rest + [|calls| - 1] else rest
    ensures |idx| == |ValidCalls(calls)|
    ensures forall k :: 0 <= k < |idx| ==> idx[k] < |calls| && ValidCalls(calls)[k] == calls[idx[k]]
  {
    var n := |calls| - 1;
    var vc := ValidCalls(calls[..n]);
    assert ValidCalls(calls) == if IsValidCall(calls[n]) then vc + [calls[n]] else vc;
    forall k | 0 <= k < |rest|
      ensures idx[k] == rest[k] && ValidCalls(calls)[k] == calls[rest[k]]
    {
      assert calls[..n][rest[k]] == calls[rest[k]];
    }
  }

  /** The extended positions stay increasing and include every valid one. */
  lemma ValidIndicesCover(calls: seq<Call>, rest: seq<nat>, idx: seq<nat>)
    requires |calls| > 0
    requires forall k :: 0 <= k < |rest| ==> rest[k] < |calls| - 1
    requires forall k, l :: 0 <= k < l < |rest| ==> rest[k] < rest[l]
    requires forall i :: 0 <= i < |calls| - 1 && IsValidCall(calls[..|calls| - 1][i]) ==> i in rest
    requires idx == if IsValidCall(calls[|calls| - 1]) then rest + [|calls| - 1] else rest
    ensures forall k, l :: 0 <= k < l < |idx| ==> idx[k] < idx[l]
    ensures forall i :: 0 <= i < |calls| && IsValidCall(calls[i]) ==> i in idx
  {
    var n := |calls| - 1;
    forall i | 0 <= i < |calls| && IsValidCall(calls[i])
      ensures i in idx
    {
      if i < n {
        assert calls[..n][i] == calls[i];
      }
    }
  }

  /** The positions of valid calls. */
  function ValidPositions(calls: seq<Call>): set<nat>
  {
    set i | 0 <= i < |calls| && IsValidCall(calls[i])
  }

  /** The valid positions of `calls` are those of all but its last call,
      plus the last position when that call is valid. */
  lemma ValidPositionsStep(calls: seq<Call>)
    requires |calls| > 0
    ensures |calls| - 1 !in ValidPositions(calls[..|calls| - 1])
    ensures ValidPositions(calls) ==
      ValidPositions(calls[..|calls| - 1]) + (if IsValidCall(calls[|calls| - 1]) then {|calls| - 1} else {})
  {
    var n := |calls| - 1;
    assert forall i :: 0 <= i < n ==> calls[..n][i] == calls[i];
  }

  /** `ValidCalls` keeps one entry per valid position: its length is the
      number of valid calls. */
  lemma {:induction false} ValidCallsCount(calls: seq<Call>)
    ensures |ValidCalls(calls)| == |ValidPositions(calls)|
  {
    if calls != [] {
      var n := |calls| - 1;
      ValidCallsCount(calls[..n]);
      ValidPositionsStep(calls);
    }
  }

  /** The index `callsWithAvg.reduce` ends on for the best performer among
      the first `n` averages: a later entry replaces the current one only
      when strictly greater. The result is the first index of a maximum. */
  function ReduceBest(avgs: seq<real>, n: nat): (k: nat)
    requires 0 < n <= |avgs|
    ensures k < n
    ensures forall j :: 0 <= j < n ==> avgs[j] <= avgs[k]
    ensures forall j :: 0 <= j < k ==> avgs[j] < avgs[k]
  {
    if n == 1 then 0
    else
      var b := ReduceBest(avgs, n - 1);
      if avgs[n - 1] > avgs[b] then n - 1 else b
  }

  /** The same reduction with `<`: the first index of a minimum. */
  function ReduceWorst(avgs: seq<real>, n: nat): (k: nat)
    requires 0 < n <= |avgs|
    ensures k < n
    ensures forall j :: 0 <= j < n ==> avgs[k] <= avgs[j]
    ensures forall j :: 0 <= j < k ==> avgs[k] < avgs[j]
  {
    if n == 1 then 0
    else
      var w := ReduceWorst(avgs, n - 1);
      if avgs[n - 1] < avgs[w] then n - 1 else w
  }

  /** `callsWithAvg`'s `avg` column. */
  function Averages(calls: seq<Call>): (a: seq<real>)
    ensures |a| == |calls|
    ensures forall i :: 0 <= i < |calls| ==> a[i] == AveragePerformance(calls[i])
  {
    seq(|calls|, i requires 0 <= i < |calls| => AveragePerformance(calls[i]))
  }

  /** A call together with its average (`{ call, avg }`). */
  datatype Scored = Scored(call: Call, avg: real)

  /** The `performanceData` memo. */
  datatype Performers = Performers(best: Option<Scored>, worst: Option<Scored>)

  function SelectPerformers(calls: seq<Call>): (p: Performers)
    // both are null exactly when no call is valid
    ensures p.best.None? <==> ValidCalls(calls) == []
    ensures p.worst.None? <==> ValidCalls(calls) == []
    // the best is the first valid call with the largest average
    ensures p.best.Some? ==> p.best.value.avg == AveragePerformance(p.best.value.call)
    ensures p.best.Some? ==>
      exists k :: 0 <= k < |ValidCalls(calls)| && ValidCalls(calls)[k] == p.best.value.call &&
        (forall j :: 0 <= j < |ValidCalls(calls)| ==> AveragePerformance(ValidCalls(calls)[j]) <= p.best.value.avg) &&
        (forall j :: 0 <= j < k ==> AveragePerformance(ValidCalls(calls)[j]) < p.best.value.avg)
    // the worst is the first valid call with the smallest average
    ensures p.worst.Some? ==> p.worst.value.avg == AveragePerformance(p.worst.value.call)
    ensures p.worst.Some? ==>
      exists k :: 0 <= k < |ValidCalls(calls)| && ValidCalls(calls)[k] == p.worst.value.call &&
        (forall j :: 0 <= j < |ValidCalls(calls)| ==> p.worst.value.avg <= AveragePerformance(ValidCalls(calls)[j])) &&
        (forall j :: 0 <= j < k ==> p.worst.value.avg < AveragePerformance(ValidCalls(calls)[j]))
  {
    if |calls| == 0 then
      Performers(None, None)
    else
      var valid := ValidCalls(calls);
      var avgs := Averages(valid);
      if |valid| == 0 then
        Performers(None, None)
      else
        var b := ReduceBest(avgs, |avgs|);
        var w := ReduceWorst(avgs, |avgs|);
        assert forall j :: 0 <= j < |valid| ==> AveragePerformance(valid[j]) == avgs[j];
        assert b < |valid| && AveragePerformance(valid[b]) == avgs[b];
        assert w < |valid| && AveragePerformance(valid[w]) == avgs[w];
        Performers(Some(Scored(valid[b], avgs[b])), Some(Scored(valid[w], avgs[w])))
  }

  /** Both performers are valid calls of the list, and the worst average
      never exceeds the best one. */
  lemma PerformersAreValidCalls(calls: seq<Call>)
    ensures var p := SelectPerformers(calls);
      p.best.Some? ==> p.best.value.call in calls && IsValidCall(p.best.value.call)
    ensures var p := SelectPerformers(calls);
      p.worst.Some? ==> p.worst.value.call in calls && IsValidCall(p.worst.value.call)
    ensures var p := SelectPerformers(calls);
      p.best.Some? && p.worst.Some? ==> p.worst.value.avg <= p.best.value.avg
  {
    var p := SelectPerformers(calls);
    var vs := ValidCalls(calls);
    if p.best.Some? {
      var k :| 0 <= k < |vs| && vs[k] == p.best.value.call &&
        (forall j :: 0 <= j < |vs| ==> AveragePerformance(vs[j]) <= p.best.value.avg);
      assert vs[k] in vs;
      var m :| 0 <= m < |vs| && vs[m] == p.worst.value.call &&
        (forall j :: 0 <= j < |vs| ==> p.worst.value.avg <= AveragePerformance(vs[j]));
      assert vs[m] in vs;
      assert p.worst.value.avg <= AveragePerformance(vs[k]);
    }
  }

  /** Every valid call's average is bounded by the best and the worst. */
  lemma PerformersBoundAll(calls: seq<Call>, c: Call)
    requires c in calls && IsValidCall(c)
    ensures SelectPerformers(calls).best.Some? && SelectPerformers(calls).worst.Some?
    ensures SelectPerformers(calls).worst.value.avg <= AveragePerformance(c) <= SelectPerformers(calls).best.value.avg
  {
    var p := SelectPerformers(calls);
    var vs := ValidCalls(calls);
    assert c in vs;
    var i :| 0 <= i < |vs| && vs[i] == c;
    var k :| 0 <= k < |vs| && vs[k] == p.best.value.call &&
      (forall j :: 0 <= j < |vs| ==> AveragePerformance(vs[j]) <= p.best.value.avg);
    var m :| 0 <= m < |vs| && vs[m] == p.worst.value.call &&
      (forall j :: 0 <= j < |vs| ==> p.worst.value.avg <= AveragePerformance(vs[j]));
    assert AveragePerformance(vs[i]) <= p.best.value.avg;
  }

  /** `getPerformanceClass(value)`. */
  function PerformanceClass(value: Option<real>): (cls: string)
    ensures value.None? ==> cls == "neutral"
    ensures value.Some? ==> (cls == "positive" <==> value.value >= 0.0)
    ensures value.Some? ==> (cls == "negative" <==> value.value < 0.0)
  {
    if value.None? then "neutral"
    else if value.value >= 0.0 then "positive"
    else "negative"
  }

  /** `formatPerformance(value)`; `toFixed2` is `Number.prototype.toFixed(2)`. */
  function FormatPerformance(value: Option<real>, toFixed2: real -> string): (s: string)
    ensures value.None? ==> s == "N/A"
    ensures value.Some? ==> |s| == |toFixed2(value.value)| + (if value.value >= 0.0 then 2 else 1)
    ensures value.Some? ==> s[|s| - 1] == '%'
    ensures value.Some? && value.value >= 0.0 ==> s[0] == '+' && s[1..|s| - 1] == toFixed2(value.value)
    ensures value.Some? && value.value < 0.0 ==> s[..|s| - 1] == toFixed2(value.value)
  {
    if value.None? then "N/A"
    else (if value.value >= 0.0 then "+" else "") + toFixed2(value.value) + "%"
  }

  /** A figure is styled "positive" exactly when it is printed with a plus
      sign, given that `toFixed` itself never writes one. */
  lemma ClassMatchesSign(value: Option<real>, toFixed2: real -> string)
    requires forall x :: toFixed2(x) == [] || toFixed2(x)[0] != '+'
    ensures PerformanceClass(value) == "positive" <==> FormatPerformance(value, toFixed2)[0] == '+'
    ensures PerformanceClass(value) == "neutral" <==> FormatPerformance(value, toFixed2) == "N/A"
  {
    var s := FormatPerformance(value, toFixed2);
    if value.Some? && value.value < 0.0 {
      var f := toFixed2(value.value);
      assert s == f + "%";
      if f == [] {
        assert s[0] == '%';
      } else {
        assert s[0] == f[0];
      }
    }
  }
}
