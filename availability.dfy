/**
 * `api/get-availability.js`: the month's date range, one admin query for the
 * location's appointment slots, and the `forEach` loop that groups the
 * available slots into a map from date string to slot entries.
 *
 * The date string of a slot start time (`new Date(startTime)` followed by
 * the date part of `toISOString()`) is the parameter `dateKey`; None stands
 * for a start time that does not parse, on which `toISOString()` throws.
 */
module Availability {
  import opened Js
  import opened Boulevard
  import opened Http
  import opened Calendar

  type DateKey = string -> Option<string>

  type Schedule = map<string, seq<SlotEntry>>

  /** `` `slot-${dateStr}-${index}` `` */
  function SlotId(dateStr: string, index: nat): string {
    "slot-" + dateStr + "-" + NatToString(index)
  }

  /** The position of the last `-` in a string. */
  function LastDash(s: string): (r: Option<nat>)
    ensures r.Some? ==> r.value < |s| && s[r.value] == '-'
    ensures r.Some? ==> forall j :: r.value < j < |s| ==> s[j] != '-'
    ensures r.None? ==> forall j :: 0 <= j < |s| ==> s[j] != '-'
  {
    if s == [] then None
    else if s[|s| - 1] == '-' then Some(|s| - 1)
    else LastDash(s[..|s| - 1])
  }

  /** Digits contain no `-`, so the last one sits right before them. */
  lemma {:induction false} LastDashBeforeDigits(front: string, digits: string)
    requires AllDigits(digits)
    ensures LastDash(front + "-" + digits) == Some(|front|)
  {
    var s := front + "-" + digits;
    if digits != [] {
      var shorter := digits[..|digits| - 1];
      assert s[|s| - 1] == digits[|digits| - 1];
      assert s[..|s| - 1] == front + "-" + shorter;
      LastDashBeforeDigits(front, shorter);
    }
  }

  /** Different (date, index) pairs get different ids. */
  lemma SlotIdInjective(d1: string, i1: nat, d2: string, i2: nat)
    requires SlotId(d1, i1) == SlotId(d2, i2)
    ensures d1 == d2 && i1 == i2
  {
    var s := SlotId(d1, i1);
    var n1, n2 := NatToString(i1), NatToString(i2);
    assert s == ("slot-" + d1) + "-" + n1;
    assert s == ("slot-" + d2) + "-" + n2;
    LastDashBeforeDigits("slot-" + d1, n1);
    LastDashBeforeDigits("slot-" + d2, n2);
    assert |d1| == |d2|;
    assert n1 == s[|s| - |n1|..];
    assert n2 == s[|s| - |n2|..];
    NatToStringInjective(i1, i2);
    assert d1 == s[5..5 + |d1|];
    assert d2 == s[5..5 + |d2|];
  }

  /** Slot `i` is available and its start time falls on `key`. */
  predicate Placed(slots: seq<Slot>, dateKey: DateKey, i: int, key: string)
    requires 0 <= i < |slots|
  {
    slots[i].available && dateKey(slots[i].startTime) == Some(key)
  }

  /** The entry the loop pushes for slot `i` under `key`. */
  function Entry(slots: seq<Slot>, key: string, i: nat): SlotEntry
    requires i < |slots|
  {
    SlotEntry(SlotId(key, i), slots[i].startTime)
  }

  /** The indices below `n` of the slots placed on `key`, in increasing order. */
  function MatchingIndices(slots: seq<Slot>, dateKey: DateKey, key: string, n: nat): (r: seq<nat>)
    requires n <= |slots|
    ensures forall j :: 0 <= j < |r| ==> r[j] < n && Placed(slots, dateKey, r[j], key)
    ensures forall j, k :: 0 <= j < k < |r| ==> r[j] < r[k]
    ensures forall i :: 0 <= i < n && Placed(slots, dateKey, i, key) ==> i in r
  {
    if n == 0 then []
    else MatchingIndices(slots, dateKey, key, n - 1) + (if Placed(slots, dateKey, n - 1, key) then [n - 1] else [])
  }

  /** The entries for `key` after the loop has seen the first `n` slots:
      one per matching slot, in slot order. */
  function Bucket(slots: seq<Slot>, dateKey: DateKey, key: string, n: nat): (b: seq<SlotEntry>)
    requires n <= |slots|
    ensures |b| == |MatchingIndices(slots, dateKey, key, n)|
    ensures forall j :: 0 <= j < |b| ==> b[j] == Entry(slots, key, MatchingIndices(slots, dateKey, key, n)[j])
  {
    if n == 0 then []
    else Bucket(slots, dateKey, key, n - 1) + (if Placed(slots, dateKey, n - 1, key) then [Entry(slots, key, n - 1)] else [])
  }

  /** The date strings of the available slots among the first `n`. */
  function Keys(slots: seq<Slot>, dateKey: DateKey, n: nat): set<string>
    requires n <= |slots|
  {
    if n == 0 then {}
    else Keys(slots, dateKey, n - 1)
         + (if slots[n - 1].available && dateKey(slots[n - 1].startTime).Some?
            then {dateKey(slots[n - 1].startTime).value} else {})
  }

  /** A date is among the keys exactly when some available slot falls on it. */
  lemma {:induction false} KeysMembership(slots: seq<Slot>, dateKey: DateKey, n: nat, key: string)
    requires n <= |slots|
    ensures key in Keys(slots, dateKey, n) <==> exists i :: 0 <= i < n && Placed(slots, dateKey, i, key)
  {
    if n > 0 {
      KeysMembership(slots, dateKey, n - 1, key);
      if Placed(slots, dateKey, n - 1, key) {
        assert key in Keys(slots, dateKey, n);
      }
    }
  }

  /** Some available slot among the first `n` has a start time that is not a date. */
  predicate Invalid(slots: seq<Slot>, dateKey: DateKey, n: nat)
    requires n <= |slots|
  {
    exists i :: 0 <= i < n && slots[i].available && dateKey(slots[i].startTime).None?
  }

  /** The `availability` object after the first `n` slots, as the loop builds
      it: an available slot with a date creates its date's list if missing
      and appends its entry. */
  function Accumulated(slots: seq<Slot>, dateKey: DateKey, n: nat): Schedule
    requires n <= |slots|
  {
    if n == 0 then map[]
    else
      var m := Accumulated(slots, dateKey, n - 1);
      var slot := slots[n - 1];
      if slot.available && dateKey(slot.startTime).Some? then
        var d := dateKey(slot.startTime).value;
        m[d := (if d in m then m[d] else []) + [SlotEntry(SlotId(d, n - 1), slot.startTime)]]
      else m
  }

  /** The same object described without the loop: one key per date of an
      available slot, holding that date's bucket. */
  function Described(slots: seq<Slot>, dateKey: DateKey, n: nat): Schedule
    requires n <= |slots|
  {
    map key | key in Keys(slots, dateKey, n) :: Bucket(slots, dateKey, key, n)
  }

  /** The `availability` object after the whole loop, or None where it throws. */
  function Grouped(slots: seq<Slot>, dateKey: DateKey): Option<Schedule> {
    if Invalid(slots, dateKey, |slots|) then None else Some(Accumulated(slots, dateKey, |slots|))
  }

  /** The bucket of `key` grows by the entry of slot `n` exactly when that slot is placed on `key`. */
  lemma BucketStep(slots: seq<Slot>, dateKey: DateKey, key: string, n: nat)
    requires n < |slots|
    ensures Bucket(slots, dateKey, key, n + 1)
         == Bucket(slots, dateKey, key, n) + (if Placed(slots, dateKey, n, key) then [Entry(slots, key, n)] else [])
  {
  }

  /** A non-empty bucket belongs to a key. */
  lemma BucketHasKey(slots: seq<Slot>, dateKey: DateKey, key: string, n: nat)
    requires n <= |slots|
    ensures |Bucket(slots, dateKey, key, n)| > 0 ==> key in Keys(slots, dateKey, n)
  {
    var idx := MatchingIndices(slots, dateKey, key, n);
    if |idx| > 0 {
      assert Placed(slots, dateKey, idx[0], key);
      KeysMembership(slots, dateKey, n, key);
    }
  }

  /** A slot that is unavailable or has no date leaves the description as it was. */
  lemma DescribedSkip(slots: seq<Slot>, dateKey: DateKey, i: nat)
    requires i < |slots| && !(slots[i].available && dateKey(slots[i].startTime).Some?)
    ensures Described(slots, dateKey, i + 1) == Described(slots, dateKey, i)
  {
    var m := Described(slots, dateKey, i);
    var m' := Described(slots, dateKey, i + 1);
    forall key | key in m'
      ensures m'[key] == m[key]
    {
      BucketStep(slots, dateKey, key, i);
    }
  }

  /** The bucket of `key` after an available slot on date `d`. */
  lemma BucketPush(slots: seq<Slot>, dateKey: DateKey, i: nat, d: string, key: string)
    requires i < |slots| && Placed(slots, dateKey, i, d)
    ensures Bucket(slots, dateKey, key, i + 1)
         == if key != d then Bucket(slots, dateKey, key, i)
            else (if key in Keys(slots, dateKey, i) then Bucket(slots, dateKey, key, i) else []) + [Entry(slots, d, i)]
  {
    BucketStep(slots, dateKey, key, i);
    if key == d {
      BucketHasKey(slots, dateKey, d, i);
    }
  }

  /** An available slot on date `d` adds its entry to the description as the loop does. */
  lemma DescribedPush(slots: seq<Slot>, dateKey: DateKey, i: nat, d: string)
    requires i < |slots| && Placed(slots, dateKey, i, d)
    ensures var m := Described(slots, dateKey, i);
      Described(slots, dateKey, i + 1)
        == m[d := (if d in m then m[d] else []) + [SlotEntry(SlotId(d, i), slots[i].startTime)]]
  {
    var m := Described(slots, dateKey, i);
    var m' := Described(slots, dateKey, i + 1);
    var expected := m[d := (if d in m then m[d] else []) + [Entry(slots, d, i)]];
    assert m'.Keys == expected.Keys;
    forall key | key in m'
      ensures m'[key] == expected[key]
    {
      BucketPush(slots, dateKey, i, d, key);
    }
  }

  /** What the loop builds is what the description says. */
  lemma {:induction false} AccumulatedIsDescribed(slots: seq<Slot>, dateKey: DateKey, n: nat)
    requires n <= |slots|
    ensures Accumulated(slots, dateKey, n) == Described(slots, dateKey, n)
  {
    if n == 0 {
      assert Keys(slots, dateKey, 0) == {};
    } else {
      AccumulatedIsDescribed(slots, dateKey, n - 1);
      var slot := slots[n - 1];
      if slot.available && dateKey(slot.startTime).Some? {
        DescribedPush(slots, dateKey, n - 1, dateKey(slot.startTime).value);
      } else {
        DescribedSkip(slots, dateKey, n - 1);
      }
    }
  }

  /** Creating a missing list and then pushing onto it appends to the list, or to an empty one. */
  lemma CreateThenPush(before: Schedule, created: Schedule, d: string, e: SlotEntry)
    requires created == if d in before then before else before[d := []]
    ensures d in created
    ensures created[d := created[d] + [e]] == before[d := (if d in before then before[d] else []) + [e]]
  {
  }

  /** The grouping loop of the handler. */
  method GroupAvailable(slots: seq<Slot>, dateKey: DateKey) returns (availability: Option<Schedule>)
    ensures availability == Grouped(slots, dateKey)
  {
    var m: Schedule := map[];
    var i := 0;
    while i < |slots|
      invariant 0 <= i <= |slots|
      invariant !Invalid(slots, dateKey, i)
      invariant m == Accumulated(slots, dateKey, i)
    {
      var slot := slots[i];
      if slot.available {
        var key := dateKey(slot.startTime);
        if key.None? {
          assert Invalid(slots, dateKey, |slots|) by {
            assert slots[i].available && dateKey(slots[i].startTime).None?;
          }
          return None;
        }
        var dateStr := key.value;
        ghost var before := m;
        if dateStr !in m {
          m := m[dateStr := []];
        }
        CreateThenPush(before, m, dateStr, SlotEntry(SlotId(dateStr, i), slot.startTime));
        m := m[dateStr := m[dateStr] + [SlotEntry(SlotId(dateStr, i), slot.startTime)]];
      }
      assert !Invalid(slots, dateKey, i + 1) by {
        assert slots[i].available ==> dateKey(slots[i].startTime).Some?;
      }
      i := i + 1;
    }
    return Some(m);
  }

  /** A date is a key of the description exactly when some available slot falls on it. */
  lemma DescribedKeys(slots: seq<Slot>, dateKey: DateKey, n: nat, key: string)
    requires n <= |slots|
    ensures key in Described(slots, dateKey, n) <==> exists i :: 0 <= i < n && Placed(slots, dateKey, i, key)
  {
    KeysMembership(slots, dateKey, n, key);
  }

  /** Every bucket of the description is non-empty. */
  lemma DescribedNonEmpty(slots: seq<Slot>, dateKey: DateKey, n: nat, key: string)
    requires n <= |slots| && key in Described(slots, dateKey, n)
    ensures |Described(slots, dateKey, n)[key]| > 0
  {
    DescribedKeys(slots, dateKey, n, key);
    var i :| 0 <= i < n && Placed(slots, dateKey, i, key);
    assert i in MatchingIndices(slots, dateKey, key, n);
  }

  /** Keys, contents and order of the result: a date is a key exactly when
      some available slot falls on it; its list is never empty and holds, in
      slot order, one entry per such slot, carrying the slot's own index
      (unavailable slots counted) and start time. */
  lemma GroupedShape(slots: seq<Slot>, dateKey: DateKey, key: string)
    requires Grouped(slots, dateKey).Some?
    ensures var m := Grouped(slots, dateKey).value;
      key in m <==> exists i :: 0 <= i < |slots| && Placed(slots, dateKey, i, key)
    ensures var m := Grouped(slots, dateKey).value;
      key in m ==> |m[key]| > 0 && m[key] == Bucket(slots, dateKey, key, |slots|)
  {
    AccumulatedIsDescribed(slots, dateKey, |slots|);
    DescribedKeys(slots, dateKey, |slots|, key);
    if key in Described(slots, dateKey, |slots|) {
      DescribedNonEmpty(slots, dateKey, |slots|, key);
    }
  }

  /** Every available slot is in the result, under its own date. */
  lemma GroupedPlacesEverySlot(slots: seq<Slot>, dateKey: DateKey, i: nat)
    requires Grouped(slots, dateKey).Some? && i < |slots| && slots[i].available
    ensures dateKey(slots[i].startTime).Some?
    ensures var m := Grouped(slots, dateKey).value; var d := dateKey(slots[i].startTime).value;
      d in m && Entry(slots, d, i) in m[d]
  {
    var d := dateKey(slots[i].startTime).value;
    assert Placed(slots, dateKey, i, d);
    GroupedShape(slots, dateKey, d);
    var idx := MatchingIndices(slots, dateKey, d, |slots|);
    var j :| 0 <= j < |idx| && idx[j] == i;
    assert Bucket(slots, dateKey, d, |slots|)[j] == Entry(slots, d, i);
  }

  /** No two entries of the result share an id. */
  lemma GroupedIdsDistinct(slots: seq<Slot>, dateKey: DateKey, k1: string, j1: nat, k2: string, j2: nat)
    requires Grouped(slots, dateKey).Some?
    requires var m := Grouped(slots, dateKey).value;
      k1 in m && k2 in m && j1 < |m[k1]| && j2 < |m[k2]| && m[k1][j1].id == m[k2][j2].id
    ensures k1 == k2 && j1 == j2
  {
    GroupedShape(slots, dateKey, k1);
    GroupedShape(slots, dateKey, k2);
    var idx1 := MatchingIndices(slots, dateKey, k1, |slots|);
    var idx2 := MatchingIndices(slots, dateKey, k2, |slots|);
    SlotIdInjective(k1, idx1[j1], k2, idx2[j2]);
  }

  // ----- the number of entries -----

  /** The number of available slots among the first `n`. */
  function CountAvailable(slots: seq<Slot>, n: nat): (c: nat)
    requires n <= |slots|
    ensures c <= n
  {
    if n == 0 then 0 else CountAvailable(slots, n - 1) + (if slots[n - 1].available then 1 else 0)
  }

  /** The total length of all lists of a calendar. */
  ghost function TotalLen(m: Schedule): nat
    decreases m.Keys
  {
    if m == map[] then 0
    else var k :| k in m; |m[k]| + TotalLen(m - {k})
  }

  lemma TotalLenRemove(m: Schedule, k: string)
    requires k in m
    ensures TotalLen(m) == |m[k]| + TotalLen(m - {k})
    decreases m.Keys
  {
    var k' :| k' in m && TotalLen(m) == |m[k']| + TotalLen(m - {k'});
    if k' != k {
      TotalLenRemove(m - {k'}, k);
      TotalLenRemove(m - {k}, k');
      assert m - {k'} - {k} == m - {k} - {k'};
    }
  }

  lemma TotalLenUpdate(m: Schedule, d: string, v: seq<SlotEntry>)
    ensures TotalLen(m[d := v]) + (if d in m then |m[d]| else 0) == TotalLen(m) + |v|
  {
    TotalLenRemove(m[d := v], d);
    assert m[d := v] - {d} == m - {d};
    if d in m {
      TotalLenRemove(m, d);
    } else {
      assert m - {d} == m;
    }
  }

  /** The lists hold, all together, exactly as many entries as there are available slots. */
  lemma {:induction false} GroupedTotal(slots: seq<Slot>, dateKey: DateKey, n: nat)
    requires n <= |slots| && !Invalid(slots, dateKey, n)
    ensures TotalLen(Accumulated(slots, dateKey, n)) == CountAvailable(slots, n)
  {
    if n > 0 {
      assert !Invalid(slots, dateKey, n - 1);
      GroupedTotal(slots, dateKey, n - 1);
      var slot := slots[n - 1];
      if slot.available {
        assert dateKey(slot.startTime).Some?;
        var m := Accumulated(slots, dateKey, n - 1);
        var d := dateKey(slot.startTime).value;
        TotalLenUpdate(m, d, (if d in m then m[d] else []) + [SlotEntry(SlotId(d, n - 1), slot.startTime)]);
      }
    }
  }

  // ----- the handler -----

  /** The fields of the request body the handler reads. */
  datatype AvailabilityRequest = AvailabilityRequest(
    month: Option<int>, year: Option<int>, locationId: Option<string>, staffId: Option<string>)

  /** The two date strings of the month's range, or None where building them
      throws: a missing month or year makes an invalid date, and so does a
      date outside the time-value range. */
  function RangeDates(req: AvailabilityRequest): (r: Option<(string, string)>)
    ensures r.Some? <==>
              && req.month.Some? && req.year.Some?
              && Representable(MonthRange(req.year.value, req.month.value).0)
              && Representable(MonthRange(req.year.value, req.month.value).1)
    ensures r.Some? ==> r.value == (IsoDate(MonthRange(req.year.value, req.month.value).0),
                                   IsoDate(MonthRange(req.year.value, req.month.value).1))
  {
    if req.month.None? || req.year.None? then None
    else
      var (start, end) := MonthRange(req.year.value, req.month.value);
      if Representable(start) && Representable(end) then Some((IsoDate(start), IsoDate(end))) else None
  }

  /** The two date strings read back as the first and the last day of the month. */
  lemma RangeDatesReadBack(req: AvailabilityRequest)
    requires RangeDates(req).Some?
    ensures var (start, end) := MonthRange(req.year.value, req.month.value);
      ParseIsoDate(RangeDates(req).value.0) == Some(start) && ParseIsoDate(RangeDates(req).value.1) == Some(end)
  {
    var (start, end) := MonthRange(req.year.value, req.month.value);
    MonthRangeIsWholeMonth(req.year.value, req.month.value);
    RepresentableYears(start);
    RepresentableYears(end);
    IsoDateRoundTrip(start);
    IsoDateRoundTrip(end);
  }

  /** `location.appointmentSlots` when both are present. */
  function SlotsOf(data: Data): Option<seq<Slot>> {
    if data.LocationData? && data.location.Some? && data.location.value.appointmentSlots.Some?
    then data.location.value.appointmentSlots
    else None
  }

  /** The handler's answer to the platform's reply. */
  function AvailabilityAnswer(reply: Reply, dateKey: DateKey): (r: Response)
    ensures ReplyFailure(reply).Some? ==> r == ReplyFailure(reply).value
    ensures ReplyFailure(reply).None? && reply.data.NoData? ==> r == InternalError
    ensures ReplyFailure(reply).None? && !reply.data.NoData? && SlotsOf(reply.data).None? ==>
              r == Response(200, AvailabilityMap(map[]))
    ensures ReplyFailure(reply).None? && SlotsOf(reply.data).Some? ==>
              var g := Grouped(SlotsOf(reply.data).value, dateKey);
              r == if g.Some? then Response(200, AvailabilityMap(g.value)) else InternalError
  {
    if ReplyFailure(reply).Some? then ReplyFailure(reply).value
    else if reply.data.NoData? then InternalError
    else match SlotsOf(reply.data)
      case None => Response(200, AvailabilityMap(map[]))
      case Some(slots) =>
        match Grouped(slots, dateKey)
        case None => InternalError
        case Some(m) => Response(200, AvailabilityMap(m))
  }

  /** The call the handler makes once the dates are built. */
  function AvailabilityCall(env: Option<string>, req: AvailabilityRequest, dates: (string, string)): Call {
    Call(AdminApi, KeyOnlyAuth(EnvApiKey(env)), GetAvailability(req.locationId, req.staffId, dates.0, dates.1))
  }

  /** The handler: method gate, date range, one admin query, grouping. */
  method GetAvailabilityHandler(verb: string, env: Option<string>, req: AvailabilityRequest,
                                upstream: Call -> Reply, dateKey: DateKey) returns (ex: Exchange)
    ensures MethodGate(verb).Some? ==> ex == Exchange([], MethodGate(verb).value)
    ensures MethodGate(verb).None? && RangeDates(req).None? ==> ex == Exchange([], InternalError)
    ensures MethodGate(verb).None? && RangeDates(req).Some? ==>
              ex.calls == [AvailabilityCall(env, req, RangeDates(req).value)]
              && ex.response == AvailabilityAnswer(upstream(ex.calls[0]), dateKey)
  {
    var gate := MethodGate(verb);
    if gate.Some? {
      return Exchange([], gate.value);
    }
    var dates := RangeDates(req);
    if dates.None? {
      return Exchange([], InternalError);
    }
    var call := AvailabilityCall(env, req, dates.value);
    var reply := upstream(call);
    var failure := ReplyFailure(reply);
    if failure.Some? {
      return Exchange([call], failure.value);
    }
    if reply.data.NoData? {
      return Exchange([call], InternalError);
    }
    var slots := SlotsOf(reply.data);
    if slots.None? {
      return Exchange([call], Response(200, AvailabilityMap(map[])));
    }
    var availability := GroupAvailable(slots.value, dateKey);
    if availability.None? {
      return Exchange([call], InternalError);
    }
    return Exchange([call], Response(200, AvailabilityMap(availability.value)));
  }
}
