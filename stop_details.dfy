/**
 * The stop-details screen state and the view model that updates it.
 *
 * The use cases the view model calls (stop details, raw schedule, final
 * schedule) are not part of this model: what each call returned, or the
 * exception it threw, is passed in as a parameter, and the coroutine bodies
 * run to completion one after the other.
 */
module StopDetails {
  import opened Wrappers
  import opened Dtos
  import opened BusCard
  import opened FinalScheduleMapper

  /** A stop as the view model sees it: only its id is read. */
  datatype Stop = Stop(id: Option<string>)

  /** `StopDetailsUiState`. */
  datatype UiState = UiState(
    isLoading: bool,
    selectedStop: Option<Stop>,
    error: Option<string>,
    arrivalsLoading: bool,
    arrivals: seq<Arrival>,
    arrivalsError: Option<string>,
    arrivalsRawJson: Option<string>,
    noHalteDoorkomsten: bool)

  /** The state every field of which has its declared default. */
  const InitialState := UiState(false, None, None, false, [], None, None, false)

  /** A Kotlin `Result`: a value, or a failure whose message may be missing. */
  datatype Outcome<T> = Success(value: T) | Failure(message: Option<string>)

  /** A use-case call that either returned a `Result` or threw. */
  datatype Call<T> = Returned(outcome: Outcome<T>) | Threw(message: Option<string>)

  // ---- arrival order ----

  /** The sort key: the real-time instant if set, else the scheduled one, else last. */
  function EffectiveTime(a: Arrival): (t: int)
    ensures a.realArrivalMillis > 0 ==> t == a.realArrivalMillis
    ensures a.realArrivalMillis <= 0 && a.expectedArrivalMillis > 0 ==> t == a.expectedArrivalMillis
    ensures a.realArrivalMillis <= 0 && a.expectedArrivalMillis <= 0 ==> t == LongMax
  {
    if a.realArrivalMillis > 0 then a.realArrivalMillis
    else if a.expectedArrivalMillis > 0 then a.expectedArrivalMillis
    else LongMax
  }

  predicate Sorted(s: seq<Arrival>) {
    forall i, j | 0 <= i < j < |s| :: EffectiveTime(s[i]) <= EffectiveTime(s[j])
  }

  /** The arrivals of `s` whose sort key is `t`, in their order in `s`. */
  function WithTime(s: seq<Arrival>, t: int): (r: seq<Arrival>)
    ensures forall x | x in r :: x in s && EffectiveTime(x) == t
  {
    if s == [] then []
    else if EffectiveTime(s[0]) == t then [s[0]] + WithTime(s[1..], t)
    else WithTime(s[1..], t)
  }

  /** Places `a` in front of the first arrival whose key is not smaller. */
  function Insert(a: Arrival, s: seq<Arrival>): (r: seq<Arrival>)
    ensures multiset(r) == multiset(s) + multiset{a}
    ensures |r| == |s| + 1 && (r[0] == a || (s != [] && r[0] == s[0]))
  {
    if s == [] || EffectiveTime(a) <= EffectiveTime(s[0]) then [a] + s
    else
      assert s == [s[0]] + s[1..];
      [s[0]] + Insert(a, s[1..])
  }

  /** Inserting into a sorted list keeps it sorted. */
  lemma {:induction false} InsertSorted(a: Arrival, s: seq<Arrival>)
    requires Sorted(s)
    ensures Sorted(Insert(a, s))
  {
    if s != [] && EffectiveTime(a) > EffectiveTime(s[0]) {
      var rest := Insert(a, s[1..]);
      InsertSorted(a, s[1..]);
      assert EffectiveTime(s[0]) <= EffectiveTime(rest[0]);
      var r := [s[0]] + rest;
      forall i, j | 0 <= i < j < |r| ensures EffectiveTime(r[i]) <= EffectiveTime(r[j]) {
        if i == 0 {
          assert r[j] == rest[j - 1];
          assert EffectiveTime(rest[0]) <= EffectiveTime(rest[j - 1]);
        } else {
          assert r[i] == rest[i - 1] && r[j] == rest[j - 1];
        }
      }
    }
  }

  /** `sortedWith(compareBy { effective time })`, a stable sort. */
  function SortByEffectiveTime(s: seq<Arrival>): (r: seq<Arrival>)
    ensures multiset(r) == multiset(s)
    ensures Sorted(r)
  {
    if s == [] then []
    else
      assert s == [s[0]] + s[1..];
      InsertSorted(s[0], SortByEffectiveTime(s[1..]));
      Insert(s[0], SortByEffectiveTime(s[1..]))
  }

  lemma {:induction false} InsertWithTime(a: Arrival, s: seq<Arrival>, t: int)
    ensures WithTime(Insert(a, s), t) == (if EffectiveTime(a) == t then [a] else []) + WithTime(s, t)
  {
    if s == [] || EffectiveTime(a) <= EffectiveTime(s[0]) {
      assert ([a] + s)[1..] == s;
    } else {
      var rest := Insert(a, s[1..]);
      assert ([s[0]] + rest)[1..] == rest;
      InsertWithTime(a, s[1..], t);
    }
  }

  /** Stability: arrivals with the same key keep their relative order. */
  lemma {:induction false} SortStable(s: seq<Arrival>, t: int)
    ensures WithTime(SortByEffectiveTime(s), t) == WithTime(s, t)
  {
    if s != [] {
      SortStable(s[1..], t);
      InsertWithTime(s[0], SortByEffectiveTime(s[1..]), t);
    }
  }

  /** The first arrival of a sorted list has the smallest key. */
  lemma SortedFirstSmallest(s: seq<Arrival>, x: Arrival)
    requires Sorted(s) && x in s
    ensures EffectiveTime(s[0]) <= EffectiveTime(x)
  {
    var k :| 0 <= k < |s| && s[k] == x;
    if k > 0 {
      assert EffectiveTime(s[0]) <= EffectiveTime(s[k]);
    }
  }

  /** Two sorted lists that agree key by key start with the same arrival. */
  lemma SortedByKeySameHead(r1: seq<Arrival>, r2: seq<Arrival>)
    requires Sorted(r1) && Sorted(r2) && r1 != [] && r2 != []
    requires WithTime(r1, EffectiveTime(r1[0])) == WithTime(r2, EffectiveTime(r1[0]))
    requires WithTime(r1, EffectiveTime(r2[0])) == WithTime(r2, EffectiveTime(r2[0]))
    ensures r1[0] == r2[0] && WithTime(r1[1..], EffectiveTime(r1[0])) == WithTime(r2[1..], EffectiveTime(r1[0]))
  {
    var t1, t2 := EffectiveTime(r1[0]), EffectiveTime(r2[0]);
    var w1, w2 := WithTime(r1, t1), WithTime(r2, t2);
    assert w1 == [r1[0]] + WithTime(r1[1..], t1);
    assert w2 == [r2[0]] + WithTime(r2[1..], t2);
    assert r1[0] in WithTime(r2, t1) by { assert WithTime(r2, t1) == w1; }
    assert r2[0] in WithTime(r1, t2) by { assert WithTime(r1, t2) == w2; }
    SortedFirstSmallest(r2, r1[0]);
    SortedFirstSmallest(r1, r2[0]);
    assert t1 == t2 && w1 == w2;
    assert w1[0] == r1[0] && w2[0] == r2[0];
    assert w1[1..] == WithTime(r1[1..], t1) && w2[1..] == WithTime(r2[1..], t1);
  }

  /** Away from the first key, the tails agree key by key too. */
  lemma SortedByKeySameTail(r1: seq<Arrival>, r2: seq<Arrival>, t: int)
    requires r1 != [] && r2 != [] && EffectiveTime(r1[0]) == EffectiveTime(r2[0]) != t
    requires WithTime(r1, t) == WithTime(r2, t)
    ensures WithTime(r1[1..], t) == WithTime(r2[1..], t)
  {
  }

  lemma SortedTail(s: seq<Arrival>)
    requires Sorted(s) && s != []
    ensures Sorted(s[1..])
  {
    forall i, j | 0 <= i < j < |s| - 1 ensures EffectiveTime(s[1..][i]) <= EffectiveTime(s[1..][j]) {
      assert s[1..][i] == s[i + 1] && s[1..][j] == s[j + 1];
    }
  }

  /** Two sorted sequences that agree key by key are the same sequence. */
  lemma {:induction false} SortedByKeyEqual(r1: seq<Arrival>, r2: seq<Arrival>)
    requires Sorted(r1) && Sorted(r2)
    requires forall t :: WithTime(r1, t) == WithTime(r2, t)
    ensures r1 == r2
  {
    if r1 != [] {
      assert r1[0] in WithTime(r1, EffectiveTime(r1[0]));
      assert WithTime(r2, EffectiveTime(r1[0])) != [];
    }
    if r2 != [] {
      assert r2[0] in WithTime(r2, EffectiveTime(r2[0]));
      assert WithTime(r1, EffectiveTime(r2[0])) != [];
    }
    if r1 != [] && r2 != [] {
      assert WithTime(r1, EffectiveTime(r1[0])) == WithTime(r2, EffectiveTime(r1[0]));
      assert WithTime(r1, EffectiveTime(r2[0])) == WithTime(r2, EffectiveTime(r2[0]));
      SortedByKeySameHead(r1, r2);
      forall t ensures WithTime(r1[1..], t) == WithTime(r2[1..], t) {
        if t != EffectiveTime(r1[0]) {
          assert WithTime(r1, t) == WithTime(r2, t);
          SortedByKeySameTail(r1, r2, t);
        }
      }
      SortedTail(r1);
      SortedTail(r2);
      SortedByKeyEqual(r1[1..], r2[1..]);
      assert r1 == [r1[0]] + r1[1..] && r2 == [r2[0]] + r2[1..];
    }
  }

  /**
   * The sort is the only sorted arrangement that keeps the input order among
   * arrivals of equal key, so any stable sort gives the same list.
   */
  lemma SortUnique(s: seq<Arrival>, r: seq<Arrival>)
    requires Sorted(r)
    requires forall t :: WithTime(r, t) == WithTime(s, t)
    ensures r == SortByEffectiveTime(s)
  {
    forall t ensures WithTime(r, t) == WithTime(SortByEffectiveTime(s), t) {
      SortStable(s, t);
    }
    SortedByKeyEqual(r, SortByEffectiveTime(s));
  }

  /**
   * An arrival with neither instant set comes after every arrival that has
   * one, unless that instant is the largest `Long` itself.
   */
  lemma UntimedLast(s: seq<Arrival>, i: int, j: int)
    requires 0 <= i < j < |SortByEffectiveTime(s)|
    requires SortByEffectiveTime(s)[i].realArrivalMillis <= 0 && SortByEffectiveTime(s)[i].expectedArrivalMillis <= 0
    requires forall a | a in s :: IsLong(a.realArrivalMillis) && IsLong(a.expectedArrivalMillis)
    ensures EffectiveTime(SortByEffectiveTime(s)[j]) == LongMax
  {
    var r := SortByEffectiveTime(s);
    assert r[j] in multiset(s);
  }

  /** `flatMap { it.doorkomsten }`. */
  function Flatten(groups: seq<HalteDoorkomsten>): (r: seq<Arrival>)
    ensures r == [] <==> forall i | 0 <= i < |groups| :: groups[i].doorkomsten == []
  {
    if groups == [] then []
    else groups[0].doorkomsten + Flatten(groups[1..])
  }

  /** Flattening two group lists one after the other concatenates their arrivals. */
  lemma {:induction false} FlattenAppend(a: seq<HalteDoorkomsten>, b: seq<HalteDoorkomsten>)
    ensures Flatten(a + b) == Flatten(a) + Flatten(b)
  {
    if a == [] {
      assert a + b == b;
    } else {
      assert (a + b)[1..] == a[1..] + b;
      FlattenAppend(a[1..], b);
    }
  }

  // ---- state updates ----

  /** The arrivals a schedule result yields, in arrival order. */
  function ScheduleArrivals<DN, RN, OL>(final: Option<FinalSchedule<DN, RN, OL>>): seq<Arrival> {
    if final.Some? then Flatten(final.value.halteDoorkomsten) else []
  }

  /** Whether the schedule was missing or had no stop groups. */
  function NoHalte<DN, RN, OL>(final: Option<FinalSchedule<DN, RN, OL>>): bool {
    final.None? || final.value.halteDoorkomsten == []
  }

  /** The stop fields kept, the arrivals fields given. */
  function ArrivalsState(cur: UiState, loading: bool, arrivals: seq<Arrival>, err: Option<string>, raw: Option<string>, noHalte: bool): UiState {
    UiState(cur.isLoading, cur.selectedStop, cur.error, loading, arrivals, err, raw, noHalte)
  }

  /** The state a schedule fetch leaves behind, from the state it started in. */
  function AfterFetch<DN, RN, OL>(s: UiState, raw: Call<string>, schedule: Call<Option<FinalSchedule<DN, RN, OL>>>): (r: UiState)
    // the stop fields are never touched
    ensures r.isLoading == s.isLoading && r.selectedStop == s.selectedStop && r.error == s.error
    ensures !r.arrivalsLoading
    // the raw text survives only from a raw call that succeeded
    ensures r.arrivalsRawJson == (if raw.Returned? && raw.outcome.Success? then Some(raw.outcome.value) else None)
    ensures raw.Returned? && schedule.Returned? && schedule.outcome.Success? ==>
      var all := ScheduleArrivals(schedule.outcome.value);
      && multiset(r.arrivals) == multiset(all)
      && Sorted(r.arrivals)
      && (forall t :: WithTime(r.arrivals, t) == WithTime(all, t))
      && r.arrivalsError.None?
      && (r.noHalteDoorkomsten <==> NoHalte(schedule.outcome.value))
    ensures raw.Returned? && schedule.Returned? && schedule.outcome.Failure? ==>
      && r.arrivals == []
      && r.arrivalsError == Some(schedule.outcome.message.GetOr("Failed to load arrivals"))
      && !r.noHalteDoorkomsten
    ensures raw.Threw? || (raw.Returned? && schedule.Threw?) ==>
      && r.arrivals == []
      && r.arrivalsError == Some((if raw.Threw? then raw.message else schedule.message).GetOr("Unknown error"))
      && !r.noHalteDoorkomsten
  {
    var started := ArrivalsState(s, true, s.arrivals, None, None, false);
    match raw
    case Threw(m) =>
      ArrivalsState(started, false, [], Some(m.GetOr("Unknown error")), started.arrivalsRawJson, false)
    case Returned(rawRes) =>
      var withRaw := if rawRes.Success? then started.(arrivalsRawJson := Some(rawRes.value)) else started;
      match schedule
      case Threw(m) =>
        ArrivalsState(withRaw, false, [], Some(m.GetOr("Unknown error")), withRaw.arrivalsRawJson, false)
      case Returned(Failure(m)) =>
        ArrivalsState(withRaw, false, [], Some(m.GetOr("Failed to load arrivals")), withRaw.arrivalsRawJson, false)
      case Returned(Success(final)) =>
        var sorted := SortByEffectiveTime(ScheduleArrivals(final));
        assert forall t :: WithTime(sorted, t) == WithTime(ScheduleArrivals(final), t) by {
          forall t ensures WithTime(sorted, t) == WithTime(ScheduleArrivals(final), t) {
            SortStable(ScheduleArrivals(final), t);
          }
        }
        ArrivalsState(withRaw, false, sorted, withRaw.arrivalsError, withRaw.arrivalsRawJson, NoHalte(final))
  }

  /** A successful fetch shows exactly the stably sorted arrivals of the schedule. */
  lemma FetchShowsSortedSchedule<DN, RN, OL>(s: UiState, raw: Call<string>, final: Option<FinalSchedule<DN, RN, OL>>)
    requires raw.Returned?
    ensures AfterFetch(s, raw, Returned(Success(final))).arrivals == SortByEffectiveTime(ScheduleArrivals(final))
  {
    var r := AfterFetch(s, raw, Returned(Success(final)));
    SortUnique(ScheduleArrivals(final), r.arrivals);
  }

  /** The state `loadStopDetails` leaves behind, including the fetch it starts. */
  function AfterLoad<DN, RN, OL>(s: UiState, stop: Outcome<Option<Stop>>, raw: Call<string>, schedule: Call<Option<FinalSchedule<DN, RN, OL>>>): (r: UiState)
    ensures !r.isLoading
    ensures stop.Success? ==> r.selectedStop == stop.value && r.error.None?
    ensures stop.Failure? ==> r.selectedStop == s.selectedStop && r.error == Some(stop.message.GetOr("Unknown error"))
    // the arrivals fields change only through a fetch, and a fetch needs a stop id
    ensures !(stop.Success? && stop.value.Some? && stop.value.value.id.Some?) ==>
      && r.arrivalsLoading == s.arrivalsLoading && r.arrivals == s.arrivals
      && r.arrivalsError == s.arrivalsError && r.arrivalsRawJson == s.arrivalsRawJson
      && r.noHalteDoorkomsten == s.noHalteDoorkomsten
    ensures stop.Success? && stop.value.Some? && stop.value.value.id.Some? ==>
      r == AfterFetch(s.(isLoading := false, error := None, selectedStop := stop.value), raw, schedule)
  {
    var started := s.(isLoading := true, error := None);
    match stop
    case Success(st) =>
      var loaded := started.(isLoading := false, selectedStop := st);
      if st.Some? && st.value.id.Some? then AfterFetch(loaded, raw, schedule) else loaded
    case Failure(m) =>
      started.(isLoading := false, error := Some(m.GetOr("Unknown error")))
  }

  /** `StopDetailsViewModel`: the one piece of mutable state is the published UI state. */
  class StopDetailsViewModel {
    var uiState: UiState

    constructor()
      ensures uiState == InitialState
    {
      uiState := InitialState;
    }

    /** `loadStopDetails`, with the stop lookup's result and the fetch's calls given. */
    method LoadStopDetails<DN, RN, OL>(stopId: string, stop: Outcome<Option<Stop>>, raw: Call<string>,
                                        schedule: Call<Option<FinalSchedule<DN, RN, OL>>>)
      modifies this
      ensures uiState == AfterLoad(old(uiState), stop, raw, schedule)
      ensures !uiState.isLoading
      ensures stop.Failure? ==> uiState == old(uiState).(isLoading := false, error := Some(stop.message.GetOr("Unknown error")))
    {
      uiState := uiState.(isLoading := true, error := None);
      match stop
      case Success(st) =>
        uiState := uiState.(isLoading := false, selectedStop := st);
        if st.Some? && st.value.id.Some? {
          FetchFinalScheduleForStop(st.value.id.value, raw, schedule);
        }
      case Failure(m) =>
        var err := m.GetOr("Unknown error");
        uiState := uiState.(isLoading := false, error := Some(err));
    }

    /** `fetchFinalScheduleForStop`, with the raw and the final schedule calls given. */
    method FetchFinalScheduleForStop<DN, RN, OL>(stopId: string, raw: Call<string>,
                                                  schedule: Call<Option<FinalSchedule<DN, RN, OL>>>)
      modifies this
      ensures uiState == AfterFetch(old(uiState), raw, schedule)
      ensures uiState.isLoading == old(uiState).isLoading
      ensures uiState.selectedStop == old(uiState).selectedStop && uiState.error == old(uiState).error
      ensures !uiState.arrivalsLoading
    {
      var cur := uiState;
      uiState := UiState(cur.isLoading, cur.selectedStop, cur.error, true, cur.arrivals, None, None, false);
      match raw
      case Threw(m) =>
        FinishWithError(m.GetOr("Unknown error"));
      case Returned(rawRes) =>
        if rawRes.Success? {
          var cur2 := uiState;
          uiState := cur2.(arrivalsRawJson := Some(rawRes.value));
        }
        match schedule
        case Threw(m) =>
          FinishWithError(m.GetOr("Unknown error"));
        case Returned(res) =>
          if res.Success? {
            var final := res.value;
            var arrivals := if final.Some? then Flatten(final.value.halteDoorkomsten) else [];
            var noHalte := final.None? || final.value.halteDoorkomsten == [];
            var sorted := SortByEffectiveTime(arrivals);
            var cur3 := uiState;
            uiState := UiState(cur3.isLoading, cur3.selectedStop, cur3.error, false, sorted,
                               cur3.arrivalsError, cur3.arrivalsRawJson, noHalte);
          } else {
            FinishWithError(res.message.GetOr("Failed to load arrivals"));
          }
    }

    /** The update shared by a failed schedule call and the exception handler. */
    method FinishWithError(err: string)
      modifies this
      ensures uiState == ArrivalsState(old(uiState), false, [], Some(err), old(uiState).arrivalsRawJson, false)
    {
      var cur := uiState;
      uiState := UiState(cur.isLoading, cur.selectedStop, cur.error, false, [], Some(err), cur.arrivalsRawJson, false);
    }
  }
}
