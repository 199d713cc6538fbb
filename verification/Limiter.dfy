/**
 * The fixed-window rate limiter and its sweep. Times and durations are whole nanoseconds, and every call holds
 * the mutex, so a run is a sequence of calls.
 */
module Limiters {
  const NANOS_PER_SECOND := 1_000_000_000

  datatype Counter = Counter(hits: int, start: int)

  datatype Decision = Decision(retryAfter: int, allowed: bool)

  datatype Config = Config(max: int, window: int)

  type Seen = map<string, Counter>

  /** A window is opened by the first hit, and by the first hit at or past the end of the last one. */
  predicate Opens(cfg: Config, seen: Seen, key: string, now: int) {
    key !in seen || now - seen[key].start >= cfg.window
  }

  function Counted(cfg: Config, seen: Seen, key: string, now: int): Seen {
    if Opens(cfg, seen, key, now) then seen[key := Counter(1, now)]
    else seen[key := Counter(seen[key].hits + 1, seen[key].start)]
  }

  function Decide(cfg: Config, seen: Seen, key: string, now: int): Decision {
    if Opens(cfg, seen, key, now) then Decision(0, true)
    else if seen[key].hits + 1 <= cfg.max then Decision(0, true)
    else Decision((cfg.window - (now - seen[key].start)) / NANOS_PER_SECOND + 1, false)
  }

  function Swept(seen: Seen, cutoff: int): Seen {
    map key | key in seen && !(seen[key].start < cutoff) :: seen[key]
  }

  class Limiter {
    const cfg: Config
    var seen: Seen

    constructor (max: int, window: int)
      ensures cfg == Config(max, window) && seen == map[]
    {
      cfg, seen := Config(max, window), map[];
    }

    method Allow(key: string, now: int) returns (decision: Decision)
      modifies this
      ensures seen == Counted(cfg, old(seen), key, now)
      ensures decision == Decide(cfg, old(seen), key, now)
      ensures key in seen && seen == old(seen)[key := seen[key]]
      ensures if key !in old(seen) || now >= old(seen)[key].start + cfg.window
              then seen[key] == Counter(1, now) && decision == Decision(0, true)
              else
                && seen[key] == Counter(old(seen)[key].hits + 1, old(seen)[key].start)
                && (decision.allowed <==> seen[key].hits <= cfg.max)
                && (decision.allowed ==> decision.retryAfter == 0)
                && (!decision.allowed ==>
                      var left := seen[key].start + cfg.window - now;
                      (decision.retryAfter - 1) * 1_000_000_000 <= left < decision.retryAfter * 1_000_000_000)
    {
      if key !in seen || now - seen[key].start >= cfg.window {
        seen := seen[key := Counter(1, now)];
        return Decision(0, true);
      }
      var c := seen[key].(hits := seen[key].hits + 1);
      seen := seen[key := c];
      if c.hits <= cfg.max {
        return Decision(0, true);
      }
      decision := Decision((cfg.window - (now - c.start)) / NANOS_PER_SECOND + 1, false);
    }

    /** The deleting walk over the map, in whatever order it is walked. */
    method EvictBefore(cutoff: int)
      modifies this
      ensures seen == Swept(old(seen), cutoff)
      ensures forall k :: k in seen <==> k in old(seen) && old(seen)[k].start >= cutoff
      ensures forall k :: k in seen ==> seen[k] == old(seen)[k]
    {
      var todo := seen.Keys;
      while todo != {}
        invariant todo <= old(seen).Keys
        invariant seen.Keys <= old(seen).Keys
        invariant forall k :: k in seen ==> seen[k] == old(seen)[k]
        invariant forall k :: k in old(seen) ==> (k in seen <==> k in todo || !(old(seen)[k].start < cutoff))
      {
        var key :| key in todo;
        if seen[key].start < cutoff {
          seen := seen - {key};
        }
        todo := todo - {key};
      }
    }
  }

  // ---------------------------------------------------------------------------------------------
  // The sweep is invisible

  /** A request at `now`, or a sweep by a ticker at `now`. */
  datatype Event = Request(key: string, now: int) | Sweep(now: int)

  function Step(cfg: Config, seen: Seen, e: Event): Seen {
    match e
    case Request(key, now) => Counted(cfg, seen, key, now)
    case Sweep(now) => Swept(seen, now - cfg.window)
  }

  function Run(cfg: Config, seen: Seen, events: seq<Event>): Seen
    decreases |events|
  {
    if events == [] then seen else Run(cfg, Step(cfg, seen, events[0]), events[1..])
  }

  function Decisions(cfg: Config, seen: Seen, events: seq<Event>): seq<Decision>
    decreases |events|
  {
    if events == [] then []
    else (match events[0] case Request(key, now) => [Decide(cfg, seen, key, now)] case Sweep(_) => [])
         + Decisions(cfg, Step(cfg, seen, events[0]), events[1..])
  }

  function WithoutSweeps(events: seq<Event>): seq<Event> {
    if events == [] then []
    else (if events[0].Sweep? then [] else [events[0]]) + WithoutSweeps(events[1..])
  }

  lemma {:induction false} WithoutSweepsCons(events: seq<Event>)
    requires events != []
    ensures events[0].Sweep? ==> WithoutSweeps(events) == WithoutSweeps(events[1..])
    ensures events[0].Request? ==> WithoutSweeps(events) != [] && WithoutSweeps(events)[0] == events[0]
                                   && WithoutSweeps(events)[1..] == WithoutSweeps(events[1..])
  {
  }

  /** Times never go back, and none is before `from`. */
  ghost predicate Nondecreasing(events: seq<Event>, from: int) {
    && (forall i :: 0 <= i < |events| ==> from <= events[i].now)
    && (forall i, j :: 0 <= i < j < |events| ==> events[i].now <= events[j].now)
  }

  /** Nothing is after `later`. */
  ghost predicate Until(events: seq<Event>, later: int) {
    forall i :: 0 <= i < |events| ==> events[i].now <= later
  }

  lemma UntilTail(events: seq<Event>, later: int)
    requires Until(events, later) && events != []
    ensures events[0].now <= later && Until(events[1..], later)
  {
  }

  lemma NondecreasingCons(e: Event, rest: seq<Event>, from: int)
    requires from <= e.now && Nondecreasing(rest, e.now)
    ensures Nondecreasing([e] + rest, from)
  {
    var all := [e] + rest;
    forall i, j | 0 <= i < j < |all| ensures all[i].now <= all[j].now {
      assert all[j] == rest[j - 1];
    }
  }

  /** The swept table forgets only windows that have rolled by `now`. */
  ghost predicate Agrees(cfg: Config, swept: Seen, full: Seen, now: int) {
    && (forall k :: k in swept ==> k in full && full[k] == swept[k])
    && (forall k :: k in full && k !in swept ==> now - full[k].start >= cfg.window)
  }

  lemma AgreesOnRequest(cfg: Config, swept: Seen, full: Seen, key: string, now: int)
    requires Agrees(cfg, swept, full, now)
    ensures Decide(cfg, swept, key, now) == Decide(cfg, full, key, now)
    ensures Agrees(cfg, Counted(cfg, swept, key, now), Counted(cfg, full, key, now), now)
  {
  }

  lemma AgreesLater(cfg: Config, swept: Seen, full: Seen, now: int, later: int)
    requires Agrees(cfg, swept, full, now) && now <= later
    ensures Agrees(cfg, swept, full, later)
  {
  }

  lemma AgreesOnSweep(cfg: Config, swept: Seen, full: Seen, now: int)
    requires Agrees(cfg, swept, full, now)
    ensures Agrees(cfg, Swept(swept, now - cfg.window), full, now)
  {
  }

  lemma NondecreasingTail(events: seq<Event>, from: int)
    requires Nondecreasing(events, from) && events != []
    ensures Nondecreasing(events[1..], events[0].now)
  {
    var rest := events[1..];
    forall i | 0 <= i < |rest| ensures events[0].now <= rest[i].now { assert rest[i] == events[i + 1]; }
    forall i, j | 0 <= i < j < |rest| ensures rest[i].now <= rest[j].now {
      assert rest[i] == events[i + 1] && rest[j] == events[j + 1];
    }
  }

  /** Sweeping at any points of a run changes no decision and no advertised wait. */
  lemma {:induction false} SweepInvisible(cfg: Config, swept: Seen, full: Seen, events: seq<Event>, from: int)
    requires Nondecreasing(events, from) && Agrees(cfg, swept, full, from)
    ensures Decisions(cfg, swept, events) == Decisions(cfg, full, WithoutSweeps(events))
    decreases |events|
  {
    if events != [] {
      var e, rest := events[0], events[1..];
      AgreesLater(cfg, swept, full, from, e.now);
      NondecreasingTail(events, from);
      WithoutSweepsCons(events);
      match e
      case Request(key, now) =>
        AgreesOnRequest(cfg, swept, full, key, now);
        SweepInvisible(cfg, Counted(cfg, swept, key, now), Counted(cfg, full, key, now), rest, now);
      case Sweep(now) =>
        AgreesOnSweep(cfg, swept, full, now);
        SweepInvisible(cfg, Swept(swept, now - cfg.window), full, rest, now);
    }
  }

  // ---------------------------------------------------------------------------------------------
  // What the sweep is for

  lemma {:induction false} RunLast(cfg: Config, seen: Seen, events: seq<Event>, last: Event)
    ensures Run(cfg, seen, events + [last]) == Step(cfg, Run(cfg, seen, events), last)
    decreases |events|
  {
    if events == [] {
      assert [last][1..] == [];
      assert Run(cfg, seen, [last]) == Run(cfg, Step(cfg, seen, last), []);
    } else {
      assert (events + [last])[1..] == events[1..] + [last];
      RunLast(cfg, Step(cfg, seen, events[0]), events[1..], last);
    }
  }

  /** After any run, a sweep takes exactly the keys whose window began more than a window ago, and touches no other. */
  lemma {:induction false} SweepForgets(cfg: Config, seen: Seen, events: seq<Event>, now: int)
    ensures var before, after := Run(cfg, seen, events), Run(cfg, seen, events + [Sweep(now)]);
            && (forall k :: k in after <==> k in before && before[k].start >= now - cfg.window)
            && (forall k :: k in after ==> after[k] == before[k])
  {
    RunLast(cfg, seen, events, Sweep(now));
  }

  /** Some request of the key came at that time. */
  ghost predicate Asked(events: seq<Event>, key: string, at: int) {
    exists i :: 0 <= i < |events| && events[i] == Request(key, at)
  }

  lemma AskedLater(events: seq<Event>, last: Event, key: string, at: int)
    requires Asked(events, key, at) || last == Request(key, at)
    ensures Asked(events + [last], key, at)
  {
    var all := events + [last];
    if Asked(events, key, at) {
      var i :| 0 <= i < |events| && events[i] == Request(key, at);
      assert all[i] == Request(key, at);
    } else {
      assert all[|events|] == Request(key, at);
    }
  }

  /** Every window in the table was opened by one of the run's requests. */
  lemma {:induction false} OpenedByRequests(cfg: Config, events: seq<Event>)
    ensures var seen := Run(cfg, map[], events);
            forall k :: k in seen ==> Asked(events, k, seen[k].start)
    decreases |events|
  {
    if events != [] {
      var init, last := events[..|events| - 1], events[|events| - 1];
      assert events == init + [last];
      OpenedByRequests(cfg, init);
      RunLast(cfg, map[], init, last);
      var before, after := Run(cfg, map[], init), Run(cfg, map[], events);
      forall k | k in after ensures Asked(events, k, after[k].start) {
        AskedLater(init, last, k, after[k].start);
      }
    }
  }

  /** So the table a sweep leaves holds no key but those that asked within the last window. */
  lemma {:induction false} SweptTableIsRecent(cfg: Config, events: seq<Event>, now: int, key: string) returns (at: int)
    requires key in Run(cfg, map[], events + [Sweep(now)])
    ensures Asked(events, key, at) && at >= now - cfg.window
  {
    SweepForgets(cfg, map[], events, now);
    OpenedByRequests(cfg, events);
    at := Run(cfg, map[], events)[key].start;
  }

  // ---------------------------------------------------------------------------------------------
  // How much gets through

  function Quota(cfg: Config): int {
    if cfg.max < 1 then 1 else cfg.max
  }

  /** Admissions of `key` at times in the half-open span from `from` to `until`. */
  function Admitted(cfg: Config, seen: Seen, events: seq<Event>, key: string, from: int, until: int): nat
    decreases |events|
  {
    if events == [] then 0
    else
      (match events[0]
       case Request(k, now) => if k == key && from <= now < until && Decide(cfg, seen, k, now).allowed then 1 else 0
       case Sweep(_) => 0)
      + Admitted(cfg, Step(cfg, seen, events[0]), events[1..], key, from, until)
  }

  /** What is left of the window a key has open. */
  function Left(cfg: Config, seen: Seen, key: string): int {
    if key !in seen then 0
    else if seen[key].hits >= Quota(cfg) then 0 else Quota(cfg) - seen[key].hits
  }

  ghost predicate HitsPositive(seen: Seen) {
    forall k :: k in seen ==> seen[k].hits >= 1
  }

  /** Runs of requests alone, on which the bounds are proved before sweeps are let back in. */
  ghost predicate RequestsOnly(events: seq<Event>) {
    forall i :: 0 <= i < |events| ==> events[i].Request?
  }

  /** Nothing at or past the end of the span is counted. */
  lemma {:induction false} PastSpan(cfg: Config, seen: Seen, events: seq<Event>, key: string, from: int, until: int, at: int)
    requires RequestsOnly(events) && Nondecreasing(events, at) && at >= until
    ensures Admitted(cfg, seen, events, key, from, until) == 0
    decreases |events|
  {
    if events != [] {
      NondecreasingTail(events, at);
      PastSpan(cfg, Step(cfg, seen, events[0]), events[1..], key, from, until, events[0].now);
    }
  }

  /** Until the open window rolls, a key gets no more than what is left of it. */
  lemma {:induction false} WindowOfRequests(cfg: Config, seen: Seen, events: seq<Event>, key: string, from: int, until: int, at: int)
    requires HitsPositive(seen) && RequestsOnly(events) && Nondecreasing(events, at)
    requires key in seen && until <= seen[key].start + cfg.window
    ensures Admitted(cfg, seen, events, key, from, until) <= Left(cfg, seen, key)
    decreases |events|
  {
    if events != [] {
      var e := events[0];
      var after := Step(cfg, seen, e);
      NondecreasingTail(events, at);
      if e.now >= until {
        PastSpan(cfg, after, events[1..], key, from, until, e.now);
      } else {
        WindowOfRequests(cfg, after, events[1..], key, from, until, e.now);
      }
    }
  }

  /** Once inside a span one window long: what is left of the old window, and at most one new one. */
  lemma {:induction false} InsideSpan(cfg: Config, seen: Seen, events: seq<Event>, key: string, from: int, at: int)
    requires HitsPositive(seen) && RequestsOnly(events) && Nondecreasing(events, at) && from <= at
    ensures Admitted(cfg, seen, events, key, from, from + cfg.window) <= Left(cfg, seen, key) + Quota(cfg)
    decreases |events|
  {
    if events != [] {
      var e := events[0];
      var until := from + cfg.window;
      var after := Step(cfg, seen, e);
      NondecreasingTail(events, at);
      if e.now >= until {
        PastSpan(cfg, after, events[1..], key, from, until, e.now);
      } else if e.key == key && Opens(cfg, seen, key, e.now) {
        WindowOfRequests(cfg, after, events[1..], key, from, until, e.now);
      } else {
        InsideSpan(cfg, after, events[1..], key, from, e.now);
      }
    }
  }

  lemma {:induction false} SpanOfRequests(cfg: Config, seen: Seen, events: seq<Event>, key: string, from: int, at: int)
    requires HitsPositive(seen) && RequestsOnly(events) && Nondecreasing(events, at)
    ensures Admitted(cfg, seen, events, key, from, from + cfg.window) <= 2 * Quota(cfg) - 1
    decreases |events|
  {
    if events != [] {
      NondecreasingTail(events, at);
      if events[0].now < from {
        SpanOfRequests(cfg, Step(cfg, seen, events[0]), events[1..], key, from, events[0].now);
      } else {
        assert Nondecreasing(events, events[0].now);
        InsideSpan(cfg, seen, events, key, from, events[0].now);
      }
    }
  }

  lemma KeepsFront(e: Event, rest: seq<Event>, from: int)
    requires from <= e.now && RequestsOnly(rest) && Nondecreasing(rest, e.now)
    ensures var all := (if e.Sweep? then [] else [e]) + rest;
            RequestsOnly(all) && Nondecreasing(all, from)
  {
    if e.Sweep? {
      assert [] + rest == rest;
    } else {
      NondecreasingCons(e, rest, from);
    }
  }

  lemma {:induction false} WithoutSweepsKeeps(events: seq<Event>, from: int)
    requires Nondecreasing(events, from)
    ensures RequestsOnly(WithoutSweeps(events)) && Nondecreasing(WithoutSweeps(events), from)
    decreases |events|
  {
    if events != [] {
      NondecreasingTail(events, from);
      WithoutSweepsKeeps(events[1..], events[0].now);
      KeepsFront(events[0], WithoutSweeps(events[1..]), from);
    }
  }

  /** Sweeping changes no admission either. */
  lemma {:induction false} AdmittedWithoutSweeps(
      cfg: Config, swept: Seen, full: Seen, events: seq<Event>, key: string, from: int, until: int, at: int)
    requires Nondecreasing(events, at) && Agrees(cfg, swept, full, at)
    ensures Admitted(cfg, swept, events, key, from, until) == Admitted(cfg, full, WithoutSweeps(events), key, from, until)
    decreases |events|
  {
    if events != [] {
      var e, rest := events[0], events[1..];
      AgreesLater(cfg, swept, full, at, e.now);
      NondecreasingTail(events, at);
      WithoutSweepsCons(events);
      match e
      case Request(k, now) =>
        AgreesOnRequest(cfg, swept, full, k, now);
        AdmittedWithoutSweeps(cfg, Counted(cfg, swept, k, now), Counted(cfg, full, k, now), rest, key, from, until, now);
      case Sweep(now) =>
        AgreesOnSweep(cfg, swept, full, now);
        AdmittedWithoutSweeps(cfg, Swept(swept, now - cfg.window), full, rest, key, from, until, now);
    }
  }

  /** Until the open window rolls, a key gets no more than what is left of it, sweeps or none. */
  lemma WindowQuota(cfg: Config, seen: Seen, events: seq<Event>, key: string, from: int, until: int, at: int)
    requires HitsPositive(seen) && Nondecreasing(events, at)
    requires key in seen && until <= seen[key].start + cfg.window
    ensures Admitted(cfg, seen, events, key, from, until) <= Left(cfg, seen, key)
  {
    WithoutSweepsKeeps(events, at);
    AdmittedWithoutSweeps(cfg, seen, seen, events, key, from, until, at);
    WindowOfRequests(cfg, seen, WithoutSweeps(events), key, from, until, at);
  }

  /** A window, from the hit that opens it to its end, admits at most the quota. */
  lemma OpenedWindowQuota(cfg: Config, seen: Seen, events: seq<Event>, key: string)
    requires HitsPositive(seen) && events != [] && Nondecreasing(events, events[0].now)
    requires events[0].Request? && events[0].key == key && Opens(cfg, seen, key, events[0].now)
    ensures Admitted(cfg, seen, events, key, events[0].now, events[0].now + cfg.window) <= Quota(cfg)
  {
    var start := events[0].now;
    NondecreasingTail(events, start);
    WindowQuota(cfg, Step(cfg, seen, events[0]), events[1..], key, start, start + cfg.window, start);
  }

  /**
   * In any half-open span one window long a key is admitted fewer than twice its quota: the rest of a window
   * opened before the span, whose opening hit came earlier, and one opened inside it, which outlasts it.
   */
  lemma SpanQuota(cfg: Config, seen: Seen, events: seq<Event>, key: string, from: int, at: int)
    requires HitsPositive(seen) && Nondecreasing(events, at)
    ensures Admitted(cfg, seen, events, key, from, from + cfg.window) <= 2 * Quota(cfg) - 1
  {
    WithoutSweepsKeeps(events, at);
    AdmittedWithoutSweeps(cfg, seen, seen, events, key, from, from + cfg.window, at);
    SpanOfRequests(cfg, seen, WithoutSweeps(events), key, from, at);
  }

  // ---------------------------------------------------------------------------------------------
  // What a refusal promises

  /** When `key` asks, in order. */
  function Asks(events: seq<Event>, key: string): seq<int> {
    if events == [] then []
    else (if events[0].Request? && events[0].key == key then [events[0].now] else []) + Asks(events[1..], key)
  }

  /** The start of the last window that requests at `times` open, one being open since `start`. */
  function LastOpening(window: int, start: int, times: seq<int>): int
    decreases |times|
  {
    if times == [] then start
    else LastOpening(window, if times[0] >= start + window then times[0] else start, times[1..])
  }

  /** How many of `times` are at or past `from`. */
  function Since(times: seq<int>, from: int): nat {
    if times == [] then 0 else (if times[0] >= from then 1 else 0) + Since(times[1..], from)
  }

  /** Every request falls inside the window that opened at `start`. */
  predicate AllInside(window: int, start: int, times: seq<int>) {
    forall i :: 0 <= i < |times| ==> times[i] < start + window
  }

  lemma {:induction false} AsksCons(events: seq<Event>, key: string)
    requires events != []
    ensures if events[0].Request? && events[0].key == key
            then Asks(events, key) == [events[0].now] + Asks(events[1..], key) && Asks(events, key)[1..] == Asks(events[1..], key)
            else Asks(events, key) == Asks(events[1..], key)
  {
  }

  lemma {:induction false} AsksNondecreasing(events: seq<Event>, key: string, from: int)
    requires Nondecreasing(events, from)
    ensures forall i :: 0 <= i < |Asks(events, key)| ==> from <= Asks(events, key)[i]
    decreases |events|
  {
    if events != [] {
      NondecreasingTail(events, from);
      AsksNondecreasing(events[1..], key, events[0].now);
    }
  }

  /** A window opened later starts past the end of the one before it. */
  lemma {:induction false} OpensPast(window: int, start: int, times: seq<int>)
    requires window > 0
    ensures AllInside(window, start, times) ==> LastOpening(window, start, times) == start
    ensures !AllInside(window, start, times) ==> LastOpening(window, start, times) >= start + window
    decreases |times|
  {
    if times != [] {
      var next := if times[0] >= start + window then times[0] else start;
      OpensPast(window, next, times[1..]);
      if AllInside(window, start, times) {
        assert forall i :: 0 <= i < |times[1..]| ==> times[1..][i] == times[i + 1];
      } else if next == start {
        var i :| 0 <= i < |times| && times[i] >= start + window;
        assert times[1..][i - 1] == times[i];
      }
    }
  }

  lemma {:induction false} SinceAll(times: seq<int>, from: int)
    requires forall i :: 0 <= i < |times| ==> times[i] >= from
    ensures Since(times, from) == |times|
  {
    if times != [] {
      SinceAll(times[1..], from);
    }
  }

  /** Where the key's window stands after any requests, read off their times alone. */
  ghost predicate Stands(cfg: Config, was: Counter, times: seq<int>, now: Counter) {
    && now.start == LastOpening(cfg.window, was.start, times)
    && (now.hits == if AllInside(cfg.window, was.start, times) then was.hits + |times| else Since(times, now.start))
  }

  lemma StandsNext(cfg: Config, was: Counter, time: int, times: seq<int>, now: Counter)
    requires cfg.window > 0 && forall i :: 0 <= i < |times| ==> times[i] >= time
    requires Stands(cfg, if time >= was.start + cfg.window then Counter(1, time) else Counter(was.hits + 1, was.start), times, now)
    ensures Stands(cfg, was, [time] + times, now)
  {
    var all := [time] + times;
    assert all[1..] == times;
    assert forall i :: 0 <= i < |times| ==> all[i + 1] == times[i];
    if time >= was.start + cfg.window {
      assert !AllInside(cfg.window, was.start, all) by {
        assert all[0] == time;
      }
      OpensPast(cfg.window, time, times);
      if AllInside(cfg.window, time, times) {
        SinceAll(times, time);
      }
    } else {
      OpensPast(cfg.window, was.start, times);
      assert AllInside(cfg.window, was.start, all) <==> AllInside(cfg.window, was.start, times);
    }
  }

  lemma {:induction false} WindowStands(cfg: Config, seen: Seen, events: seq<Event>, key: string, at: int)
    requires cfg.window > 0 && RequestsOnly(events) && Nondecreasing(events, at) && key in seen
    ensures key in Run(cfg, seen, events) && Stands(cfg, seen[key], Asks(events, key), Run(cfg, seen, events)[key])
    decreases |events|
  {
    if events != [] {
      NondecreasingTail(events, at);
      WindowStands(cfg, Step(cfg, seen, events[0]), events[1..], key, events[0].now);
      AsksNondecreasing(events[1..], key, events[0].now);
      AsksCons(events, key);
      if events[0].key == key {
        StandsNext(cfg, seen[key], events[0].now, Asks(events[1..], key), Run(cfg, seen, events)[key]);
      } else {
        assert Step(cfg, seen, events[0])[key] == seen[key];
      }
    }
  }

  /** Sweeps leave a table that agrees with the unswept one. */
  lemma {:induction false} RunAgrees(cfg: Config, swept: Seen, full: Seen, events: seq<Event>, at: int, later: int)
    requires Nondecreasing(events, at) && Agrees(cfg, swept, full, at) && at <= later
    requires Until(events, later)
    ensures Agrees(cfg, Run(cfg, swept, events), Run(cfg, full, WithoutSweeps(events)), later)
    decreases |events|
  {
    if events == [] {
      AgreesLater(cfg, swept, full, at, later);
    } else {
      var e, rest := events[0], events[1..];
      AgreesLater(cfg, swept, full, at, e.now);
      NondecreasingTail(events, at);
      UntilTail(events, later);
      WithoutSweepsCons(events);
      match e
      case Request(key, now) =>
        AgreesOnRequest(cfg, swept, full, key, now);
        RunAgrees(cfg, Counted(cfg, swept, key, now), Counted(cfg, full, key, now), rest, now, later);
      case Sweep(now) =>
        AgreesOnSweep(cfg, swept, full, now);
        RunAgrees(cfg, Swept(swept, now - cfg.window), full, rest, now, later);
    }
  }

  lemma {:induction false} AsksWithoutSweeps(events: seq<Event>, key: string)
    ensures Asks(WithoutSweeps(events), key) == Asks(events, key)
  {
    if events != [] {
      AsksWithoutSweeps(events[1..], key);
      WithoutSweepsCons(events);
    }
  }

  /** With windows of no length every request is admitted, once the clock has reached the last one. */
  lemma {:induction false} NoWindowNoRefusal(cfg: Config, seen: Seen, events: seq<Event>, key: string, at: int, later: int)
    requires cfg.window <= 0 && RequestsOnly(events) && Nondecreasing(events, at)
    requires key in seen && later >= seen[key].start + cfg.window
    requires Until(events, later)
    ensures Opens(cfg, Run(cfg, seen, events), key, later)
    ensures later >= LastOpening(cfg.window, seen[key].start, Asks(events, key)) + cfg.window
    decreases |events|
  {
    if events != [] {
      NondecreasingTail(events, at);
      AsksCons(events, key);
      UntilTail(events, later);
      NoWindowNoRefusal(cfg, Step(cfg, seen, events[0]), events[1..], key, events[0].now, later);
    }
  }

  /**
   * What the advertised wait is worth: a refused key that comes back when told, after any requests and sweeps
   * meanwhile, is admitted if and only if none of its own retries fell past the window it was refused in, or the
   * last window those retries opened has rolled, or fewer than the quota of them fell in that window.
   */
  lemma RetryAdmittedIff(cfg: Config, seen: Seen, key: string, now: int, events: seq<Event>, later: int)
    requires !Decide(cfg, seen, key, now).allowed
    requires later >= now + Decide(cfg, seen, key, now).retryAfter * NANOS_PER_SECOND
    requires Nondecreasing(events, now) && Until(events, later)
    ensures var times := Asks(events, key);
            var last := LastOpening(cfg.window, seen[key].start, times);
            Decide(cfg, Run(cfg, Counted(cfg, seen, key, now), events), key, later).allowed
            <==> AllInside(cfg.window, seen[key].start, times) || later >= last + cfg.window || Since(times, last) < Quota(cfg)
  {
    var start := Counted(cfg, seen, key, now);
    var calm := WithoutSweeps(events);
    WithoutSweepsKeeps(events, now);
    CalmUntil(events, later);
    AsksWithoutSweeps(events, key);
    CalmAdmittedIff(cfg, seen, key, now, calm, later);
    WaitsOutWindow(cfg, seen, key, now);
    RunAgrees(cfg, start, start, events, now, later);
    AgreesOnRequest(cfg, Run(cfg, start, events), Run(cfg, start, calm), key, later);
  }

  lemma CalmAdmittedIff(cfg: Config, seen: Seen, key: string, now: int, calm: seq<Event>, later: int)
    requires !Decide(cfg, seen, key, now).allowed
    requires later >= now + Decide(cfg, seen, key, now).retryAfter * NANOS_PER_SECOND
    requires RequestsOnly(calm) && Nondecreasing(calm, now) && Until(calm, later)
    ensures var times := Asks(calm, key);
            var last := LastOpening(cfg.window, seen[key].start, times);
            Decide(cfg, Run(cfg, Counted(cfg, seen, key, now), calm), key, later).allowed
            <==> AllInside(cfg.window, seen[key].start, times) || later >= last + cfg.window || Since(times, last) < Quota(cfg)
  {
    var start := Counted(cfg, seen, key, now);
    WaitsOutWindow(cfg, seen, key, now);
    assert start[key] == Counter(seen[key].hits + 1, seen[key].start);
    if cfg.window > 0 {
      WindowStands(cfg, start, calm, key, now);
      StandingVerdict(cfg, start[key], Asks(calm, key), Run(cfg, start, calm), key, later);
    } else {
      NoWindowNoRefusal(cfg, start, calm, key, now, later);
    }
  }

  lemma StandingVerdict(cfg: Config, was: Counter, times: seq<int>, seen: Seen, key: string, later: int)
    requires cfg.window > 0 && key in seen && Stands(cfg, was, times, seen[key]) && later >= was.start + cfg.window
    ensures var last := LastOpening(cfg.window, was.start, times);
            Decide(cfg, seen, key, later).allowed
            <==> AllInside(cfg.window, was.start, times) || later >= last + cfg.window || Since(times, last) < Quota(cfg)
  {
    OpensPast(cfg.window, was.start, times);
    if !AllInside(cfg.window, was.start, times) {
      LastIsCounted(cfg.window, was.start, times);
    }
  }

  /** An opening is one of the requests its own window counts. */
  lemma {:induction false} LastIsCounted(window: int, start: int, times: seq<int>)
    requires window > 0 && !AllInside(window, start, times)
    ensures Since(times, LastOpening(window, start, times)) >= 1
    decreases |times|
  {
    var next := if times[0] >= start + window then times[0] else start;
    if next == start {
      InsideTail(window, start, times);
      LastIsCounted(window, next, times[1..]);
    } else if AllInside(window, next, times[1..]) {
      OpensPast(window, next, times[1..]);
    } else {
      LastIsCounted(window, next, times[1..]);
    }
  }

  lemma InsideTail(window: int, start: int, times: seq<int>)
    requires times != [] && times[0] < start + window
    ensures AllInside(window, start, times) <==> AllInside(window, start, times[1..])
  {
    assert forall i :: 0 < i < |times| ==> times[i] == times[1..][i - 1];
  }

  /** The seconds advertised outlast the window. */
  lemma WaitsOutWindow(cfg: Config, seen: Seen, key: string, now: int)
    requires !Decide(cfg, seen, key, now).allowed
    ensures now + Decide(cfg, seen, key, now).retryAfter * NANOS_PER_SECOND > seen[key].start + cfg.window > now
  {
  }

  lemma {:induction false} CalmUntil(events: seq<Event>, later: int)
    requires Until(events, later)
    ensures Until(WithoutSweeps(events), later)
  {
    if events != [] {
      UntilTail(events, later);
      CalmUntil(events[1..], later);
      WithoutSweepsCons(events);
    }
  }

  /**
   * The wait is not enough for a key that does not keep quiet: one request per second allowed, refused and told two
   * seconds, it retries after one and a half, and is refused again at the second it was told.
   */
  lemma EarlyRetryRefused(cfg: Config, seen: Seen, retry: Event)
    requires cfg == Config(1, NANOS_PER_SECOND) && seen == map["k" := Counter(1, 0)]
    requires retry == Request("k", 3 * NANOS_PER_SECOND / 2)
    ensures Decide(cfg, seen, "k", 0) == Decision(2, false)
    ensures !Decide(cfg, Run(cfg, Counted(cfg, seen, "k", 0), [retry]), "k", 2 * NANOS_PER_SECOND).allowed
  {
    var start := Counted(cfg, seen, "k", 0);
    assert Run(cfg, start, [retry]) == Run(cfg, Step(cfg, start, retry), []);
    assert Step(cfg, start, retry)["k"] == Counter(1, 3 * NANOS_PER_SECOND / 2);
  }

  /** And no more than a second too long: anyone back a full second before the advertised time is refused again. */
  lemma RetryIsTight(cfg: Config, seen: Seen, key: string, now: int, later: int)
    requires !Decide(cfg, seen, key, now).allowed
    requires later < now + (Decide(cfg, seen, key, now).retryAfter - 1) * NANOS_PER_SECOND
    ensures !Decide(cfg, Counted(cfg, seen, key, now), key, later).allowed
  {
    var left := cfg.window - (now - seen[key].start);
    assert left / NANOS_PER_SECOND * NANOS_PER_SECOND <= left;
  }
}
