/**
 * The tick clock: an accumulator that turns frame time into ticks, and a two-level controller that steers
 * how far the client's tick leads the server's. Arithmetic is over exact reals.
 */
module Clocks {
  import opened Wrappers
  import opened Shared

  const HEADROOM_TARGET := 2.0
  const LEAD_MIN_TICKS := 1.0
  const LEAD_MAX_SECONDS := 0.25
  const GAIN := 0.25
  const NUDGE_MAX := 0.02

  function Abs(x: real): real {
    if x < 0.0 then -x else x
  }

  /** `clamp` takes its two bounds in either order. */
  function Clamp(value: real, min: real, max: real): real {
    var lo := if min <= max then min else max;
    var hi := if min <= max then max else min;
    if value < lo then lo else if value > hi then hi else value
  }

  /** The legal lead range; None stands for a duration that is not finite. */
  function ClampLead(seconds: Option<real>, simRate: real): real
    requires simRate > 0.0
  {
    var min := LEAD_MIN_TICKS / simRate;
    if seconds.None? then min else Clamp(seconds.value, min, LEAD_MAX_SECONDS)
  }

  predicate LegalLead(lead: real, simRate: real)
    requires simRate > 0.0
  {
    var min := LEAD_MIN_TICKS / simRate;
    if min <= LEAD_MAX_SECONDS then min <= lead <= LEAD_MAX_SECONDS else LEAD_MAX_SECONDS <= lead <= min
  }

  // ---------------------------------------------------------------------------------------------
  // The state and its two steps

  datatype Clock = Clock(simRate: real, localTick: int, accumulator: real, lastNow: Option<real>,
                         targetLead: real, currentLead: real)

  function Nominal(c: Clock): real
    requires c.simRate > 0.0
  {
    1.0 / c.simRate
  }

  function LeadError(c: Clock): real {
    c.targetLead - c.currentLead
  }

  function NudgeScale(c: Clock): real
    requires c.simRate > 0.0
  {
    if Abs(LeadError(c)) <= 0.5 * Nominal(c) then 1.0
    else if LeadError(c) > 0.0 then 1.0 - NUDGE_MAX else 1.0 + NUDGE_MAX
  }

  /** How long one tick takes this frame. */
  function StepSeconds(c: Clock): real
    requires c.simRate > 0.0
  {
    if Abs(LeadError(c)) <= 0.5 * Nominal(c) then Nominal(c)
    else if LeadError(c) > 0.0 then (1.0 - NUDGE_MAX) * Nominal(c) else (1.0 + NUDGE_MAX) * Nominal(c)
  }

  lemma StepIsNudged(c: Clock)
    requires c.simRate > 0.0
    ensures StepSeconds(c) == Nominal(c) * NudgeScale(c)
  {
  }

  /** The clamped time a frame contributes; a frame stamped with no finite time contributes none. */
  function FrameTime(c: Clock, now: Option<real>): real {
    if now.None? || c.lastNow.None? then 0.0 else Clamp(now.value - c.lastNow.value, 0.0, MAX_FRAME_DT)
  }

  /** `n` steps, added one at a time as the loop does. */
  ghost function Times(n: nat, x: real): real {
    if n == 0 then 0.0 else Times(n - 1, x) + x
  }

  /** What every reachable clock satisfies: less than one longest tick is left over. */
  ghost predicate Ok(c: Clock) {
    && c.simRate > 0.0
    && LegalLead(c.targetLead, c.simRate)
    && 0.0 <= c.accumulator < (1.0 + NUDGE_MAX) * Nominal(c)
  }

  /** `advance` issued exactly the `ticks` whole steps the accumulated time holds. */
  ghost predicate Advanced(c: Clock, now: Option<real>, ticks: nat, c': Clock)
    requires c.simRate > 0.0
  {
    if now.None? then ticks == 0 && c' == c
    else
      && c' == c.(lastNow := now, localTick := c.localTick + ticks,
                  accumulator := c.accumulator + FrameTime(c, now) - Times(ticks, StepSeconds(c)),
                  currentLead := c.currentLead + Times(ticks, Nominal(c) - StepSeconds(c)))
      && 0.0 <= c'.accumulator < StepSeconds(c)
  }

  /** Where one headroom sample, in ticks, steers a target lead: the undelivered part counts as headroom already. */
  function Steered(targetLead: real, simRate: real, headroom: real, leadAtSend: real): real
    requires simRate > 0.0
  {
    var undelivered := targetLead * simRate - leadAtSend;
    var effectiveHeadroom := headroom + undelivered;
    var error := HEADROOM_TARGET - effectiveHeadroom;
    ClampLead(Some(targetLead + (GAIN * error) / simRate), simRate)
  }

  /** One sample moves the target and nothing else. */
  function Sampled(c: Clock, headroom: real, leadAtSend: real): Clock
    requires c.simRate > 0.0
  {
    c.(targetLead := Steered(c.targetLead, c.simRate, headroom, leadAtSend))
  }

  // ---------------------------------------------------------------------------------------------
  // The same in plain arithmetic

  /** `r` is `v` held between `a` and `b`, whichever of them is the lower. */
  ghost predicate Nearest(r: real, v: real, a: real, b: real) {
    && (a <= b ==> (v < a ==> r == a) && (a <= v <= b ==> r == v) && (v > b ==> r == b))
    && (b < a ==> (v < b ==> r == b) && (b <= v <= a ==> r == v) && (v > a ==> r == a))
  }

  /**
   * One frame: time that ran back counts for nothing and a long frame for a tenth of a second; ticks take their
   * nominal length within half a tick of the target, two per cent less below it and more above, and as many go as
   * the time pays for, the lead moving by what each did not take.
   */
  ghost predicate Ticked(c: Clock, now: Option<real>, ticks: nat, c': Clock)
    requires c.simRate > 0.0
  {
    if now.None? then ticks == 0 && c' == c
    else
      var gap := if c.lastNow.None? then 0.0 else now.value - c.lastNow.value;
      var dt := if gap <= 0.0 then 0.0 else if gap >= 0.1 then 0.1 else gap;
      var nominal, error := 1.0 / c.simRate, c.targetLead - c.currentLead;
      var step := if -0.5 * nominal <= error <= 0.5 * nominal then nominal else if error > 0.0 then 0.98 * nominal else 1.02 * nominal;
      && c'.simRate == c.simRate && c'.targetLead == c.targetLead && c'.lastNow == now && c'.localTick == c.localTick + ticks
      && c'.accumulator == c.accumulator + dt - ticks as real * step && 0.0 <= c'.accumulator < step
      && c'.currentLead == c.currentLead + ticks as real * (nominal - step)
  }

  lemma AdvancedIsTicked(c: Clock, now: Option<real>, ticks: nat, c': Clock)
    requires c.simRate > 0.0 && Advanced(c, now, ticks, c')
    ensures Ticked(c, now, ticks, c')
  {
    NominalPositive(c.simRate);
    TimesIsProduct(ticks, StepSeconds(c));
    TimesIsProduct(ticks, Nominal(c) - StepSeconds(c));
  }

  /** A quarter of what is missing to two ticks of headroom, undelivered lead counted in, between one tick and a quarter second. */
  ghost predicate Steers(c: Clock, headroom: real, leadAtSend: real, target: real)
    requires c.simRate > 0.0
  {
    var missing := 2.0 - (headroom + (c.targetLead * c.simRate - leadAtSend));
    Nearest(target, c.targetLead + 0.25 * missing / c.simRate, 1.0 / c.simRate, 0.25)
  }

  // ---------------------------------------------------------------------------------------------
  // Whole steps

  lemma NominalPositive(simRate: real)
    requires simRate > 0.0
    ensures 1.0 / simRate > 0.0 && (1.0 / simRate) * simRate == 1.0
  {
  }

  lemma {:induction false} TimesIsProduct(n: nat, x: real)
    ensures Times(n, x) == n as real * x
  {
    if n > 0 {
      TimesIsProduct(n - 1, x);
    }
  }

  lemma {:induction false} TimesMonotone(m: nat, n: nat, x: real)
    requires m <= n && x > 0.0
    ensures Times(m, x) <= Times(n, x)
  {
    if m < n {
      TimesMonotone(m, n - 1, x);
    }
  }

  lemma MulLess(a: real, b: real, x: real)
    requires a < b && x > 0.0
    ensures a * x < b * x
  {
    assert (b - a) * x > 0.0;
    assert (b - a) * x == b * x - a * x;
  }

  /** More steps than the total holds: what bounds the loop. */
  lemma EnoughSteps(total: real, step: real) returns (k: nat)
    requires total >= 0.0 && step > 0.0
    ensures Times(k, step) > total
  {
    var q := total / step;
    k := q.Floor + 1;
    TimesIsProduct(k, step);
    MulLess(q, k as real, step);
  }

  lemma AdvancedOk(c: Clock, now: Option<real>, ticks: nat, c': Clock)
    requires Ok(c) && Advanced(c, now, ticks, c')
    ensures Ok(c')
  {
    NominalPositive(c.simRate);
  }

  /** A clock as it is made: both leads at the clamped seed, and the least tick that leads the snapshot by it. */
  function Started(simRate: real, snapshotTick: int, rttSeconds: Option<real>): Clock
    requires simRate > 0.0
  {
    var seed := ClampLead(rttSeconds, simRate);
    Clock(simRate, snapshotTick - (-(seed * simRate)).Floor, 0.0, None, seed, seed)
  }

  // ---------------------------------------------------------------------------------------------
  // The clock object

  class ClientClock {
    const simRate: real
    var localTick: int
    var accumulator: real
    var lastNow: Option<real>
    var targetLead: real
    var currentLead: real
    var epoch: nat

    function View(): Clock
      reads this
    {
      Clock(simRate, localTick, accumulator, lastNow, targetLead, currentLead)
    }

    constructor (simRate: real, snapshotTick: int, rttSeconds: Option<real>)
      requires simRate > 0.0
      ensures Ok(View()) && View() == Started(simRate, snapshotTick, rttSeconds)
      ensures currentLead == targetLead == ClampLead(rttSeconds, simRate)
      ensures snapshotTick as real + currentLead * simRate <= localTick as real < snapshotTick as real + currentLead * simRate + 1.0
      ensures if rttSeconds.None? then currentLead == 1.0 / simRate else Nearest(currentLead, rttSeconds.value, 1.0 / simRate, 0.25)
      ensures accumulator == 0.0 && lastNow == None && epoch == 0
    {
      var seed := ClampLead(rttSeconds, simRate);
      this.simRate, targetLead, currentLead := simRate, seed, seed;
      localTick := snapshotTick - (-(seed * simRate)).Floor;
      accumulator, lastNow, epoch := 0.0, None, 0;
      NominalPositive(simRate);
    }

    /** One frame: `out` lists the ticks to stamp, contiguous from the last one issued. */
    method Advance(now: Option<real>) returns (out: seq<int>)
      requires Ok(View())
      modifies this`localTick, this`accumulator, this`lastNow, this`currentLead
      ensures Ok(View()) && Advanced(old(View()), now, |out|, View())
      ensures Ticked(old(View()), now, |out|, View())
      ensures forall i :: 0 <= i < |out| ==> out[i] == old(localTick) + 1 + i
    {
      if now.None? {
        AdvancedIsTicked(View(), now, 0, View());
        return [];
      }
      var dt := FrameTime(View(), now);
      var nominal, step := NudgedStep();
      lastNow := now;
      accumulator := accumulator + dt;
      out := Spend(nominal, step);
      AdvancedOk(old(View()), now, |out|, View());
      AdvancedIsTicked(old(View()), now, |out|, View());
    }

    /** Over any frames the stamps run on from the first tick without a gap or a repeat. */
    method Frames(nows: seq<Option<real>>) returns (stamped: seq<int>)
      requires Ok(View())
      modifies this`localTick, this`accumulator, this`lastNow, this`currentLead
      ensures Ok(View()) && localTick == old(localTick) + |stamped|
      ensures forall i :: 0 <= i < |stamped| ==> stamped[i] == old(localTick) + 1 + i
    {
      stamped := [];
      for f := 0 to |nows|
        invariant Ok(View()) && localTick == old(localTick) + |stamped|
        invariant forall i :: 0 <= i < |stamped| ==> stamped[i] == old(localTick) + 1 + i
      {
        var out := Advance(nows[f]);
        stamped := stamped + out;
      }
    }

    method NudgedStep() returns (nominal: real, step: real)
      requires simRate > 0.0
      ensures nominal == Nominal(View()) && step == StepSeconds(View()) && step > 0.0
    {
      NominalPositive(simRate);
      StepIsNudged(View());
      nominal := 1.0 / simRate;
      step := nominal * NudgeScale(View());
    }

    /** The tick loop, at the frame's one step length. */
    method Spend(nominal: real, step: real) returns (out: seq<int>)
      requires step > 0.0 && accumulator >= 0.0
      modifies this`localTick, this`accumulator, this`currentLead
      ensures localTick == old(localTick) + |out|
      ensures accumulator == old(accumulator) - Times(|out|, step) && 0.0 <= accumulator < step
      ensures currentLead == old(currentLead) + Times(|out|, nominal - step)
      ensures forall i :: 0 <= i < |out| ==> out[i] == old(localTick) + 1 + i
    {
      out := [];
      ghost var k := EnoughSteps(accumulator, step);
      while accumulator >= step
        invariant |out| <= k && 0.0 <= accumulator
        invariant localTick == old(localTick) + |out|
        invariant accumulator == old(accumulator) - Times(|out|, step)
        invariant currentLead == old(currentLead) + Times(|out|, nominal - step)
        invariant forall i :: 0 <= i < |out| ==> out[i] == old(localTick) + 1 + i
        decreases k - |out|
      {
        if |out| == k {
          assert false;
        }
        accumulator := accumulator - step;
        localTick := localTick + 1;
        out := out + [localTick];
        currentLead := currentLead + (nominal - step);
      }
    }

    method Sample(headroom: real, leadAtSend: real)
      requires Ok(View())
      modifies this`targetLead
      ensures Ok(View()) && View() == Sampled(old(View()), headroom, leadAtSend)
      ensures Steers(old(View()), headroom, leadAtSend, targetLead)
    {
      SampleKeeps(View(), headroom, leadAtSend);
      targetLead := Steered(targetLead, simRate, headroom, leadAtSend);
    }

    method BumpEpoch()
      modifies this`epoch
      ensures epoch == old(epoch) + 1
    {
      epoch := epoch + 1;
    }
  }

  // ---------------------------------------------------------------------------------------------
  // Runs

  datatype Event = FrameAt(now: Option<real>) | Headroom(headroom: real, leadAtSend: real)

  ghost predicate Follows(c: Clock, e: Event, c': Clock)
    requires c.simRate > 0.0
  {
    match e
    case FrameAt(now) => c.localTick <= c'.localTick && Advanced(c, now, c'.localTick - c.localTick, c')
    case Headroom(headroom, leadAtSend) => c' == Sampled(c, headroom, leadAtSend)
  }

  /** Any interleaving of frames and headroom samples. */
  ghost predicate Trace(states: seq<Clock>, events: seq<Event>) {
    && |states| == |events| + 1
    && (forall i :: 0 <= i < |states| ==> Ok(states[i]) && states[i].simRate == states[0].simRate)
    && (forall i :: 0 <= i < |events| ==> Follows(states[i], events[i], states[i + 1]))
  }

  /** The clamped frame time a run was given. */
  ghost function TimeGiven(states: seq<Clock>, events: seq<Event>): real
    requires |states| == |events| + 1
  {
    if events == [] then 0.0
    else
      var n := |events| - 1;
      TimeGiven(states[..n + 1], events[..n]) + if events[n].FrameAt? then FrameTime(states[n], events[n].now) else 0.0
  }

  lemma TraceInit(states: seq<Clock>, events: seq<Event>)
    requires Trace(states, events) && events != []
    ensures Trace(states[..|events|], events[..|events| - 1])
  {
  }

  lemma {:induction false} TimesSplit(n: nat, a: real, b: real)
    ensures Times(n, a - b) == Times(n, a) - Times(n, b)
  {
    if n > 0 {
      TimesSplit(n - 1, a, b);
    }
  }

  /** One step's ledger: the lead gains what the ticks were worth less the time they were paid with. */
  lemma StepLedger(c: Clock, e: Event, c': Clock)
    requires Ok(c) && Follows(c, e, c')
    ensures c'.localTick >= c.localTick
    ensures c'.currentLead - c.currentLead
            == Times(c'.localTick - c.localTick, Nominal(c))
               - ((if e.FrameAt? then FrameTime(c, e.now) else 0.0) - (c'.accumulator - c.accumulator))
  {
    if e.FrameAt? {
      TimesSplit(c'.localTick - c.localTick, Nominal(c), StepSeconds(c));
    }
  }

  lemma {:induction false} TimesAdd(m: nat, n: nat, x: real)
    ensures Times(m + n, x) == Times(m, x) + Times(n, x)
  {
    if n > 0 {
      TimesAdd(m, n - 1, x);
    }
  }

  /**
   * Conservation: over any run, however the nudge bent it, the lead moved by the ticks issued at their nominal
   * length less the frame time actually spent on them.
   */
  lemma {:induction false} LeadIsConserved(states: seq<Clock>, events: seq<Event>)
    requires Trace(states, events)
    ensures var first, last := states[0], states[|events|];
            && last.localTick >= first.localTick
            && last.currentLead - first.currentLead
               == Times(last.localTick - first.localTick, Nominal(first))
                  - (TimeGiven(states, events) - (last.accumulator - first.accumulator))
  {
    if events != [] {
      var n := |events| - 1;
      TraceInit(states, events);
      LeadIsConserved(states[..n + 1], events[..n]);
      StepLedger(states[n], events[n], states[n + 1]);
      TimesAdd(states[n].localTick - states[0].localTick, states[n + 1].localTick - states[n].localTick, Nominal(states[0]));
    }
  }

  // ---------------------------------------------------------------------------------------------
  // Convergence of the lead

  /** The highest rate at which one frame cannot carry the lead across the band. */
  const OVERSHOOT_RATE := 489.6

  predicate InBand(c: Clock)
    requires c.simRate > 0.0
  {
    Abs(LeadError(c)) <= 0.5 * Nominal(c)
  }

  lemma SlowEnough(simRate: real)
    requires simRate > 0.0
    ensures simRate <= OVERSHOOT_RATE <==> 0.1 <= 48.96 * (1.0 / simRate)
  {
    NominalPositive(simRate);
    var n := 1.0 / simRate;
    if simRate < OVERSHOOT_RATE {
      MulLess(simRate, OVERSHOOT_RATE, n);
    } else if simRate > OVERSHOOT_RATE {
      MulLess(OVERSHOOT_RATE, simRate, n);
    }
    assert simRate * n == 1.0 && 48.96 * n == 0.1 * (OVERSHOOT_RATE * n);
  }

  /** Below the overshoot rate a frame issues at most fifty nudged ticks, worth one band width. */
  lemma AtMostFifty(ticks: nat, n: real, step: real, time: real)
    requires n > 0.0 && 0.1 <= 48.96 * n
    requires step == 0.98 * n || step == 1.02 * n
    requires time < 1.02 * n + 0.1 && Times(ticks, step) <= time
    ensures Times(ticks, 0.02 * n) <= n
  {
    TimesIsProduct(ticks, step);
    TimesIsProduct(ticks, 0.02 * n);
    if ticks >= 51 {
      TimesMonotone(51, ticks, step);
      TimesIsProduct(51, step);
      assert false;
    }
    TimesMonotone(ticks, 50, 0.02 * n);
    TimesIsProduct(50, 0.02 * n);
  }

  lemma FrameTimeBounded(c: Clock, now: Option<real>)
    ensures 0.0 <= FrameTime(c, now) <= MAX_FRAME_DT
  {
  }

  lemma {:induction false} TimesNegate(n: nat, x: real)
    ensures Times(n, -x) == -Times(n, x)
  {
    if n > 0 {
      TimesNegate(n - 1, x);
    }
  }

  lemma {:induction false} TimesZero(n: nat)
    ensures Times(n, 0.0) == 0.0
  {
    if n > 0 {
      TimesZero(n - 1);
    }
  }

  /** With the target fixed, a frame moves the error by what its nudged ticks were worth. */
  lemma ErrorMoves(c: Clock, now: Option<real>, ticks: nat, c': Clock)
    requires c.simRate > 0.0 && Advanced(c, now, ticks, c')
    ensures var worth := Times(ticks, 0.02 * Nominal(c));
            LeadError(c') == if InBand(c) then LeadError(c)
                             else if LeadError(c) > 0.0 then LeadError(c) - worth else LeadError(c) + worth
  {
    if now.None? {
      assert ticks == 0;
    } else if InBand(c) {
      TimesZero(ticks);
    } else if LeadError(c) > 0.0 {
      assert Nominal(c) - StepSeconds(c) == 0.02 * Nominal(c);
    } else {
      TimesNegate(ticks, 0.02 * Nominal(c));
      assert Nominal(c) - StepSeconds(c) == -(0.02 * Nominal(c));
    }
  }

  lemma {:induction false} TimesNonNegative(n: nat, x: real)
    requires x >= 0.0
    ensures Times(n, x) >= 0.0
  {
    if n > 0 {
      TimesNonNegative(n - 1, x);
    }
  }

  /** The nudged ticks of one frame are worth at most one band width. */
  lemma WorthBounded(c: Clock, now: Option<real>, ticks: nat, c': Clock)
    requires Ok(c) && Advanced(c, now, ticks, c') && c.simRate <= OVERSHOOT_RATE && !InBand(c)
    ensures 0.0 <= Times(ticks, 0.02 * Nominal(c)) <= Nominal(c)
  {
    NominalPositive(c.simRate);
    TimesNonNegative(ticks, 0.02 * Nominal(c));
    if now.Some? {
      FrameTimeBounded(c, now);
      SlowEnough(c.simRate);
      AtMostFifty(ticks, Nominal(c), StepSeconds(c), c.accumulator + FrameTime(c, now));
    }
  }

  /**
   * With the target fixed, no frame increases the error, a frame inside the band leaves it alone, and a frame
   * outside shrinks it by exactly what its nudged ticks were worth without passing the band's far edge.
   */
  lemma FrameNeverOvershoots(c: Clock, now: Option<real>, ticks: nat, c': Clock)
    requires Ok(c) && Advanced(c, now, ticks, c') && c.simRate <= OVERSHOOT_RATE
    ensures Abs(LeadError(c')) <= Abs(LeadError(c))
    ensures InBand(c) ==> LeadError(c') == LeadError(c)
    ensures !InBand(c) ==> InBand(c') || Abs(LeadError(c')) == Abs(LeadError(c)) - Times(ticks, 0.02 * Nominal(c))
    ensures !InBand(c) && LeadError(c) > 0.0 ==> LeadError(c') >= -0.5 * Nominal(c)
    ensures !InBand(c) && LeadError(c) < 0.0 ==> LeadError(c') <= 0.5 * Nominal(c)
  {
    NominalPositive(c.simRate);
    ErrorMoves(c, now, ticks, c');
    if !InBand(c) {
      WorthBounded(c, now, ticks, c');
    }
  }

  /** The error just outside the band, a full frame, and all that could be banked before it. */
  lemma CrossesBand(c: Clock, acc: real) returns (ticks: nat, c': Clock)
    requires c.simRate > OVERSHOOT_RATE && Ok(c) && c.lastNow == Some(acc) && c.accumulator == acc
    requires acc == if 49.98 * Nominal(c) - 0.1 > 0.0 then 49.98 * Nominal(c) - 0.1 else 0.0
    requires LeadError(c) == 0.51 * Nominal(c)
    ensures Advanced(c, Some(acc + 0.1), ticks, c') && c'.localTick == c.localTick + ticks
    ensures LeadError(c') < -0.5 * Nominal(c)
  {
    var n := Nominal(c);
    NominalPositive(c.simRate);
    var now, total := Some(acc + 0.1), acc + 0.1;
    assert StepSeconds(c) == 0.98 * n;
    ticks := StepsWithin(total, 0.98 * n);
    c' := c.(lastNow := now, localTick := c.localTick + ticks, accumulator := total - Times(ticks, 0.98 * n),
             currentLead := c.currentLead + Times(ticks, n - 0.98 * n));
    assert Advanced(c, now, ticks, c');
    AtLeastFiftyOne(ticks, n, total);
    TimesMonotone(51, ticks, 0.02 * n);
    TimesIsProduct(51, 0.02 * n);
    ErrorMoves(c, now, ticks, c');
  }

  lemma AtLeastFiftyOne(ticks: nat, n: real, total: real)
    requires n > 0.0 && total >= 49.98 * n && total < Times(ticks + 1, 0.98 * n)
    ensures ticks >= 51
  {
    if ticks < 51 {
      TimesMonotone(ticks + 1, 51, 0.98 * n);
      TimesIsProduct(51, 0.98 * n);
    }
  }

  /** One sample can take the target to either end of its range. */
  lemma SampleToEnds(targetLead: real, simRate: real)
    requires simRate > 4.0 && LegalLead(targetLead, simRate)
    ensures Steered(targetLead, simRate, HEADROOM_TARGET + simRate, targetLead * simRate) == 1.0 / simRate
    ensures Steered(targetLead, simRate, HEADROOM_TARGET - simRate, targetLead * simRate) == LEAD_MAX_SECONDS
  {
    assert (GAIN * simRate) / simRate == 0.25 && (GAIN * -simRate) / simRate == -0.25;
    assert 1.0 / simRate < 0.25;
  }

  lemma FastNominal(simRate: real)
    requires simRate > OVERSHOOT_RATE
    ensures 0.0 < 1.0 / simRate < 0.0025 && 48.96 * (1.0 / simRate) < 0.1 && (1.0 / simRate) * simRate == 1.0
  {
    NominalPositive(simRate);
    SlowEnough(simRate);
  }

  /** A clock just made, at its first frame: nothing has passed. */
  lemma FirstFrame(simRate: real, snapshotTick: int, n: real, rtt: real, c0: Clock, c1: Clock)
    requires simRate > OVERSHOOT_RATE && n == 1.0 / simRate && rtt == LEAD_MAX_SECONDS - 0.51 * n
    requires c0 == Started(simRate, snapshotTick, Some(rtt)) && c1 == c0.(lastNow := Some(0.0))
    ensures c0.targetLead == c0.currentLead == rtt && Ok(c0) && Ok(c1) && Follows(c0, FrameAt(Some(0.0)), c1)
  {
    FastNominal(simRate);
    assert Advanced(c0, Some(0.0), 0, c1);
  }

  lemma SamplesDown(c: Clock) returns (e: Event, c': Clock)
    requires Ok(c) && c.simRate > OVERSHOOT_RATE
    ensures c' == c.(targetLead := Nominal(c)) && Follows(c, e, c') && Ok(c')
  {
    c' := c.(targetLead := Nominal(c));
    e := Headroom(HEADROOM_TARGET + c.simRate, c.targetLead * c.simRate);
    FastNominal(c.simRate);
    SampleToEnds(c.targetLead, c.simRate);
  }

  lemma SamplesUp(c: Clock) returns (e: Event, c': Clock)
    requires Ok(c) && c.simRate > OVERSHOOT_RATE
    ensures c' == c.(targetLead := LEAD_MAX_SECONDS) && Follows(c, e, c') && Ok(c')
  {
    c' := c.(targetLead := LEAD_MAX_SECONDS);
    e := Headroom(HEADROOM_TARGET - c.simRate, c.targetLead * c.simRate);
    FastNominal(c.simRate);
    SampleToEnds(c.targetLead, c.simRate);
  }

  /** Above the band a tick is long, and a frame shorter than it issues none. */
  lemma BanksTime(c: Clock, acc: real, c': Clock)
    requires c.simRate > OVERSHOOT_RATE && Ok(c) && c.lastNow == Some(0.0) && c.accumulator == 0.0
    requires 0.0 <= acc < 1.02 * Nominal(c) && LeadError(c) < -0.5 * Nominal(c)
    requires c' == c.(lastNow := Some(acc), accumulator := acc)
    ensures Follows(c, FrameAt(Some(acc)), c') && Ok(c')
  {
    FastNominal(c.simRate);
    assert Advanced(c, Some(acc), 0, c');
  }

  /**
   * The rate is exact: above it a clock just made, given three frames and two samples, is carried clean across the
   * band by the last frame.
   */
  lemma OvershootsAbove(simRate: real, snapshotTick: int) returns (rtt: real, states: seq<Clock>, events: seq<Event>)
    requires simRate > OVERSHOOT_RATE
    ensures states != [] && states[0] == Started(simRate, snapshotTick, Some(rtt)) && Trace(states, events)
    ensures |events| == 5 && events[4].FrameAt?
    ensures !InBand(states[4]) && LeadError(states[4]) > 0.0 && LeadError(states[5]) < -0.5 * Nominal(states[4])
  {
    var n := 1.0 / simRate;
    FastNominal(simRate);
    rtt := LEAD_MAX_SECONDS - 0.51 * n;
    var acc := if 49.98 * n - 0.1 > 0.0 then 49.98 * n - 0.1 else 0.0;
    var c0 := Started(simRate, snapshotTick, Some(rtt));
    var c1 := c0.(lastNow := Some(0.0));
    FirstFrame(simRate, snapshotTick, n, rtt, c0, c1);
    var down, c2 := SamplesDown(c1);
    var c3 := c2.(lastNow := Some(acc), accumulator := acc);
    BanksTime(c2, acc, c3);
    var up, c4 := SamplesUp(c3);
    var ticks, c5 := CrossesBand(c4, acc);
    AdvancedOk(c4, Some(acc + 0.1), ticks, c5);
    states, events := TraceOfFive(c0, FrameAt(Some(0.0)), c1, down, c2, FrameAt(Some(acc)), c3, up, c4, FrameAt(Some(acc + 0.1)), c5);
  }

  lemma TraceOfFive(c0: Clock, e0: Event, c1: Clock, e1: Event, c2: Clock, e2: Event, c3: Clock, e3: Event, c4: Clock, e4: Event, c5: Clock)
    returns (states: seq<Clock>, events: seq<Event>)
    requires Ok(c0) && Ok(c1) && Ok(c2) && Ok(c3) && Ok(c4) && Ok(c5)
    requires c0.simRate == c1.simRate == c2.simRate == c3.simRate == c4.simRate == c5.simRate
    requires Follows(c0, e0, c1) && Follows(c1, e1, c2) && Follows(c2, e2, c3) && Follows(c3, e3, c4) && Follows(c4, e4, c5)
    ensures Trace(states, events) && |events| == 5
    ensures states[0] == c0 && states[4] == c4 && events[4] == e4 && states[5] == c5
  {
    states, events := [c0, c1, c2, c3, c4, c5], [e0, e1, e2, e3, e4];
    forall i | 0 <= i < |events| ensures Follows(states[i], events[i], states[i + 1]) {
      assert i == 0 || i == 1 || i == 2 || i == 3 || i == 4;
    }
  }

  lemma {:induction false} CountSteps(total: real, step: real, k: nat) returns (n: nat)
    requires total >= 0.0 && step > 0.0 && Times(k, step) > total
    ensures Times(n, step) <= total < Times(n + 1, step)
  {
    if Times(k - 1, step) <= total {
      n := k - 1;
    } else {
      n := CountSteps(total, step, k - 1);
    }
  }

  lemma StepsWithin(total: real, step: real) returns (n: nat)
    requires total >= 0.0 && step > 0.0
    ensures Times(n, step) <= total < Times(n + 1, step)
  {
    var k := EnoughSteps(total, step);
    n := CountSteps(total, step, k);
  }

  /** A run of frames alone: the target stands still. */
  ghost predicate FramesOnly(events: seq<Event>) {
    forall i :: 0 <= i < |events| ==> events[i].FrameAt?
  }

  /** Over any frames, the error is in the band or has shrunk by every tick's worth; once in, it stays. */
  lemma {:induction false} LeadConverges(states: seq<Clock>, events: seq<Event>)
    requires Trace(states, events) && FramesOnly(events) && states[0].simRate <= OVERSHOOT_RATE
    ensures var first, last := states[0], states[|events|];
            && last.localTick >= first.localTick
            && Abs(LeadError(last)) <= Abs(LeadError(first))
            && (InBand(first) ==> LeadError(last) == LeadError(first))
            && (InBand(last) || Abs(LeadError(last)) == Abs(LeadError(first)) - Times(last.localTick - first.localTick, 0.02 * Nominal(first)))
  {
    if events != [] {
      var n := |events| - 1;
      TraceInit(states, events);
      LeadConverges(states[..n + 1], events[..n]);
      var first, c, c' := states[0], states[n], states[n + 1];
      var ticks := c'.localTick - c.localTick;
      assert Follows(c, events[n], c');
      FrameNeverOvershoots(c, events[n].now, ticks, c');
      TimesAdd(c.localTick - first.localTick, ticks, 0.02 * Nominal(first));
    }
  }

  /** The band is reached once the ticks issued are worth the distance to it. */
  lemma LeadReachesBand(states: seq<Clock>, events: seq<Event>)
    requires Trace(states, events) && FramesOnly(events) && states[0].simRate <= OVERSHOOT_RATE
    requires var first, last := states[0], states[|events|];
             last.localTick >= first.localTick
             && Times(last.localTick - first.localTick, 0.02 * Nominal(first)) >= Abs(LeadError(first)) - 0.5 * Nominal(first)
    ensures InBand(states[|events|])
  {
    LeadConverges(states, events);
  }

  // ---------------------------------------------------------------------------------------------
  // No windup

  /** Where the target wants to be when input arrives `delay` ticks after it was stamped. */
  function FixedPoint(c: Clock, delay: real): real
    requires c.simRate > 0.0
  {
    ClampLead(Some((delay + HEADROOM_TARGET) / c.simRate), c.simRate)
  }

  lemma ClampLegal(seconds: Option<real>, simRate: real)
    requires simRate > 0.0
    ensures LegalLead(ClampLead(seconds, simRate), simRate)
  {
  }

  /** A quarter of the way to a point, clamped, is no farther than three quarters from the clamped point. */
  lemma ClampedQuarter(t: real, f: real, lo: real, hi: real)
    requires lo <= t <= hi || hi <= t <= lo
    ensures Abs(Clamp(t + 0.25 * (f - t), lo, hi) - Clamp(f, lo, hi)) <= 0.75 * Abs(t - Clamp(f, lo, hi))
  {
  }

  lemma SampleIsQuarterStep(c: Clock, delay: real, leadAtSend: real)
    requires c.simRate > 0.0
    ensures Sampled(c, leadAtSend - delay, leadAtSend).targetLead
            == ClampLead(Some(c.targetLead + 0.25 * ((delay + HEADROOM_TARGET) / c.simRate - c.targetLead)), c.simRate)
  {
    var r := c.simRate;
    assert (c.targetLead * r) / r == c.targetLead;
    assert GAIN * (HEADROOM_TARGET - (leadAtSend - delay + (c.targetLead * r - leadAtSend)))
           == 0.25 * (delay + HEADROOM_TARGET - c.targetLead * r);
    assert (0.25 * (delay + HEADROOM_TARGET - c.targetLead * r)) / r
           == 0.25 * ((delay + HEADROOM_TARGET) / r - c.targetLead);
  }

  /**
   * Whatever lead a frame was sent at, its sample brings the target at least a quarter of the way to the
   * clamped fixed point: time spent undelivered never winds the target up.
   */
  lemma SampleContracts(c: Clock, delay: real, leadAtSend: real)
    requires Ok(c)
    ensures var c' := Sampled(c, leadAtSend - delay, leadAtSend);
            && LegalLead(c'.targetLead, c.simRate)
            && Abs(c'.targetLead - FixedPoint(c, delay)) <= 0.75 * Abs(c.targetLead - FixedPoint(c, delay))
  {
    SampleIsQuarterStep(c, delay, leadAtSend);
    ClampLegal(Some(c.targetLead + 0.25 * ((delay + HEADROOM_TARGET) / c.simRate - c.targetLead)), c.simRate);
    ClampedQuarter(c.targetLead, (delay + HEADROOM_TARGET) / c.simRate, LEAD_MIN_TICKS / c.simRate, LEAD_MAX_SECONDS);
  }

  function SampleAll(c: Clock, delay: real, leads: seq<real>): (c': Clock)
    requires c.simRate > 0.0
    ensures c'.simRate == c.simRate
  {
    if leads == [] then c
    else
      var before := SampleAll(c, delay, leads[..|leads| - 1]);
      Sampled(before, leads[|leads| - 1] - delay, leads[|leads| - 1])
  }

  /** `distance` shrunk by a quarter, `n` times. */
  function Shrunk(n: nat, distance: real): real {
    if n == 0 then distance else 0.75 * Shrunk(n - 1, distance)
  }

  /** Geometric convergence over any number of samples, whatever the leads they were sent at. */
  lemma {:induction false} TargetConverges(c: Clock, delay: real, leads: seq<real>)
    requires Ok(c)
    ensures Ok(SampleAll(c, delay, leads))
    ensures Abs(SampleAll(c, delay, leads).targetLead - FixedPoint(c, delay))
            <= Shrunk(|leads|, Abs(c.targetLead - FixedPoint(c, delay)))
  {
    if leads != [] {
      var init, last := leads[..|leads| - 1], leads[|leads| - 1];
      TargetConverges(c, delay, init);
      var before := SampleAll(c, delay, init);
      SampleContracts(before, delay, last);
      SampleKeeps(before, last - delay, last);
      assert FixedPoint(before, delay) == FixedPoint(c, delay);
    }
  }

  lemma SampleKeeps(c: Clock, headroom: real, leadAtSend: real)
    requires Ok(c)
    ensures Ok(Sampled(c, headroom, leadAtSend))
  {
    ClampLegal(Some(c.targetLead + GAIN * (HEADROOM_TARGET - (headroom + (c.targetLead * c.simRate - leadAtSend))) / c.simRate), c.simRate);
  }
}
