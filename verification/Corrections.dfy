/** Display corrections: what a resimulation adds to a drawn position, and how the offset is paid off. */
module Corrections {
  import opened Wrappers
  import opened Shared

  const CORRECTION_SMOOTH_SECONDS := 0.1
  const CORRECTION_SNAP_DISTANCE_SQUARED := 4096.0

  datatype Correction = Correction(offset: Vec, remaining: real)

  const ZERO := Vec(0.0, 0.0, 0.0)

  function Plus(a: Vec, b: Vec): Vec {
    Vec(a.x + b.x, a.y + b.y, a.z + b.z)
  }

  function Minus(a: Vec, b: Vec): Vec {
    Vec(a.x - b.x, a.y - b.y, a.z - b.z)
  }

  function Times(a: Vec, k: real): Vec {
    Vec(a.x * k, a.y * k, a.z * k)
  }

  function Product(a: real, b: real): (r: real)
    ensures (a > 0.0 && b > 0.0) || (a < 0.0 && b < 0.0) ==> r > 0.0
    ensures a == 0.0 ==> r == 0.0
  {
    a * b
  }

  /** The squared length, zero for the zero vector alone. */
  function Squared(a: Vec): (r: real)
    ensures r >= 0.0 && (r == 0.0 <==> a == ZERO)
  {
    Product(a.x, a.x) + Product(a.y, a.y) + Product(a.z, a.z)
  }

  function OffsetOf(cs: map<nat, Correction>, id: nat): Vec {
    if id in cs then cs[id].offset else ZERO
  }

  /** Every outstanding correction has time left. */
  ghost predicate Live(cs: map<nat, Correction>) {
    forall id :: id in cs ==> cs[id].remaining > 0.0
  }

  // ---------------------------------------------------------------------------------------------
  // Measuring

  datatype Verdict = Keep | Snap | Ease(offset: Vec)

  /** What a pose drawn before says of where the simulation now stands. */
  function Judged(pose: Vec, sim: Vec): Verdict {
    JudgedAt(Minus(pose, sim), Squared(Minus(pose, sim)))
  }

  function JudgedAt(d: Vec, distance: real): Verdict {
    if distance == 0.0 then Keep
    else if distance > CORRECTION_SNAP_DISTANCE_SQUARED then Snap
    else Ease(d)
  }

  function Applied(cs: map<nat, Correction>, id: nat, verdict: Verdict): map<nat, Correction> {
    match verdict
    case Keep => cs
    case Snap => cs - {id}
    case Ease(offset) => cs[id := Correction(offset, CORRECTION_SMOOTH_SECONDS)]
  }

  /** Every recorded entity still alive, judged on positions alone. */
  function Verdicts(poses: map<nat, Vec>, sim: map<nat, Vec>): map<nat, Verdict> {
    map id | id in poses && id in sim :: Judged(poses[id], sim[id])
  }

  ghost predicate SameCorrection(was: map<nat, Correction>, now: map<nat, Correction>, id: nat) {
    (id in now <==> id in was) && (id in now && id in was ==> now[id] == was[id])
  }

  /** One entity measured: left alone where nothing is off, dropped past 64 units, and otherwise eased from where it was drawn. */
  ghost predicate MeasuredAt(was: map<nat, Correction>, now: map<nat, Correction>, id: nat, pose: Vec, sim: Vec) {
    var dx, dy, dz := pose.x - sim.x, pose.y - sim.y, pose.z - sim.z;
    var square := dx * dx + dy * dy + dz * dz;
    && (square == 0.0 ==> SameCorrection(was, now, id))
    && (square > 4096.0 ==> id !in now)
    && (0.0 < square <= 4096.0 ==> id in now && now[id] == Correction(Vec(dx, dy, dz), 0.1))
  }

  lemma JudgedMeasures(was: map<nat, Correction>, now: map<nat, Correction>, id: nat, pose: Vec, sim: Vec)
    requires SameCorrection(Applied(was, id, Judged(pose, sim)), now, id)
    ensures MeasuredAt(was, now, id, pose, sim)
  {
    SquaredIs(pose, sim);
  }

  lemma SquaredIs(pose: Vec, sim: Vec)
    ensures var dx, dy, dz := pose.x - sim.x, pose.y - sim.y, pose.z - sim.z;
            Squared(Minus(pose, sim)) == dx * dx + dy * dy + dz * dz
  {
  }

  /** The correction `id` is left with, whatever the verdicts on others. */
  function Settled(cs: map<nat, Correction>, verdicts: map<nat, Verdict>, id: nat): Option<Correction> {
    var now := if id in verdicts then Applied(cs, id, verdicts[id]) else cs;
    if id in now then Some(now[id]) else None
  }

  /** No snap, and no offset outstanding where there is nothing to correct. */
  predicate Eases(distance: real, outstanding: Vec) {
    distance <= CORRECTION_SNAP_DISTANCE_SQUARED && (distance == 0.0 ==> outstanding == ZERO)
  }

  lemma UnmovedAt(cs: map<nat, Correction>, id: nat, pose: Vec, after: Vec, distance: real)
    requires distance == 0.0 <==> Minus(pose, after) == ZERO
    ensures Plus(after, OffsetOf(Applied(cs, id, JudgedAt(Minus(pose, after), distance)), id)) == pose <==> Eases(distance, OffsetOf(cs, id))
  {
  }

  /**
   * A resimulation moves a drawn entity exactly when it snaps, or when the pose drawn before is where the simulation
   * now stands while an offset was outstanding: the offset is then left on top of it.
   */
  lemma DrawnUnmovedIff(cs: map<nat, Correction>, id: nat, pose: Vec, after: Vec)
    ensures Plus(after, OffsetOf(Applied(cs, id, Judged(pose, after)), id)) == pose <==> Eases(Squared(Minus(pose, after)), OffsetOf(cs, id))
  {
    UnmovedAt(cs, id, pose, after, Squared(Minus(pose, after)));
  }

  /** The jump: still eased by an offset, the authority then agrees with the screen, and the screen moves off by it. */
  lemma ZeroDistanceJumps(cs: map<nat, Correction>, id: nat, before: Vec)
    ensures var pose := Plus(before, OffsetOf(cs, id));
            Plus(pose, OffsetOf(Applied(cs, id, Judged(pose, pose)), id)) == Plus(pose, OffsetOf(cs, id))
  {
    assert Minus(Plus(before, OffsetOf(cs, id)), Plus(before, OffsetOf(cs, id))) == ZERO;
  }

  // ---------------------------------------------------------------------------------------------
  // Decay

  /** One frame of `dt` on one correction. */
  function Aged(c: Correction, dt: real): Option<Correction>
    requires c.remaining > 0.0
  {
    var next := c.remaining - dt;
    if next <= 0.0 then None else Some(Correction(Times(c.offset, next / c.remaining), next))
  }

  function Clamped(gap: real): (dt: real)
    ensures 0.0 <= dt <= MAX_FRAME_DT
  {
    if gap < 0.0 then 0.0 else if gap > MAX_FRAME_DT then MAX_FRAME_DT else gap
  }

  /** A frame of `dt` on every correction: the expired leave, the rest shrink. */
  function AgedAll(cs: map<nat, Correction>, dt: real): map<nat, Correction>
    requires Live(cs)
  {
    map id | id in cs && Aged(cs[id], dt).Some? :: Aged(cs[id], dt).value
  }

  /** A frame that ages nothing changes nothing. */
  lemma AgedByZero(cs: map<nat, Correction>)
    requires Live(cs)
    ensures AgedAll(cs, 0.0) == cs
  {
    forall id | id in cs ensures Aged(cs[id], 0.0) == Some(cs[id]) {
      ScaledWhole(cs[id]);
    }
  }

  /** Seconds a frame ages by; one whose time is not finite (`None`), or the first ever, ages nothing. */
  function FrameAge(last: Option<real>, now: Option<real>): (dt: real)
    ensures 0.0 <= dt <= MAX_FRAME_DT
    ensures last.None? || now.None? || now.value <= last.value ==> dt == 0.0
    ensures last.Some? && now.Some? && 0.0 <= now.value - last.value <= 0.1 ==> dt == now.value - last.value
    ensures last.Some? && now.Some? && now.value - last.value >= 0.1 ==> dt == 0.1
  {
    if last.None? || now.None? then 0.0 else Clamped(now.value - last.value)
  }

  /** A correction with `dt` gone: less time, and of its offset the same share. */
  ghost predicate Decayed(was: Correction, now: Correction, dt: real) {
    var life, left := was.remaining, was.remaining - dt;
    && now.remaining == left
    && now.offset.x * life == was.offset.x * left && now.offset.y * life == was.offset.y * left && now.offset.z * life == was.offset.z * left
  }

  /** What `dt` leaves, one by one: nothing of what had no more left. */
  ghost predicate DecaysBy(was: map<nat, Correction>, now: map<nat, Correction>, dt: real) {
    && (forall id :: id in now <==> id in was && was[id].remaining > dt)
    && forall id :: id in now ==> Decayed(was[id], now[id], dt)
  }

  lemma ShareOf(x: real, life: real, left: real)
    requires life > 0.0
    ensures x * (left / life) * life == x * left
  {
    assert (left / life) * life == left;
  }

  lemma AgedDecays(c: Correction, dt: real)
    requires c.remaining > 0.0
    ensures Aged(c, dt).Some? <==> c.remaining > dt
    ensures Aged(c, dt).Some? ==> Decayed(c, Aged(c, dt).value, dt)
  {
    ShareOf(c.offset.x, c.remaining, c.remaining - dt);
    ShareOf(c.offset.y, c.remaining, c.remaining - dt);
    ShareOf(c.offset.z, c.remaining, c.remaining - dt);
  }

  lemma AgedAllDecays(cs: map<nat, Correction>, dt: real)
    requires Live(cs)
    ensures DecaysBy(cs, AgedAll(cs, dt), dt)
  {
    forall id | id in cs
      ensures Aged(cs[id], dt).Some? <==> cs[id].remaining > dt
      ensures Aged(cs[id], dt).Some? ==> Decayed(cs[id], Aged(cs[id], dt).value, dt)
    {
      AgedDecays(cs[id], dt);
    }
  }

  /** Times that go on by no more than a frame can be worth. */
  ghost predicate Steady(last: real, nows: seq<Option<real>>) {
    && (forall i :: 0 <= i < |nows| ==> nows[i].Some?)
    && (nows != [] ==> 0.0 <= nows[0].value - last <= 0.1)
    && forall i :: 0 < i < |nows| ==> 0.0 <= nows[i].value - nows[i - 1].value <= 0.1
  }

  /** Over steady frames the time elapsed is the time on the clock. */
  lemma {:induction false} ElapsedIsTime(last: real, nows: seq<Option<real>>)
    requires Steady(last, nows)
    ensures Elapsed(Some(last), nows) == if nows == [] then 0.0 else nows[|nows| - 1].value - last
    decreases |nows|
  {
    if nows != [] {
      var rest := nows[1..];
      forall i | 0 <= i < |rest| ensures rest[i] == nows[i + 1] {
      }
      ElapsedIsTime(nows[0].value, rest);
    }
  }

  /** The remaining correction of one entity after a frame. */
  function After(c: Option<Correction>, dt: real): (r: Option<Correction>)
    requires c.Some? ==> c.value.remaining > 0.0
    ensures r.Some? ==> r.value.remaining > 0.0
  {
    if c.None? then None else Aged(c.value, dt)
  }

  function AfterFrames(c: Option<Correction>, last: Option<real>, nows: seq<Option<real>>): Option<Correction>
    requires c.Some? ==> c.value.remaining > 0.0
    decreases |nows|
  {
    if nows == [] then c
    else AfterFrames(After(c, FrameAge(last, nows[0])), if nows[0].Some? then nows[0] else last, nows[1..])
  }

  /** Clamped frame time passed over a run of frames. */
  function Elapsed(last: Option<real>, nows: seq<Option<real>>): (t: real)
    ensures t >= 0.0
    decreases |nows|
  {
    if nows == [] then 0.0
    else FrameAge(last, nows[0]) + Elapsed(if nows[0].Some? then nows[0] else last, nows[1..])
  }

  lemma {:induction false} GoneStaysGone(last: Option<real>, nows: seq<Option<real>>)
    ensures AfterFrames(None, last, nows) == None
    decreases |nows|
  {
    if nows != [] {
      GoneStaysGone(if nows[0].Some? then nows[0] else last, nows[1..]);
    }
  }

  /** A correction with `left` of its life left. */
  function Scaled(c: Correction, left: real): Correction
    requires c.remaining > 0.0
  {
    Correction(Times(c.offset, left / c.remaining), left)
  }

  /** Two shares of a life taken one after the other are one share. */
  lemma SharesCompose(x: real, life: real, mid: real, end: real)
    requires life > 0.0 && mid > 0.0
    ensures x * (mid / life) * (end / mid) == x * (end / life)
  {
    assert (mid / life) * (end / mid) == end / life by {
      assert (end / life) == (mid * end) / (life * mid);
    }
  }

  lemma ScaledTwice(c: Correction, mid: real, end: real)
    requires c.remaining > 0.0 && mid > 0.0
    ensures Scaled(Scaled(c, mid), end) == Scaled(c, end)
  {
    SharesCompose(c.offset.x, c.remaining, mid, end);
    SharesCompose(c.offset.y, c.remaining, mid, end);
    SharesCompose(c.offset.z, c.remaining, mid, end);
  }

  lemma ScaledWhole(c: Correction)
    requires c.remaining > 0.0
    ensures Scaled(c, c.remaining) == c
  {
    assert c.remaining / c.remaining == 1.0;
  }

  lemma AgedIsScaled(c: Correction, dt: real)
    requires c.remaining > 0.0
    ensures Aged(c, dt) == if c.remaining - dt <= 0.0 then None else Some(Scaled(c, c.remaining - dt))
  {
  }

  /** However the frames fall, the offset is the initial one times the share of life left, and nothing past it. */
  lemma {:induction false} DecayIsLinear(c: Correction, last: Option<real>, nows: seq<Option<real>>)
    requires c.remaining > 0.0
    ensures var left := c.remaining - Elapsed(last, nows);
            AfterFrames(Some(c), last, nows) == if left <= 0.0 then None else Some(Scaled(c, left))
    decreases |nows|
  {
    if nows == [] {
      ScaledWhole(c);
    } else {
      var dt := FrameAge(last, nows[0]);
      var since := if nows[0].Some? then nows[0] else last;
      AgedIsScaled(c, dt);
      if c.remaining - dt <= 0.0 {
        GoneStaysGone(since, nows[1..]);
      } else {
        DecayIsLinear(Scaled(c, c.remaining - dt), since, nows[1..]);
        ScaledTwice(c, c.remaining - dt, c.remaining - Elapsed(last, nows));
      }
    }
  }

  /** From a fresh correction: linear over its tenth of a second, and gone once that much clamped time has passed. */
  lemma FreshDecay(offset: Vec, last: Option<real>, nows: seq<Option<real>>)
    ensures var t := Elapsed(last, nows);
            AfterFrames(Some(Correction(offset, CORRECTION_SMOOTH_SECONDS)), last, nows)
            == if t >= CORRECTION_SMOOTH_SECONDS then None
               else Some(Correction(Times(offset, (CORRECTION_SMOOTH_SECONDS - t) / CORRECTION_SMOOTH_SECONDS), CORRECTION_SMOOTH_SECONDS - t))
  {
    DecayIsLinear(Correction(offset, CORRECTION_SMOOTH_SECONDS), last, nows);
  }

  /**
   * A resimulation seen on screen: the entity starts where it was drawn and crosses to the simulated position in
   * proportion to clamped time, arriving once a tenth of a second has passed.
   */
  lemma EasesHome(cs: map<nat, Correction>, id: nat, pose: Vec, sim: Vec, last: Option<real>, nows: seq<Option<real>>)
    requires Judged(pose, sim).Ease?
    ensures var t := Elapsed(last, nows);
            var c := AfterFrames(Some(Applied(cs, id, Judged(pose, sim))[id]), last, nows);
            Plus(sim, if c.Some? then c.value.offset else ZERO)
            == if t >= CORRECTION_SMOOTH_SECONDS then sim
               else Plus(sim, Times(Minus(pose, sim), 1.0 - t / CORRECTION_SMOOTH_SECONDS))
  {
    var t := Elapsed(last, nows);
    FreshDecay(Minus(pose, sim), last, nows);
    assert (CORRECTION_SMOOTH_SECONDS - t) / CORRECTION_SMOOTH_SECONDS == 1.0 - t / CORRECTION_SMOOTH_SECONDS;
  }
}
