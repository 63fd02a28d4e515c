/** Any number of gates on one link, their sections interleaved freely. */
module QuotaRuns {
  import opened Common
  import opened QuotaModel

  /** Where a relay direction is between two awaits. */
  datatype Phase =
    | Idle
    | Committing(amount: nat, frame: nat)  // staged, waiting for the usage record
    | Sending(frame: nat)                  // accounted for, not yet written
    | Closing                              // loop left; the final flush is still due
    | Flushing(rest: nat)
    | Closed

  /** How a direction left its loop. A frame abandoned between staging and sending was
      staged in a batch of `amount` that was never charged, or is already accounted. */
  datatype Exit =
    | Orderly
    | RefusedBatch(amount: nat, frame: nat)
    | AbandonedBatch(amount: nat, frame: nat)
    | AbandonedFrame(frame: nat)

  /** `unflushed` is what the final flush failed to charge. */
  datatype Session = Session(
    gate: Gate, phase: Phase, forwarded: nat, recorded: nat, exit: Exit, unflushed: nat)

  /** `headers` counts bytes charged outside the gates, for request headers. */
  datatype System = System(usage: Usage, sessions: seq<Session>, headers: nat)

  datatype Act =
    | Frame(nbytes: nat, now: real)
    | Commit(otherwise: bool)
    | Send
    | Stop                                 // disconnect, error or cancellation
    | BeginFlush
    | FinishFlush(otherwise: bool)

  datatype Step =
    | Open(now: real)
    | On(i: nat, act: Act)
    | Header(nbytes: nat, otherwise: bool)

  /** Bytes forwarded beyond those recorded, by how the direction ended. */
  function Gap(exit: Exit, unflushed: nat): int
  {
    unflushed + match exit
      case Orderly => 0
      case RefusedBatch(a, f) => a - f
      case AbandonedBatch(a, f) => a - f
      case AbandonedFrame(f) => -1 * f
  }

  predicate ExitOk(x: Session)
  {
    match x.exit
    case Orderly => true
    case RefusedBatch(a, f) => 0 < f <= a < x.gate.maxBatch + f && x.gate.pending == 0 && x.unflushed == 0
    case AbandonedBatch(a, f) => 0 < f <= a < x.gate.maxBatch + f && x.gate.pending == 0 && x.unflushed == 0
    case AbandonedFrame(f) => 0 < f
  }

  predicate SessionOk(x: Session)
  {
    && GateOk(x.gate) && ExitOk(x) && x.unflushed < x.gate.maxBatch
    && x.forwarded - x.recorded < x.gate.maxBatch
    && (x.phase.Closing? || x.phase.Flushing? || x.phase.Closed? || x.exit.Orderly?)
    && (x.phase.Closed? || x.unflushed == 0)
    && match x.phase
       case Idle => x.recorded + x.gate.pending == x.forwarded
       case Committing(a, f) =>
         0 < f <= a && x.gate.pending == 0 && x.recorded + a == x.forwarded + f && a < x.gate.maxBatch + f
       case Sending(f) => 0 < f && x.recorded + x.gate.pending == x.forwarded + f
       case Closing => x.forwarded == x.recorded + x.gate.pending + Gap(x.exit, 0)
       case Flushing(a) =>
         && x.gate.pending == 0 && 0 < a < x.gate.maxBatch
         && (x.exit.Orderly? || x.exit.AbandonedFrame?)
         && x.forwarded == x.recorded + a + Gap(x.exit, 0)
       case Closed => x.gate.pending == 0 && x.forwarded == x.recorded + Gap(x.exit, x.unflushed)
  }

  function NewSession(metered: bool, now: real): Session
  {
    Session(NewGate(metered, now), Idle, 0, 0, Orderly, 0)
  }

  /** What one section of a relay direction does to it and to the usage record. */
  function Advance(x: Session, u: Usage, act: Act): (Session, Usage)
    requires GateOk(x.gate)
  {
    match act
    case Frame(n, now) =>
      if !x.phase.Idle? || n == 0 then (x, u)
      else
        var (g, out) := Stage(x.gate, n, now);
        (if out < 0 then x.(phase := Closing)
         else if out == 0 then x.(gate := g, phase := Sending(n))
         else x.(gate := g, phase := Committing(out, n)), u)
    case Commit(otherwise) =>
      if !x.phase.Committing? then (x, u)
      else
        var (v, yes) := CheckAndUse(u, x.phase.amount, otherwise);
        (if yes then x.(recorded := x.recorded + x.phase.amount, phase := Sending(x.phase.frame))
         else x.(gate := x.gate.(ok := false), phase := Closing,
                 exit := RefusedBatch(x.phase.amount, x.phase.frame)), v)
    case Send =>
      if !x.phase.Sending? then (x, u)
      else (x.(forwarded := x.forwarded + x.phase.frame, phase := Idle), u)
    case Stop => (Halt(x), u)
    case BeginFlush =>
      if !x.phase.Closing? then (x, u)
      else if x.gate.pending == 0 then (x.(phase := Closed), u)
      else (x.(gate := x.gate.(pending := 0), phase := Flushing(x.gate.pending)), u)
    case FinishFlush(otherwise) =>
      if !x.phase.Flushing? then (x, u)
      else
        var (v, yes) := CheckAndUse(u, x.phase.rest, otherwise);
        (if yes then x.(recorded := x.recorded + x.phase.rest, phase := Closed)
         else x.(gate := x.gate.(ok := false), phase := Closed, unflushed := x.phase.rest), v)
  }

  function Halt(x: Session): Session
  {
    match x.phase
    case Idle => x.(phase := Closing)
    case Committing(a, f) => x.(phase := Closing, exit := AbandonedBatch(a, f))
    case Sending(f) => x.(phase := Closing, exit := AbandonedFrame(f))
    case Flushing(a) => x.(phase := Closed, unflushed := a)
    case _ => x
  }

  function Apply(s: System, step: Step): System
    requires forall k :: 0 <= k < |s.sessions| ==> GateOk(s.sessions[k].gate)
  {
    match step
    case Open(now) =>
      s.(sessions := s.sessions + [NewSession(s.usage.limit > 0, now)])
    case On(i, act) =>
      if i >= |s.sessions| then s
      else
        var (x, u) := Advance(s.sessions[i], s.usage, act);
        s.(usage := u, sessions := s.sessions[i := x])
    case Header(n, otherwise) =>
      var (u, yes) := CheckAndUse(s.usage, n, otherwise);
      s.(usage := u, headers := s.headers + (if yes then n else 0))
  }

  function Recorded(xs: seq<Session>): nat
  {
    if xs == [] then 0 else xs[0].recorded + Recorded(xs[1..])
  }

  /** Everything charged is accounted to a session or a header. */
  predicate Inv(s: System, initial: Usage)
  {
    && (forall k :: 0 <= k < |s.sessions| ==> SessionOk(s.sessions[k]))
    && (s.usage.limit > 0 ==> forall k :: 0 <= k < |s.sessions| ==> s.sessions[k].gate.maxBatch == METERED_MAX_BATCH)
    && s.usage.limit == initial.limit
    && s.usage.used == initial.used + Recorded(s.sessions) + s.headers
    && s.usage.total - initial.total == s.usage.used - initial.used
  }

  lemma {:induction false} RecordedUpdate(xs: seq<Session>, i: nat, x: Session)
    requires i < |xs|
    ensures Recorded(xs[i := x]) == Recorded(xs) - xs[i].recorded + x.recorded
  {
    if i == 0 {
      assert xs[i := x][1..] == xs[1..];
    } else {
      assert xs[i := x][1..] == xs[1..][i - 1 := x];
      RecordedUpdate(xs[1..], i - 1, x);
    }
  }

  lemma {:induction false} RecordedAppend(xs: seq<Session>, x: Session)
    ensures Recorded(xs + [x]) == Recorded(xs) + x.recorded
  {
    if xs == [] {
      assert xs + [x] == [x];
    } else {
      assert (xs + [x])[1..] == xs[1..] + [x];
      RecordedAppend(xs[1..], x);
    }
  }

  /** The session stays consistent, and what it newly recorded is what was charged. */
  ghost predicate Conserves(x: Session, u: Usage, y: Session, v: Usage)
  {
    && SessionOk(y) && y.gate.maxBatch == x.gate.maxBatch && v.limit == u.limit
    && v.used - u.used == v.total - u.total == y.recorded - x.recorded
  }

  lemma FrameConserves(x: Session, u: Usage, n: nat, now: real)
    requires SessionOk(x)
    ensures var (y, v) := Advance(x, u, Frame(n, now)); Conserves(x, u, y, v)
  {
    StageConserves(x.gate, n, now);
  }

  lemma HaltConserves(x: Session, u: Usage)
    requires SessionOk(x)
    ensures Conserves(x, u, Halt(x), u)
  {
  }

  lemma FlushConserves(x: Session, u: Usage, act: Act)
    requires SessionOk(x) && (act.BeginFlush? || act.FinishFlush?)
    ensures var (y, v) := Advance(x, u, act); Conserves(x, u, y, v)
  {
  }

  /** A section keeps its session consistent, and what it newly recorded is exactly
      what the usage record was charged. */
  lemma AdvanceConserves(x: Session, u: Usage, act: Act)
    requires SessionOk(x)
    ensures var (y, v) := Advance(x, u, act); Conserves(x, u, y, v)
  {
    match act
    case Frame(n, now) => FrameConserves(x, u, n, now);
    case Stop => HaltConserves(x, u);
    case Commit(_) =>
    case Send =>
    case _ => FlushConserves(x, u, act);
  }

  lemma StepKeepsInv(s: System, step: Step, initial: Usage)
    requires Inv(s, initial)
    ensures Inv(Apply(s, step), initial)
  {
    match step
    case Open(now) => RecordedAppend(s.sessions, NewSession(s.usage.limit > 0, now));
    case On(i, act) =>
      if i < |s.sessions| {
        AdvanceConserves(s.sessions[i], s.usage, act);
        RecordedUpdate(s.sessions, i, Advance(s.sessions[i], s.usage, act).0);
      }
    case Header(_, _) =>
  }

  ghost function Run(s: System, steps: seq<Step>, initial: Usage): System
    requires Inv(s, initial)
    decreases |steps|
  {
    if steps == [] then s
    else
      StepKeepsInv(s, steps[0], initial);
      Run(Apply(s, steps[0]), steps[1..], initial)
  }

  lemma {:induction false} RunKeepsInv(s: System, steps: seq<Step>, initial: Usage)
    requires Inv(s, initial)
    ensures Inv(Run(s, steps, initial), initial)
    decreases |steps|
  {
    if steps != [] {
      StepKeepsInv(s, steps[0], initial);
      RunKeepsInv(Apply(s, steps[0]), steps[1..], initial);
    }
  }

  predicate StepBounded(step: Step, frame: nat, header: nat)
  {
    match step
    case Open(_) => true
    case On(_, act) => act.Frame? ==> act.nbytes <= frame
    case Header(n, _) => n <= header
  }

  /** The largest frame and the largest header charge of a run. */
  predicate Bounded(steps: seq<Step>, frame: nat, header: nat)
  {
    forall k :: 0 <= k < |steps| ==>
      StepBounded(steps[k], frame, header)
  }

  predicate FramesBounded(s: System, frame: nat)
  {
    forall k :: 0 <= k < |s.sessions| && s.sessions[k].phase.Committing? ==> s.sessions[k].phase.frame <= frame
  }

  function Fresh(u: Usage): System
  {
    System(u, [], 0)
  }

  predicate Below(s: System, initial: Usage, frame: nat, header: nat)
  {
    || s.usage.used == initial.used
    || (initial.used < s.usage.limit && s.usage.used < s.usage.limit + Max(METERED_MAX_BATCH + frame, header))
  }

  /** One section charges only below the limit, and then at most one batch. */
  lemma ChargeIsBounded(x: Session, u: Usage, act: Act, frame: nat)
    requires SessionOk(x) && u.limit > 0 && x.gate.maxBatch == METERED_MAX_BATCH
    requires x.phase.Committing? ==> x.phase.frame <= frame
    requires act.Frame? ==> act.nbytes <= frame
    ensures var (y, v) := Advance(x, u, act);
      && (v.used == u.used || (u.used < u.limit && v.used < u.limit + METERED_MAX_BATCH + frame))
      && v.limit == u.limit && (y.phase.Committing? ==> y.phase.frame <= frame)
  {
  }

  lemma StepOvershoot(s: System, step: Step, initial: Usage, frame: nat, header: nat)
    requires Inv(s, initial) && s.usage.limit > 0 && Below(s, initial, frame, header) && FramesBounded(s, frame)
    requires StepBounded(step, frame, header)
    ensures Below(Apply(s, step), initial, frame, header) && FramesBounded(Apply(s, step), frame)
    ensures Apply(s, step).usage.limit == s.usage.limit
  {
    if step.On? && step.i < |s.sessions| {
      assert SessionOk(s.sessions[step.i]);
      ChargeIsBounded(s.sessions[step.i], s.usage, step.act, frame);
      var (y, v) := Advance(s.sessions[step.i], s.usage, step.act);
      assert Apply(s, step) == System(v, s.sessions[step.i := y], s.headers);
    }
  }

  lemma {:induction false} OvershootFrom(s: System, steps: seq<Step>, initial: Usage, frame: nat, header: nat)
    requires Inv(s, initial) && s.usage.limit > 0
    requires Bounded(steps, frame, header) && FramesBounded(s, frame) && Below(s, initial, frame, header)
    ensures Below(Run(s, steps, initial), initial, frame, header)
    decreases |steps|
  {
    if steps != [] {
      StepKeepsInv(s, steps[0], initial);
      StepOvershoot(s, steps[0], initial, frame, header);
      OvershootFrom(Apply(s, steps[0]), steps[1..], initial, frame, header);
    }
  }

  /** A charge is only accepted below the limit, so the record ends below the limit
      plus the one charge that crossed it: under 1 MiB plus one frame from a gate,
      or one header. A link that starts at its limit or above is charged nothing. */
  lemma QuotaOvershoot(u: Usage, steps: seq<Step>, frame: nat, header: nat)
    requires u.limit > 0 && Bounded(steps, frame, header)
    ensures var t := Run(Fresh(u), steps, u);
      && (u.used < u.limit ==> t.usage.used < u.limit + Max(METERED_MAX_BATCH + frame, header))
      && (u.used >= u.limit ==> t.usage.used == u.used)
  {
    OvershootFrom(Fresh(u), steps, u, frame, header);
    RunKeepsInv(Fresh(u), steps, u);
  }

  /** On a metered link a direction is never a whole MiB ahead of its record. */
  lemma UnrecordedUnderOneMiB(u: Usage, steps: seq<Step>, i: nat)
    requires u.limit > 0 && i < |Run(Fresh(u), steps, u).sessions|
    ensures var x := Run(Fresh(u), steps, u).sessions[i];
            x.forwarded - x.recorded < 1024 * 1024
  {
    RunKeepsInv(Fresh(u), steps, u);
    assert SessionOk(Run(Fresh(u), steps, u).sessions[i]);
  }

  // --------------------------------------------------------------- closing totals

  function Forwarded(xs: seq<Session>): nat
  {
    if xs == [] then 0 else xs[0].forwarded + Forwarded(xs[1..])
  }

  function Gaps(xs: seq<Session>): int
  {
    if xs == [] then 0 else Gap(xs[0].exit, xs[0].unflushed) + Gaps(xs[1..])
  }

  predicate AllClosed(s: System)
  {
    forall k :: 0 <= k < |s.sessions| ==> s.sessions[k].phase.Closed?
  }

  lemma {:induction false} SumsDiffer(xs: seq<Session>)
    requires forall k :: 0 <= k < |xs| ==> xs[k].forwarded == xs[k].recorded + Gap(xs[k].exit, xs[k].unflushed)
    ensures Forwarded(xs) == Recorded(xs) + Gaps(xs)
  {
    if xs != [] { SumsDiffer(xs[1..]); }
  }

  /** What the record misses, or has too much, once everything has closed. */
  lemma ClosedTotals(u: Usage, steps: seq<Step>)
    requires AllClosed(Run(Fresh(u), steps, u))
    ensures var t := Run(Fresh(u), steps, u);
      && t.usage.used - u.used == Forwarded(t.sessions) + t.headers - Gaps(t.sessions)
      && t.usage.total - u.total == t.usage.used - u.used
  {
    RunKeepsInv(Fresh(u), steps, u);
    var t := Run(Fresh(u), steps, u);
    forall k | 0 <= k < |t.sessions|
      ensures t.sessions[k].forwarded == t.sessions[k].recorded + Gap(t.sessions[k].exit, t.sessions[k].unflushed)
    {
      assert SessionOk(t.sessions[k]);
    }
    SumsDiffer(t.sessions);
  }

  /** The endings whose errors cancel: a refused or abandoned batch that held nothing
      but the frame not sent, or an abandoned frame exactly as large as the flush that
      was refused afterwards. */
  predicate Cancels(exit: Exit, unflushed: nat)
  {
    match exit
    case Orderly => unflushed == 0
    case RefusedBatch(a, f) => a == f
    case AbandonedBatch(a, f) => a == f
    case AbandonedFrame(f) => unflushed == f
  }

  /** A closed direction recorded what it forwarded if and only if it ended that way. */
  lemma ClosedIsExactIff(u: Usage, steps: seq<Step>, i: nat)
    requires i < |Run(Fresh(u), steps, u).sessions| && Run(Fresh(u), steps, u).sessions[i].phase.Closed?
    ensures var x := Run(Fresh(u), steps, u).sessions[i];
      x.recorded == x.forwarded <==> Cancels(x.exit, x.unflushed)
  {
    RunKeepsInv(Fresh(u), steps, u);
    assert SessionOk(Run(Fresh(u), steps, u).sessions[i]);
  }

  /** The link stays allowed for this step, and it interrupts no frame and no flush. */
  predicate Undisturbed(s: System, step: Step)
  {
    step.On? && step.i < |s.sessions| ==>
      match s.sessions[step.i].phase
      case Committing(_, _) => !step.act.Stop? && (step.act.Commit? ==> step.act.otherwise && UnderQuota(s.usage))
      case Sending(_) => !step.act.Stop?
      case Flushing(_) => !step.act.Stop? && (step.act.FinishFlush? ==> step.act.otherwise && UnderQuota(s.usage))
      case _ => true
  }

  ghost predicate UndisturbedRun(s: System, steps: seq<Step>, initial: Usage)
    requires Inv(s, initial)
    decreases |steps|
  {
    if steps == [] then true
    else
      StepKeepsInv(s, steps[0], initial);
      Undisturbed(s, steps[0]) && UndisturbedRun(Apply(s, steps[0]), steps[1..], initial)
  }

  predicate Flawless(x: Session) { x.exit.Orderly? && x.unflushed == 0 }

  predicate AllFlawless(s: System)
  {
    forall k :: 0 <= k < |s.sessions| ==> Flawless(s.sessions[k])
  }

  lemma FlawsStay(s: System, step: Step, initial: Usage)
    requires Inv(s, initial)
    ensures AllFlawless(Apply(s, step)) <==> AllFlawless(s) && Undisturbed(s, step)
  {
    var t := Apply(s, step);
    assert forall k :: 0 <= k < |s.sessions| ==> SessionOk(s.sessions[k]);
    match step
    case Open(_) =>
      assert forall k :: 0 <= k < |s.sessions| ==> t.sessions[k] == s.sessions[k];
    case On(i, act) =>
      if i < |s.sessions| {
        FlawOfStep(s.sessions[i], s.usage, act);
        assert t.sessions[i] == Advance(s.sessions[i], s.usage, act).0;
        assert forall k :: 0 <= k < |s.sessions| && k != i ==> t.sessions[k] == s.sessions[k];
      }
    case Header(_, _) =>
  }

  lemma FlawOfStep(x: Session, u: Usage, act: Act)
    requires SessionOk(x)
    ensures Flawless(Advance(x, u, act).0) <==>
      Flawless(x) && Undisturbed(System(u, [x], 0), On(0, act))
  {
  }

  lemma {:induction false} FlawlessIffUndisturbed(s: System, steps: seq<Step>, initial: Usage)
    requires Inv(s, initial)
    ensures AllFlawless(Run(s, steps, initial)) <==> AllFlawless(s) && UndisturbedRun(s, steps, initial)
    decreases |steps|
  {
    if steps != [] {
      StepKeepsInv(s, steps[0], initial);
      FlawsStay(s, steps[0], initial);
      FlawlessIffUndisturbed(Apply(s, steps[0]), steps[1..], initial);
    }
  }

  lemma {:induction false} NoGaps(xs: seq<Session>)
    requires forall k :: 0 <= k < |xs| ==> Flawless(xs[k])
    ensures Gaps(xs) == 0
  {
    if xs != [] { NoGaps(xs[1..]); }
  }

  /** While the link stays allowed at every charge and no direction is interrupted
      between staging and sending, closing every direction makes the record grow by
      exactly what was forwarded plus the headers charged. */
  lemma AllowedRunsAreExact(u: Usage, steps: seq<Step>)
    requires UndisturbedRun(Fresh(u), steps, u) && AllClosed(Run(Fresh(u), steps, u))
    ensures var t := Run(Fresh(u), steps, u);
      && t.usage.used - u.used == Forwarded(t.sessions) + t.headers
      && t.usage.total - u.total == Forwarded(t.sessions) + t.headers
      && forall k :: 0 <= k < |t.sessions| ==> t.sessions[k].recorded == t.sessions[k].forwarded
  {
    FlawlessIffUndisturbed(Fresh(u), steps, u);
    ClosedTotals(u, steps);
    var t := Run(Fresh(u), steps, u);
    NoGaps(t.sessions);
    forall k | 0 <= k < |t.sessions| ensures t.sessions[k].recorded == t.sessions[k].forwarded {
      ClosedIsExactIff(u, steps, k);
    }
  }

  lemma RunOne(s: System, step: Step, rest: seq<Step>, t: System, initial: Usage)
    requires Inv(s, initial) && Apply(s, step) == t
    ensures Inv(t, initial) && Run(s, [step] + rest, initial) == Run(t, rest, initial)
  {
    StepKeepsInv(s, step, initial);
    assert ([step] + rest)[1..] == rest;
  }

  /** The only direction of an unlimited link, its first frame staged. */
  function OneDirection(u: Usage, now: real, phase: Phase, pending: nat, recorded: nat, exit: Exit): System
  {
    System(u.(used := u.used + recorded, total := u.total + recorded),
           [Session(NewGate(false, now).(pending := pending, ticks := 1), phase, 0, recorded, exit, 0)], 0)
  }

  lemma OpensAndStops(u: Usage, now: real, n: nat)
    requires u.limit == 0 && 0 < n < UNLIMITED_START
    ensures Apply(Fresh(u), Open(now)) == System(u, [NewSession(false, now)], 0)
    ensures Apply(System(u, [NewSession(false, now)], 0), On(0, Frame(n, now)))
         == OneDirection(u, now, Sending(n), n, 0, Orderly)
    ensures Apply(OneDirection(u, now, Sending(n), n, 0, Orderly), On(0, Stop))
         == OneDirection(u, now, Closing, n, 0, AbandonedFrame(n))
  {
    assert Apply(Fresh(u), Open(now)).sessions == [NewSession(false, now)];
  }

  lemma FlushesAndCloses(u: Usage, now: real, n: nat)
    requires u.limit == 0 && 0 < n < UNLIMITED_START
    ensures Apply(OneDirection(u, now, Closing, n, 0, AbandonedFrame(n)), On(0, BeginFlush))
         == OneDirection(u, now, Flushing(n), 0, 0, AbandonedFrame(n))
    ensures Apply(OneDirection(u, now, Flushing(n), 0, 0, AbandonedFrame(n)), On(0, FinishFlush(true)))
         == OneDirection(u, now, Closed, 0, n, AbandonedFrame(n))
  {
  }

  function Interrupted(now: real, n: nat): seq<Step>
  {
    [Open(now)] + ([On(0, Frame(n, now))] + ([On(0, Stop)] + Flushed()))
  }

  function Flushed(): seq<Step>
  {
    [On(0, BeginFlush)] + ([On(0, FinishFlush(true))] + [])
  }

  /** Closing does not make totals exact by itself: on an unlimited link that is always
      allowed, a frame whose sending was interrupted stays on the bill. */
  lemma InterruptedFrameIsBilled(u: Usage, now: real, n: nat)
    requires u.limit == 0 && 0 < n < UNLIMITED_START
    ensures var t := Run(Fresh(u), Interrupted(now, n), u);
      AllClosed(t) && t.usage.used == u.used + n && Forwarded(t.sessions) == 0
  {
    OpensAndStops(u, now, n);
    var begun := System(u, [NewSession(false, now)], 0);
    var staged := OneDirection(u, now, Sending(n), n, 0, Orderly);
    var stopped := OneDirection(u, now, Closing, n, 0, AbandonedFrame(n));
    RunOne(Fresh(u), Open(now), [On(0, Frame(n, now))] + ([On(0, Stop)] + Flushed()), begun, u);
    RunOne(begun, On(0, Frame(n, now)), [On(0, Stop)] + Flushed(), staged, u);
    RunOne(staged, On(0, Stop), Flushed(), stopped, u);
    FlushIsBilled(stopped, u, now, n);
  }

  lemma FlushIsBilled(stopped: System, u: Usage, now: real, n: nat)
    requires u.limit == 0 && 0 < n < UNLIMITED_START
    requires stopped == OneDirection(u, now, Closing, n, 0, AbandonedFrame(n)) && Inv(stopped, u)
    ensures var t := Run(stopped, Flushed(), u);
      AllClosed(t) && t.usage.used == u.used + n && Forwarded(t.sessions) == 0
  {
    FlushesAndCloses(u, now, n);
    var flushing := OneDirection(u, now, Flushing(n), 0, 0, AbandonedFrame(n));
    var billed := OneDirection(u, now, Closed, 0, n, AbandonedFrame(n));
    RunOne(stopped, On(0, BeginFlush), [On(0, FinishFlush(true))] + [], flushing, u);
    RunOne(flushing, On(0, FinishFlush(true)), [], billed, u);
    assert billed.sessions[1..] == [];
  }
}
