/** The readiness loop and its senders, interleaved step by step. */
module Worker {
  import opened Arithmetic

  const FACTORY_BATCH := 64
  const COMMAND_BATCH := 32

  /** The queue of job factories, and one command queue per job. */
  datatype Channel = Factories | Commands(job: nat)

  /** A factory either builds a job or gives up. */
  datatype Factory = Builds(job: nat) | GivesUp

  /** A sender between its enqueue and its wake: the item is in the queue, and then also the
      flag is set. */
  datatype Sender = Enqueued(to: Channel) | Flagged(to: Channel)

  /** `more` is the job's own batch flag, `busy` any other reason it has to run again at once;
      `drained` says its queue has been drained, up to a batch, in the current pass. Both kinds
      of job always name the time they want to run again by, their `deadline`. */
  datatype Job = Job(id: nat, more: bool, busy: bool, drained: bool, deadline: nat)

  datatype Pc =
    | Top
    | Taking(taken: nat)
    | Visiting(index: nat)
    | Draining(index: nat, taken: nat)
    | Deciding
    | Polling(blocks: bool, until: Option<nat>)
    | Ended

  datatype Loop = Loop(
    pc: Pc,
    notified: bool,
    wake: bool,
    factories: seq<Factory>,
    commands: map<nat, nat>,
    senders: multiset<Sender>,
    jobs: seq<Job>,
    factoryMore: bool)

  const STARTED := Loop(Top, false, false, [], map[], multiset{}, [], false)

  function Waiting(s: Loop, c: Channel): nat {
    match c
    case Factories => |s.factories|
    case Commands(job) => if job in s.commands then s.commands[job] else 0
  }

  // ---------------------------------------------------------------- steps

  /** How a job's step goes. It may end the job, or return before or after draining its queue.
      A follower whose step fails early leaves its retry time as the deadline. */
  datatype Visit = Ends | Skips(busy: bool, deadline: nat) | Drains

  datatype Step =
    // senders, at any moment
    | SendFactory(factory: Factory)
    | SendCommand(job: nat)
    | Flag(to: Channel)
    | Wake(to: Channel)
    // wakers held elsewhere, such as timers and shutdown
    | StrayFlag
    | StrayWake
    // the worker
    | Clear
    | Take
    | Visited(how: Visit)
    | Receive
    | Left(ends: bool, busy: bool, deadline: nat)
    | CheckStop(stop: bool)
    | Decide(now: nat)
    | Return(consumes: bool)

  predicate Enabled(s: Loop, step: Step) {
    match step
    case SendFactory(_) => true
    case SendCommand(_) => true
    case Flag(to) => Enqueued(to) in s.senders
    case Wake(to) => Flagged(to) in s.senders
    case StrayFlag => true
    case StrayWake => true
    case Clear => s.pc.Top?
    case Take => s.pc.Taking?
    case Visited(_) => s.pc.Visiting? && s.pc.index < |s.jobs|
    case Receive => s.pc.Draining? && s.pc.index < |s.jobs| && !QueueDone(s)
    case Left(_, _, _) => s.pc.Draining? && s.pc.index < |s.jobs| && QueueDone(s)
    case CheckStop(_) => s.pc.Visiting? && s.pc.index >= |s.jobs|
    case Decide(_) => s.pc.Deciding?
    case Return(_) => s.pc.Polling?
  }

  /** The job's drain is over: its batch is full or its queue was found empty. */
  predicate QueueDone(s: Loop)
    requires s.pc.Draining? && s.pc.index < |s.jobs|
  {
    s.pc.taken >= COMMAND_BATCH || Waiting(s, Commands(s.jobs[s.pc.index].id)) == 0
  }

  function Rotated(jobs: seq<Job>): seq<Job> {
    if |jobs| > 1 then jobs[1..] + [jobs[0]] else jobs
  }

  function Without(jobs: seq<Job>, i: nat): seq<Job>
    requires i < |jobs|
  {
    jobs[..i] + jobs[i + 1..]
  }

  predicate Immediate(s: Loop) {
    s.factoryMore || s.notified || exists j <- s.jobs :: j.more || j.busy
  }

  /** The earliest deadline of any job. */
  function Earliest(jobs: seq<Job>): Option<nat> {
    if jobs == [] then None
    else
      var rest := Earliest(jobs[1..]);
      Some(if rest.Some? then MinI(jobs[0].deadline, rest.value) else jobs[0].deadline)
  }

  predicate Past(deadline: Option<nat>, now: nat) {
    deadline.Some? && deadline.value <= now
  }

  function Undrained(jobs: seq<Job>): seq<Job> {
    seq(|jobs|, i requires 0 <= i < |jobs| => jobs[i].(drained := false))
  }

  /** One factory out of the queue, or on to the jobs when the batch or the queue is done. */
  function TakeOne(s: Loop): Loop
    requires s.pc.Taking?
  {
    if s.pc.taken >= FACTORY_BATCH || s.factories == [] then s.(pc := Visiting(0), jobs := Rotated(s.jobs))
    else
      var f := s.factories[0];
      s.(pc := Taking(s.pc.taken + 1), factories := s.factories[1..], factoryMore := s.pc.taken == FACTORY_BATCH - 1,
         jobs := s.jobs + if f.Builds? then [Job(f.job, false, false, false, 0)] else [])
  }

  function VisitJob(s: Loop, how: Visit): Loop
    requires s.pc.Visiting? && s.pc.index < |s.jobs|
  {
    var i := s.pc.index;
    match how
    case Ends => s.(jobs := Without(s.jobs, i))
    case Skips(busy, deadline) =>
      s.(pc := Visiting(i + 1), jobs := s.jobs[i := s.jobs[i].(busy := busy, deadline := deadline)])
    case Drains => s.(pc := Draining(i, 0), jobs := s.jobs[i := s.jobs[i].(more := false)])
  }

  /** One command out of the job's queue. */
  function ReceiveOne(s: Loop): Loop
    requires Enabled(s, Receive)
  {
    var i, job := s.pc.index, s.jobs[s.pc.index];
    s.(pc := Draining(i, s.pc.taken + 1), commands := s.commands[job.id := Waiting(s, Commands(job.id)) - 1],
       jobs := s.jobs[i := job.(more := s.pc.taken == COMMAND_BATCH - 1)])
  }

  function LeaveJob(s: Loop, ends: bool, busy: bool, deadline: nat): Loop
    requires s.pc.Draining? && s.pc.index < |s.jobs|
  {
    var i := s.pc.index;
    if ends then s.(pc := Visiting(i), jobs := Without(s.jobs, i))
    else s.(pc := Visiting(i + 1), jobs := s.jobs[i := s.jobs[i].(busy := busy, drained := true, deadline := deadline)])
  }

  function Next(s: Loop, step: Step): Loop
    requires Enabled(s, step)
  {
    match step
    case SendFactory(f) => s.(factories := s.factories + [f], senders := s.senders + multiset{Enqueued(Factories)})
    case SendCommand(job) =>
      s.(commands := s.commands[job := Waiting(s, Commands(job)) + 1],
         senders := s.senders + multiset{Enqueued(Commands(job))})
    case Flag(to) => s.(notified := true, senders := s.senders - multiset{Enqueued(to)} + multiset{Flagged(to)})
    case Wake(to) => s.(wake := true, senders := s.senders - multiset{Flagged(to)})
    case StrayFlag => s.(notified := true)
    case StrayWake => s.(wake := true)
    case Clear => s.(pc := Taking(0), notified := false, factoryMore := false, jobs := Undrained(s.jobs))
    case Take => TakeOne(s)
    case Visited(how) => VisitJob(s, how)
    case Receive => ReceiveOne(s)
    case Left(ends, busy, deadline) => LeaveJob(s, ends, busy, deadline)
    case CheckStop(stop) => s.(pc := if stop then Ended else Deciding)
    case Decide(now) => s.(pc := Polling(!Immediate(s) && !Past(Earliest(s.jobs), now), Earliest(s.jobs)))
    case Return(consumes) => s.(pc := Top, wake := s.wake && !consumes)
  }

  predicate Run(s: Loop, steps: seq<Step>) {
    steps == [] || (Run(s, steps[..|steps| - 1]) && Enabled(After(s, steps[..|steps| - 1]), steps[|steps| - 1]))
  }

  function After(s: Loop, steps: seq<Step>): Loop
    decreases |steps|
  {
    if steps == [] then s
    else
      var before := After(s, steps[..|steps| - 1]);
      if Enabled(before, steps[|steps| - 1]) then Next(before, steps[|steps| - 1]) else before
  }

  // ---------------------------------------------------------------- the invariant

  /** The factory queue has been drained, up to a batch, in the current pass. */
  predicate FactoriesDone(s: Loop) {
    s.pc.Visiting? || s.pc.Draining? || s.pc.Deciding? || s.pc.Polling?
  }

  /** An item in the queue will be noticed: the batch flag, the notified flag or a sender that
      still has to set it keeps the worker from sleeping; once it sleeps, the wake does. */
  predicate Noticed(s: Loop, c: Channel, more: bool) {
    || Waiting(s, c) == 0
    || Enqueued(c) in s.senders
    || (if s.pc.Polling? then !s.pc.blocks || s.wake || Flagged(c) in s.senders else more || s.notified)
  }

  ghost predicate Inv(s: Loop) {
    && (s.pc.Taking? ==> s.pc.taken <= FACTORY_BATCH && (s.pc.taken == FACTORY_BATCH ==> s.factoryMore))
    && (s.pc.Draining? && s.pc.index < |s.jobs| ==> BatchMarked(s))
    && (FactoriesDone(s) ==> Noticed(s, Factories, s.factoryMore))
    && (FactoriesDone(s) ==> forall j <- s.jobs :: JobNoticed(s, j))
    && forall i :: FirstUnvisited(s) <= i < |s.jobs| ==> !s.jobs[i].drained
  }

  predicate BatchMarked(s: Loop)
    requires s.pc.Draining? && s.pc.index < |s.jobs|
  {
    s.pc.taken <= COMMAND_BATCH && (s.pc.taken == COMMAND_BATCH ==> s.jobs[s.pc.index].more)
  }

  predicate JobNoticed(s: Loop, j: Job) {
    j.drained ==> Noticed(s, Commands(j.id), j.more)
  }

  /** Jobs from here on have not been drained in the current pass. */
  function FirstUnvisited(s: Loop): nat {
    match s.pc
    case Taking(_) => 0
    case Visiting(i) => i
    case Draining(i, _) => i
    case _ => |s.jobs|
  }

  /** What a sender does leaves every queue noticed. */
  lemma SendersKeepNoticed(s: Loop, step: Step, c: Channel, more: bool)
    requires step.SendFactory? || step.SendCommand? || step.Flag? || step.Wake? || step.StrayFlag? || step.StrayWake?
    requires Enabled(s, step) && FactoriesDone(s) && Noticed(s, c, more)
    ensures Noticed(Next(s, step), c, more)
  {
  }

  lemma SendersKeepInv(s: Loop, step: Step)
    requires step.SendFactory? || step.SendCommand? || step.Flag? || step.Wake? || step.StrayFlag? || step.StrayWake?
    requires Enabled(s, step) && Inv(s)
    ensures Inv(Next(s, step))
  {
    var t := Next(s, step);
    assert t.jobs == s.jobs && t.pc == s.pc && t.factoryMore == s.factoryMore;
    if FactoriesDone(s) {
      SendersKeepNoticed(s, step, Factories, s.factoryMore);
      forall j | j in t.jobs ensures JobNoticed(t, j) {
        assert JobNoticed(s, j);
        if j.drained {
          SendersKeepNoticed(s, step, Commands(j.id), j.more);
        }
      }
    }
    hide Next, Noticed, Enabled;
  }

  lemma WorkerKeepsInv(s: Loop, step: Step)
    requires step.Clear? || step.Take? || step.CheckStop? || step.Decide? || step.Return?
    requires Enabled(s, step) && Inv(s)
    ensures Inv(Next(s, step))
  {
    hide Earliest, VisitJob, ReceiveOne, LeaveJob;
    var t := Next(s, step);
    match step
    case Clear =>
    case Take =>
      if t.pc.Visiting? {
        assert forall j <- s.jobs :: !j.drained;
        assert forall j <- t.jobs :: !j.drained;
      }
    case CheckStop(_) =>
      forall j | j in t.jobs ensures FactoriesDone(t) ==> JobNoticed(t, j) {
        assert JobNoticed(s, j);
      }
    case Decide(_) =>
      forall j | j in t.jobs ensures JobNoticed(t, j) {
        assert JobNoticed(s, j);
      }
    case Return(_) =>
  }

  /** The queues and flags that make an item noticed are as they were, or fewer items wait. */
  ghost predicate NoWorse(s: Loop, t: Loop) {
    && FactoriesDone(s) && FactoriesDone(t) && !s.pc.Polling? && !t.pc.Polling?
    && s.notified == t.notified && s.senders == t.senders
    && s.factories == t.factories && s.factoryMore == t.factoryMore
    && forall id: nat :: Waiting(t, Commands(id)) <= Waiting(s, Commands(id))
  }

  lemma StillNoticed(s: Loop, t: Loop, j: Job)
    requires NoWorse(s, t) && JobNoticed(s, j)
    ensures JobNoticed(t, j)
  {
  }

  lemma RemovalKeepsInv(s: Loop, t: Loop, i: nat)
    requires Inv(s) && NoWorse(s, t) && i < |s.jobs|
    requires (s.pc.Visiting? || s.pc.Draining?) && s.pc.index == i
    requires t.pc == Visiting(i) && t.jobs == Without(s.jobs, i)
    ensures Inv(t)
  {
    forall j | j in t.jobs ensures JobNoticed(t, j) {
      assert j in s.jobs;
      StillNoticed(s, t, j);
    }
    hide Noticed, JobNoticed, NoWorse;
    assert forall k :: i <= k < |t.jobs| ==> t.jobs[k] == s.jobs[k + 1];
    assert Noticed(t, Factories, t.factoryMore) by {
      FactoriesStillNoticed(s, t);
    }
  }

  lemma FactoriesStillNoticed(s: Loop, t: Loop)
    requires NoWorse(s, t) && Noticed(s, Factories, s.factoryMore)
    ensures Noticed(t, Factories, t.factoryMore)
  {
  }

  lemma UpdateKeepsInv(s: Loop, t: Loop, i: nat, job: Job)
    requires Inv(s) && NoWorse(s, t) && i < |s.jobs|
    requires (s.pc.Visiting? || s.pc.Draining?) && s.pc.index == i && t.jobs == s.jobs[i := job]
    requires t.pc == Visiting(i + 1) || (t.pc.Draining? && t.pc.index == i && BatchMarked(t) && !job.drained)
    requires JobNoticed(t, job)
    ensures Inv(t)
  {
    forall j | j in t.jobs ensures JobNoticed(t, j) {
      if j != job {
        assert j in s.jobs;
        StillNoticed(s, t, j);
      }
    }
    FactoriesStillNoticed(s, t);
    hide Noticed, JobNoticed, NoWorse;
  }

  /** A visit changes only the job visited, which is not yet drained in this pass. */
  lemma JobStepsKeepInv(s: Loop, step: Step)
    requires step.Visited? || step.Receive? || step.Left?
    requires Enabled(s, step) && Inv(s)
    ensures Inv(Next(s, step))
  {
    var t, i := Next(s, step), s.pc.index;
    assert !s.jobs[i].drained;
    if t.pc == Visiting(i) {
      RemovalKeepsInv(s, t, i);
    } else {
      assert step.Left? ==> JobNoticed(t, t.jobs[i]);
      assert t.pc.Draining? ==> BatchMarked(t);
      hide Inv;
      UpdateKeepsInv(s, t, i, t.jobs[i]);
    }
  }

  lemma StepKeepsInv(s: Loop, step: Step)
    requires Enabled(s, step) && Inv(s)
    ensures Inv(Next(s, step))
  {
    hide Inv, Next, Enabled;
    match step
    case Clear => WorkerKeepsInv(s, step);
    case Take => WorkerKeepsInv(s, step);
    case CheckStop(_) => WorkerKeepsInv(s, step);
    case Decide(_) => WorkerKeepsInv(s, step);
    case Return(_) => WorkerKeepsInv(s, step);
    case Visited(_) => JobStepsKeepInv(s, step);
    case Receive => JobStepsKeepInv(s, step);
    case Left(_, _, _) => JobStepsKeepInv(s, step);
    case _ => SendersKeepInv(s, step);
  }

  lemma {:induction false} RunKeepsInv(steps: seq<Step>)
    requires Run(STARTED, steps)
    ensures Inv(After(STARTED, steps))
  {
    if steps != [] {
      RunKeepsInv(steps[..|steps| - 1]);
      StepKeepsInv(After(STARTED, steps[..|steps| - 1]), steps[|steps| - 1]);
      hide Inv, Next, Enabled;
    }
  }

  // ---------------------------------------------------------------- no lost wake-up

  predicate Sleeps(s: Loop) {
    s.pc.Polling? && s.pc.blocks
  }

  /** A wake is pending, or a sender still has to deliver one. */
  predicate WakeComing(s: Loop, c: Channel) {
    s.wake || Enqueued(c) in s.senders || Flagged(c) in s.senders
  }

  /** In every interleaving: when the worker sleeps with factories waiting, or with commands
      waiting for a job whose queue it drained in this pass, a wake is pending or coming. */
  lemma NoLostWake(steps: seq<Step>)
    requires Run(STARTED, steps) && Sleeps(After(STARTED, steps))
    ensures var s := After(STARTED, steps);
            && (Waiting(s, Factories) > 0 ==> WakeComing(s, Factories))
            && (forall j <- s.jobs :: j.drained && Waiting(s, Commands(j.id)) > 0 ==> WakeComing(s, Commands(j.id)))
  {
    RunKeepsInv(steps);
    var s := After(STARTED, steps);
    assert FactoriesDone(s);
    hide After, Run;
    forall j | j in s.jobs && j.drained && Waiting(s, Commands(j.id)) > 0 ensures WakeComing(s, Commands(j.id)) {
      assert JobNoticed(s, j);
    }
  }

  /** How many jobs the current pass has behind it. */
  function VisitedCount(s: Loop): nat {
    match s.pc
    case Visiting(i) => i
    case Draining(i, _) => i
    case Deciding => |s.jobs|
    case Polling(_, _) => |s.jobs|
    case _ => 0
  }

  ghost predicate BehindDrained(s: Loop) {
    forall k :: 0 <= k < VisitedCount(s) && k < |s.jobs| ==> s.jobs[k].drained
  }

  lemma VisitDrains(s: Loop, step: Step)
    requires (step.Visited? && !step.how.Skips?) || step.Receive? || step.Left?
    requires Enabled(s, step) && BehindDrained(s)
    ensures BehindDrained(Next(s, step))
  {
    var t, i := Next(s, step), s.pc.index;
    forall k | 0 <= k < VisitedCount(t) && k < |t.jobs| ensures t.jobs[k].drained {
      assert k < i ==> t.jobs[k] == s.jobs[k];
    }
  }

  lemma StepDrains(s: Loop, step: Step)
    requires Enabled(s, step) && BehindDrained(s) && !(step.Visited? && step.how.Skips?)
    ensures BehindDrained(Next(s, step))
  {
    hide BehindDrained;
    if step.Visited? || step.Receive? || step.Left? {
      VisitDrains(s, step);
    } else {
      OtherStepsDrain(s, step);
    }
  }

  lemma OtherStepsDrain(s: Loop, step: Step)
    requires Enabled(s, step) && BehindDrained(s) && !step.Visited? && !step.Receive? && !step.Left?
    ensures BehindDrained(Next(s, step))
  {
    SameOrNoneBehind(s, step);
    hide Next, Enabled;
  }

  /** A step that visits no job leaves the jobs alone, or has none behind it. */
  lemma SameOrNoneBehind(s: Loop, step: Step)
    requires Enabled(s, step) && !step.Visited? && !step.Receive? && !step.Left?
    ensures var t := Next(s, step);
            VisitedCount(t) == 0 || (t.jobs == s.jobs && MinI(VisitedCount(t), |t.jobs|) <= VisitedCount(s))
  {
    hide Earliest, Waiting, Immediate, Rotated, Undrained;
  }

  lemma {:induction false} RunDrains(steps: seq<Step>)
    requires Run(STARTED, steps) && forall step <- steps :: !(step.Visited? && step.how.Skips?)
    ensures BehindDrained(After(STARTED, steps))
  {
    if steps != [] {
      RunDrains(steps[..|steps| - 1]);
      assert steps[|steps| - 1] in steps;
      hide Next, Enabled, BehindDrained;
      StepDrains(After(STARTED, steps[..|steps| - 1]), steps[|steps| - 1]);
    }
  }

  /** As long as every visit reaches the drain, no queue at all is forgotten. */
  lemma NothingForgotten(steps: seq<Step>)
    requires Run(STARTED, steps) && Sleeps(After(STARTED, steps))
    requires forall step <- steps :: !(step.Visited? && step.how.Skips?)
    ensures var s := After(STARTED, steps);
            && (Waiting(s, Factories) > 0 ==> WakeComing(s, Factories))
            && (forall j <- s.jobs :: Waiting(s, Commands(j.id)) > 0 ==> WakeComing(s, Commands(j.id)))
  {
    NoLostWake(steps);
    RunDrains(steps);
    hide After, Run;
  }

  lemma {:induction false} EarliestBounds(jobs: seq<Job>)
    ensures Earliest(jobs).None? <==> jobs == []
    ensures forall j <- jobs :: Earliest(jobs).Some? && Earliest(jobs).value <= j.deadline
    ensures jobs != [] ==> exists j <- jobs :: j.deadline == Earliest(jobs).value
  {
    if jobs != [] {
      EarliestBounds(jobs[1..]);
      assert jobs == [jobs[0]] + jobs[1..];
      assert jobs[0] in jobs;
    }
  }

  /** The timeout the worker polls with is the earliest deadline its jobs have named, so what a
      skipped drain has left behind is asked to wait no longer than the deadline that step named. */
  lemma TimeoutIsEarliest(steps: seq<Step>)
    requires Run(STARTED, steps) && After(STARTED, steps).pc.Polling?
    ensures var s := After(STARTED, steps);
            && (s.jobs == [] <==> s.pc.until.None?)
            && (forall j <- s.jobs :: s.pc.until.Some? && s.pc.until.value <= j.deadline)
            && (s.pc.until.Some? ==> exists j <- s.jobs :: j.deadline == s.pc.until.value)
  {
    hide Next, Enabled, Earliest;
    EarliestBounds(After(STARTED, steps).jobs);
    PollingUntilEarliest(steps);
  }

  lemma {:induction false} PollingUntilEarliest(steps: seq<Step>)
    requires Run(STARTED, steps) && After(STARTED, steps).pc.Polling?
    ensures After(STARTED, steps).pc.until == Earliest(After(STARTED, steps).jobs)
  {
    hide Next, Enabled, Earliest;
    var front := steps[..|steps| - 1];
    if After(STARTED, front).pc.Polling? {
      PollingUntilEarliest(front);
    }
    StepKeepsDeadline(After(STARTED, front), steps[|steps| - 1]);
  }

  lemma StepKeepsDeadline(s: Loop, step: Step)
    requires Enabled(s, step) && (s.pc.Polling? ==> s.pc.until == Earliest(s.jobs))
    ensures Next(s, step).pc.Polling? ==> Next(s, step).pc.until == Earliest(Next(s, step).jobs)
  {
    hide Earliest, Waiting, Immediate;
  }

  // ---------------------------------------------------------------- the visit that skips the drain

  lemma Then(steps: seq<Step>, step: Step)
    requires Run(STARTED, steps) && Enabled(After(STARTED, steps), step)
    ensures Run(STARTED, steps + [step]) && After(STARTED, steps + [step]) == Next(After(STARTED, steps), step)
  {
    assert (steps + [step])[..|steps|] == steps;
    hide Next, Enabled;
  }

  predicate Leads(s: Loop, step: Step, t: Loop) {
    Enabled(s, step) && Next(s, step) == t
  }

  /** A run continued through given states. */
  predicate Continues(steps: seq<Step>, s: Loop) {
    Run(STARTED, steps) && After(STARTED, steps) == s
  }

  lemma Further(steps: seq<Step>, s: Loop, step: Step, t: Loop)
    requires Continues(steps, s) && Leads(s, step, t)
    ensures Continues(steps + [step], t)
  {
    Then(steps, step);
  }

  lemma Three(steps: seq<Step>, s: Loop, a: Step, b: Step, c: Step, t: Loop)
    requires Continues(steps, s) && Enabled(s, a) && Enabled(Next(s, a), b) && Leads(Next(Next(s, a), b), c, t)
    ensures Continues(steps + [a, b, c], t)
  {
    hide Continues;
    var u := Next(s, a);
    var v := Next(u, b);
    Further(steps, s, a, u);
    Further(steps + [a], u, b, v);
    Further(steps + [a] + [b], v, c, t);
    assert steps + [a] + [b] + [c] == steps + [a, b, c];
  }

  function OneJob(pc: Pc, notified: bool, wake: bool, commands: map<nat, nat>, senders: multiset<Sender>,
                  drained: bool, deadline: nat): Loop
  {
    Loop(pc, notified, wake, [], commands, senders, [Job(1, false, false, drained, deadline)], false)
  }

  // The run, every third state named.
  const STATE_1 := OneJob(Taking(1), false, false, map[], multiset{Enqueued(Factories)}, false, 0)
  const STATE_2 := OneJob(Visiting(1), false, false, map[], multiset{Enqueued(Factories)}, true, 50)
  const STATE_3 := OneJob(Polling(true, Some(50)), true, false, map[], multiset{Flagged(Factories)}, true, 50)
  const STATE_4 := OneJob(Polling(true, Some(50)), true, true, map[1 := 1], multiset{Flagged(Commands(1))}, true, 50)
  const STATE_5 := OneJob(Taking(0), false, false, map[1 := 1], multiset{}, false, 50)
  const STATE_6 := OneJob(Deciding, false, false, map[1 := 1], multiset{}, false, 100)
  const FORGOTTEN := OneJob(Polling(true, Some(100)), false, false, map[1 := 1], multiset{}, false, 100)

  lemma FirstFactory(steps: seq<Step>)
    requires Continues(steps, STARTED)
    ensures Continues(steps + [SendFactory(Builds(1)), Clear, Take], STATE_1)
  {
    hide Continues;
    Three(steps, STARTED, SendFactory(Builds(1)), Clear, Take, STATE_1);
  }

  lemma FirstVisit(steps: seq<Step>)
    requires Continues(steps, STATE_1)
    ensures Continues(steps + [Take, Visited(Drains), Left(false, false, 50)], STATE_2)
  {
    hide Continues;
    Three(steps, STATE_1, Take, Visited(Drains), Left(false, false, 50), STATE_2);
  }

  lemma FirstSleep(steps: seq<Step>)
    requires Continues(steps, STATE_2)
    ensures Continues(steps + [CheckStop(false), Decide(0), Flag(Factories)], STATE_3)
  {
    hide Continues;
    Three(steps, STATE_2, CheckStop(false), Decide(0), Flag(Factories), STATE_3);
  }

  lemma CommandSent(steps: seq<Step>)
    requires Continues(steps, STATE_3)
    ensures Continues(steps + [Wake(Factories), SendCommand(1), Flag(Commands(1))], STATE_4)
  {
    hide Continues;
    Three(steps, STATE_3, Wake(Factories), SendCommand(1), Flag(Commands(1)), STATE_4);
  }

  lemma SecondPass(steps: seq<Step>)
    requires Continues(steps, STATE_4)
    ensures Continues(steps + [Wake(Commands(1)), Return(true), Clear], STATE_5)
  {
    hide Continues;
    Three(steps, STATE_4, Wake(Commands(1)), Return(true), Clear, STATE_5);
  }

  lemma SecondVisit(steps: seq<Step>)
    requires Continues(steps, STATE_5)
    ensures Continues(steps + [Take, Visited(Skips(false, 100)), CheckStop(false)], STATE_6)
  {
    hide Continues;
    Three(steps, STATE_5, Take, Visited(Skips(false, 100)), CheckStop(false), STATE_6);
  }

  const LOST_1: seq<Step> := [SendFactory(Builds(1)), Clear, Take]
  const LOST_2 := LOST_1 + [Take, Visited(Drains), Left(false, false, 50)]
  const LOST_3 := LOST_2 + [CheckStop(false), Decide(0), Flag(Factories)]
  const LOST_4 := LOST_3 + [Wake(Factories), SendCommand(1), Flag(Commands(1))]
  const LOST_5 := LOST_4 + [Wake(Commands(1)), Return(true), Clear]
  const LOST_6 := LOST_5 + [Take, Visited(Skips(false, 100)), CheckStop(false)]
  const LOST := LOST_6 + [Decide(0)]

  lemma LostRun()
    ensures Continues(LOST_6, STATE_6)
  {
    assert Continues([], STARTED);
    assert [] + LOST_1 == LOST_1;
    hide Continues;
    FirstFactory([]);
    FirstVisit(LOST_1);
    FirstSleep(LOST_2);
    CommandSent(LOST_3);
    SecondPass(LOST_4);
    SecondVisit(LOST_5);
  }

  /** When an error makes a job's step return before its drain and the job is kept, a command whose
      sender has long finished is left behind: the worker polls with it waiting and no wake to come,
      with the deadline that step has named as its timeout. */
  lemma SkippedDrainForgets()
    ensures var s := After(STARTED, LOST);
            && Run(STARTED, LOST) && s.pc == Polling(true, Some(100))
            && s.jobs == [Job(1, false, false, false, 100)]
            && Waiting(s, Commands(1)) == 1 && !WakeComing(s, Commands(1))
  {
    LostRun();
    assert Leads(STATE_6, Decide(0), FORGOTTEN);
    hide After, Run;
    Further(LOST_6, STATE_6, Decide(0), FORGOTTEN);
  }
}
