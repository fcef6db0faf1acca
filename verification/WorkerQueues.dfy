/** Nothing handed to the worker is lost, repeated or reordered, and every pass gets round to all. */
module WorkerQueues {
  import opened Worker

  function Sent(steps: seq<Step>): seq<Factory> {
    if steps == [] then []
    else
      var last := steps[|steps| - 1];
      Sent(steps[..|steps| - 1]) + if last.SendFactory? then [last.factory] else []
  }

  /** The factories the worker has run, in the order it ran them. */
  function Taken(steps: seq<Step>): seq<Factory> {
    if steps == [] then []
    else
      var front := steps[..|steps| - 1];
      var s := After(STARTED, front);
      Taken(front)
      + if steps[|steps| - 1].Take? && s.pc.Taking? && s.pc.taken < 64 && s.factories != [] then [s.factories[0]]
        else []
  }

  function SentTo(steps: seq<Step>, job: nat): nat {
    if steps == [] then 0
    else SentTo(steps[..|steps| - 1], job) + if steps[|steps| - 1] == SendCommand(job) then 1 else 0
  }

  function ReceivedBy(steps: seq<Step>, job: nat): nat {
    if steps == [] then 0
    else
      var front := steps[..|steps| - 1];
      var s := After(STARTED, front);
      ReceivedBy(front, job)
      + if steps[|steps| - 1].Receive? && Enabled(s, Receive) && s.jobs[s.pc.index].id == job then 1 else 0
  }

  function Ids(jobs: seq<Job>): multiset<nat> {
    if jobs == [] then multiset{} else Ids(jobs[..|jobs| - 1]) + multiset{jobs[|jobs| - 1].id}
  }

  function BuiltBy(taken: seq<Factory>): multiset<nat> {
    if taken == [] then multiset{}
    else
      var last := taken[|taken| - 1];
      BuiltBy(taken[..|taken| - 1]) + if last.Builds? then multiset{last.job} else multiset{}
  }

  /** The job a step ends, if it ends one. */
  function Ending(s: Loop, step: Step): multiset<nat> {
    if (step == Visited(Ends) || (step.Left? && step.ends)) && Enabled(s, step) then multiset{s.jobs[s.pc.index].id}
    else multiset{}
  }

  function Ended(steps: seq<Step>): multiset<nat> {
    if steps == [] then multiset{}
    else Ended(steps[..|steps| - 1]) + Ending(After(STARTED, steps[..|steps| - 1]), steps[|steps| - 1])
  }

  // ---------------------------------------------------------------- multisets of jobs

  lemma {:induction false} IdsAppend(a: seq<Job>, b: seq<Job>)
    ensures Ids(a + b) == Ids(a) + Ids(b)
    decreases |b|
  {
    hide Ids;
    if b == [] {
      IdsOfNone();
      assert a + b == a;
    } else {
      var front, last := b[..|b| - 1], b[|b| - 1];
      assert b == front + [last];
      assert a + b == a + front + [last];
      IdsAppend(a, front);
      IdsSnoc(a + front, last);
      IdsSnoc(front, last);
      Summed(Ids(a), Ids(front), multiset{last.id});
    }
  }

  lemma Summed(x: multiset<nat>, y: multiset<nat>, z: multiset<nat>)
    ensures (x + y) + z == x + (y + z)
  {
  }

  lemma IdsOfNone()
    ensures Ids([]) == multiset{}
  {
  }

  lemma IdsSnoc(jobs: seq<Job>, j: Job)
    ensures Ids(jobs + [j]) == Ids(jobs) + multiset{j.id}
  {
    assert (jobs + [j])[..|jobs|] == jobs;
  }

  lemma IdsOfOne(j: Job)
    ensures Ids([j]) == multiset{j.id}
  {
    assert [j][..0] == [];
  }

  lemma IdsUpdated(jobs: seq<Job>, i: nat, j: Job)
    requires i < |jobs| && j.id == jobs[i].id
    ensures Ids(jobs[i := j]) == Ids(jobs)
  {
    hide Ids;
    assert jobs == jobs[..i] + [jobs[i]] + jobs[i + 1..];
    assert jobs[i := j] == jobs[..i] + [j] + jobs[i + 1..];
    IdsAppend(jobs[..i] + [jobs[i]], jobs[i + 1..]);
    IdsAppend(jobs[..i] + [j], jobs[i + 1..]);
    IdsAppend(jobs[..i], [jobs[i]]);
    IdsAppend(jobs[..i], [j]);
    IdsOfOne(jobs[i]);
    IdsOfOne(j);
  }

  lemma IdsWithout(jobs: seq<Job>, i: nat)
    requires i < |jobs|
    ensures Ids(Without(jobs, i)) + multiset{jobs[i].id} == Ids(jobs)
  {
    hide Ids;
    assert jobs == jobs[..i] + [jobs[i]] + jobs[i + 1..];
    IdsAppend(jobs[..i] + [jobs[i]], jobs[i + 1..]);
    IdsAppend(jobs[..i], [jobs[i]]);
    IdsAppend(jobs[..i], jobs[i + 1..]);
    IdsOfOne(jobs[i]);
  }

  lemma IdsRotated(jobs: seq<Job>)
    ensures Ids(Rotated(jobs)) == Ids(jobs)
  {
    if |jobs| > 1 {
      assert jobs == [jobs[0]] + jobs[1..];
      IdsAppend([jobs[0]], jobs[1..]);
      IdsAppend(jobs[1..], [jobs[0]]);
    }
  }

  lemma {:induction false} IdsUndrained(jobs: seq<Job>)
    ensures Ids(Undrained(jobs)) == Ids(jobs)
  {
    if jobs != [] {
      var n := |jobs| - 1;
      IdsUndrained(jobs[..n]);
      assert Undrained(jobs)[..n] == Undrained(jobs[..n]);
    }
  }

  // ---------------------------------------------------------------- conservation

  /** The job a step adds, if it builds one. */
  function Building(s: Loop, step: Step): multiset<nat> {
    if step.Take? && s.pc.Taking? && s.pc.taken < 64 && s.factories != [] && s.factories[0].Builds?
    then multiset{s.factories[0].job} else multiset{}
  }

  lemma TakeKeepsJobs(s: Loop)
    requires Enabled(s, Take)
    ensures Ids(Next(s, Take).jobs) == Ids(s.jobs) + Building(s, Take) && Ending(s, Take) == multiset{}
  {
    hide Ids;
    IdsRotated(s.jobs);
    assert s.jobs + [] == s.jobs;
    if s.pc.taken < 64 && s.factories != [] && s.factories[0].Builds? {
      var j := Job(s.factories[0].job, false, false, false, 0);
      IdsAppend(s.jobs, [j]);
      IdsOfOne(j);
    }
  }

  lemma VisitKeepsJobs(s: Loop, how: Visit)
    requires Enabled(s, Visited(how))
    ensures Ids(Next(s, Visited(how)).jobs) + Ending(s, Visited(how)) == Ids(s.jobs)
  {
    hide Ids, Without;
    if how.Ends? {
      IdsWithout(s.jobs, s.pc.index);
    } else {
      IdsUpdated(s.jobs, s.pc.index, Next(s, Visited(how)).jobs[s.pc.index]);
    }
  }

  lemma LeaveKeepsJobs(s: Loop, ends: bool, busy: bool, deadline: nat)
    requires Enabled(s, Left(ends, busy, deadline))
    ensures var step := Left(ends, busy, deadline); Ids(Next(s, step).jobs) + Ending(s, step) == Ids(s.jobs)
  {
    hide Ids, Without, Waiting;
    if ends {
      IdsWithout(s.jobs, s.pc.index);
    } else {
      IdsUpdated(s.jobs, s.pc.index, Next(s, Left(ends, busy, deadline)).jobs[s.pc.index]);
    }
  }

  lemma ReceiveKeepsJobs(s: Loop)
    requires Enabled(s, Receive)
    ensures Ids(Next(s, Receive).jobs) == Ids(s.jobs)
  {
    hide Ids, Waiting;
    IdsUpdated(s.jobs, s.pc.index, Next(s, Receive).jobs[s.pc.index]);
  }

  lemma ClearKeepsJobs(s: Loop)
    requires Enabled(s, Clear)
    ensures Ids(Next(s, Clear).jobs) == Ids(s.jobs)
  {
    hide Ids;
    IdsUndrained(s.jobs);
  }

  lemma OtherKeepsJobs(s: Loop, step: Step)
    requires Enabled(s, step)
    requires !step.Clear? && !step.Take? && !step.Visited? && !step.Receive? && !step.Left?
    ensures Next(s, step).jobs == s.jobs && Ending(s, step) == multiset{} == Building(s, step)
  {
    hide Earliest, Waiting;
  }

  lemma StepKeepsJobs(s: Loop, step: Step)
    requires Enabled(s, step)
    ensures Ids(Next(s, step).jobs) + Ending(s, step) == Ids(s.jobs) + Building(s, step)
  {
    hide Ids, Next, Waiting, Enabled;
    match step
    case Clear => ClearKeepsJobs(s);
    case Take => TakeKeepsJobs(s);
    case Visited(how) => VisitKeepsJobs(s, how);
    case Receive => ReceiveKeepsJobs(s);
    case Left(ends, busy, deadline) => LeaveKeepsJobs(s, ends, busy, deadline);
    case _ => OtherKeepsJobs(s, step);
  }

  lemma {:induction false} FactoriesConserved(steps: seq<Step>)
    requires Run(STARTED, steps)
    ensures Taken(steps) + After(STARTED, steps).factories == Sent(steps)
  {
    hide Enabled, Next;
    if steps != [] {
      var front, step := steps[..|steps| - 1], steps[|steps| - 1];
      FactoriesConserved(front);
      FactoriesMove(After(STARTED, front), step, Taken(front), Sent(front));
      assert Taken(front) + [] == Taken(front);
    }
  }

  lemma {:induction false} CommandsConserved(steps: seq<Step>, job: nat)
    requires Run(STARTED, steps)
    ensures ReceivedBy(steps, job) + Waiting(After(STARTED, steps), Commands(job)) == SentTo(steps, job)
  {
    hide Next;
    if steps != [] {
      var front := steps[..|steps| - 1];
      CommandsConserved(front, job);
      CommandsMove(After(STARTED, front), steps[|steps| - 1], job);
    }
  }

  lemma {:induction false} JobsConserved(steps: seq<Step>)
    requires Run(STARTED, steps)
    ensures Ids(After(STARTED, steps).jobs) + Ended(steps) == BuiltBy(Taken(steps))
  {
    hide Next, Ids, BuiltBy, Ending, Enabled;
    if steps != [] {
      var front, step := steps[..|steps| - 1], steps[|steps| - 1];
      var s := After(STARTED, front);
      JobsConserved(front);
      StepKeepsJobs(s, step);
      assert Taken(front) + [] == Taken(front);
      if step.Take? && s.pc.Taking? && s.pc.taken < 64 && s.factories != [] {
        BuiltAppend(Taken(front), s.factories[0]);
      }
      Balance(Ids(After(STARTED, steps).jobs), Ids(s.jobs), Ended(front), Ending(s, step), Building(s, step),
              BuiltBy(Taken(front)));
    } else {
      NoneYet();
    }
  }

  lemma Balance(after: multiset<nat>, before: multiset<nat>, ended: multiset<nat>, ending: multiset<nat>,
                building: multiset<nat>, built: multiset<nat>)
    requires after + ending == before + building && before + ended == built
    ensures after + (ended + ending) == built + building
  {
    assert after + (ended + ending) == (after + ending) + ended;
    assert (before + building) + ended == (before + ended) + building;
  }

  lemma NoneYet()
    ensures Ids(STARTED.jobs) == multiset{} == BuiltBy([])
  {
  }

  /** Over every interleaving: the factories run are the ones sent, in order, up to those waiting;
      the commands each job has received and those waiting for it are the ones sent to it; and the
      jobs there are, with those that have ended, are the ones built. */
  lemma QueuesConserved(steps: seq<Step>, job: nat)
    requires Run(STARTED, steps)
    ensures var s := After(STARTED, steps);
            && Taken(steps) + s.factories == Sent(steps)
            && ReceivedBy(steps, job) + Waiting(s, Commands(job)) == SentTo(steps, job)
            && Ids(s.jobs) + Ended(steps) == BuiltBy(Taken(steps))
  {
    hide Taken, Sent, ReceivedBy, SentTo, Ids, Ended, BuiltBy, Waiting, After, Run;
    FactoriesConserved(steps);
    CommandsConserved(steps, job);
    JobsConserved(steps);
  }

  lemma BuiltAppend(taken: seq<Factory>, f: Factory)
    ensures BuiltBy(taken + [f]) == BuiltBy(taken) + if f.Builds? then multiset{f.job} else multiset{}
  {
    assert (taken + [f])[..|taken|] == taken;
  }

  lemma FactoriesMove(s: Loop, step: Step, taken: seq<Factory>, sent: seq<Factory>)
    requires Enabled(s, step) && taken + s.factories == sent
    ensures taken
            + (if step.Take? && s.pc.Taking? && s.pc.taken < 64 && s.factories != [] then [s.factories[0]] else [])
            + Next(s, step).factories
            == sent + if step.SendFactory? then [step.factory] else []
  {
    FactoriesNext(s, step);
    hide Next, Enabled;
    if step.Take? && s.pc.Taking? && s.pc.taken < 64 && s.factories != [] {
      assert s.factories == [s.factories[0]] + s.factories[1..];
      assert taken + [s.factories[0]] + s.factories[1..] == taken + s.factories;
    } else {
      assert taken + [] == taken;
    }
  }

  lemma FactoriesNext(s: Loop, step: Step)
    requires Enabled(s, step)
    ensures Next(s, step).factories
         == if step.Take? && s.pc.Taking? && s.pc.taken < 64 && s.factories != [] then s.factories[1..]
            else s.factories + if step.SendFactory? then [step.factory] else []
  {
    hide Earliest, Waiting;
    assert s.factories + [] == s.factories;
  }

  lemma CommandsMove(s: Loop, step: Step, job: nat)
    requires Enabled(s, step)
    ensures Waiting(Next(s, step), Commands(job)) + (if step.Receive? && s.jobs[s.pc.index].id == job then 1 else 0)
         == Waiting(s, Commands(job)) + (if step == SendCommand(job) then 1 else 0)
  {
    hide Earliest;
  }

  // ---------------------------------------------------------------- one pass

  /** Jobs visited, and jobs ended, since the pass began. */
  function VisitsInPass(steps: seq<Step>): nat {
    if steps == [] || steps[|steps| - 1].Clear? then 0
    else VisitsInPass(steps[..|steps| - 1]) + if steps[|steps| - 1].Visited? then 1 else 0
  }

  function EndsInPass(steps: seq<Step>): nat {
    if steps == [] || steps[|steps| - 1].Clear? then 0
    else
      EndsInPass(steps[..|steps| - 1])
      + if steps[|steps| - 1] == Visited(Ends) || (steps[|steps| - 1].Left? && steps[|steps| - 1].ends) then 1 else 0
  }

  function Progressed(s: Loop): nat {
    match s.pc
    case Visiting(i) => i
    case Draining(i, _) => i + 1
    case Deciding => |s.jobs|
    case _ => 0
  }

  predicate Keeps(s: Loop, visits: nat, ends: nat) {
    && (s.pc.Taking? ==> visits == ends == 0)
    && (s.pc.Visiting? || s.pc.Draining? ==> visits == Progressed(s) + ends && Progressed(s) <= |s.jobs|)
    && (s.pc.Deciding? ==> visits == |s.jobs| + ends)
  }

  /** Where a step of the worker leads, and how many jobs there are then. */
  lemma VisitMoves(s: Loop, step: Step)
    requires Enabled(s, step) && (step.Visited? || step.Receive? || step.Left?)
    ensures var t, ended := Next(s, step), step == Visited(Ends) || (step.Left? && step.ends);
            && (t.pc.Visiting? || t.pc.Draining?) && s.pc.index < |s.jobs|
            && |t.jobs| == |s.jobs| - (if ended then 1 else 0)
            && Progressed(t) == Progressed(s) + (if step.Visited? then 1 else 0) - (if ended then 1 else 0)
  {
    hide Waiting;
  }

  lemma PassMoves(s: Loop, step: Step)
    requires Enabled(s, step) && (step.Take? || step.Clear? || step.CheckStop? || step.Decide? || step.Return?)
    ensures var t := Next(s, step);
            && (t.pc.Taking? ==> step.Take? || step.Clear?)
            && (t.pc.Visiting? || t.pc.Draining? ==> step.Take? && Progressed(t) == 0)
            && (t.pc.Deciding? ==> step.CheckStop? && t.jobs == s.jobs && Progressed(s) >= |s.jobs|)
  {
    hide Earliest, Immediate, Undrained;
  }

  lemma SendMoves(s: Loop, step: Step)
    requires Enabled(s, step) && !step.Visited? && !step.Receive? && !step.Left?
    requires !step.Take? && !step.Clear? && !step.CheckStop? && !step.Decide? && !step.Return?
    ensures Next(s, step).pc == s.pc && Next(s, step).jobs == s.jobs
  {
    hide Waiting;
  }

  lemma StepVisits(s: Loop, step: Step, visits: nat, ends: nat)
    requires Enabled(s, step) && Keeps(s, visits, ends)
    ensures var ended := step == Visited(Ends) || (step.Left? && step.ends);
            Keeps(Next(s, step), if step.Clear? then 0 else visits + if step.Visited? then 1 else 0,
                  if step.Clear? then 0 else ends + if ended then 1 else 0)
  {
    StepsFrom(s, step);
    hide Next, Enabled;
    if step.Visited? || step.Receive? || step.Left? {
      VisitMoves(s, step);
    } else if step.Take? || step.Clear? || step.CheckStop? || step.Decide? || step.Return? {
      PassMoves(s, step);
    } else {
      SendMoves(s, step);
    }
  }

  lemma StepsFrom(s: Loop, step: Step)
    requires Enabled(s, step)
    ensures step.Take? ==> s.pc.Taking?
    ensures step.CheckStop? ==> s.pc.Visiting?
    ensures step.Visited? ==> s.pc.Visiting?
    ensures step.Receive? || step.Left? ==> s.pc.Draining?
  {
    hide Waiting;
  }

  /** Over every interleaving each pass visits every job exactly once before the worker decides how
      long to sleep. */
  lemma {:induction false} EveryJobVisited(steps: seq<Step>)
    requires Run(STARTED, steps)
    ensures var s := After(STARTED, steps);
            && (s.pc.Taking? ==> VisitsInPass(steps) == EndsInPass(steps) == 0)
            && (s.pc.Visiting? || s.pc.Draining? ==>
                  VisitsInPass(steps) == Progressed(s) + EndsInPass(steps) && Progressed(s) <= |s.jobs|)
            && (s.pc.Deciding? ==> VisitsInPass(steps) == |s.jobs| + EndsInPass(steps))
  {
    hide Next, Enabled;
    if steps != [] {
      var front := steps[..|steps| - 1];
      EveryJobVisited(front);
      StepVisits(After(STARTED, front), steps[|steps| - 1], VisitsInPass(front), EndsInPass(front));
    }
  }

  /** The worker leaves the factories when it has run 64 or found none left, and a job's commands when
      it has taken 32 or found none left; it notes that there may be more with the last of a full batch. */
  lemma BatchLimits(s: Loop, step: Step)
    requires Enabled(s, step)
    ensures step.Take? && s.pc.taken <= 64 ==>
              (Next(s, step).pc.Visiting? <==> s.pc.taken == 64 || s.factories == [])
    ensures step.Take? && Next(s, step).pc.Taking? ==> (Next(s, step).factoryMore <==> s.pc.taken == 63)
    ensures step.Receive? ==> s.pc.taken < 32 && Waiting(s, Commands(s.jobs[s.pc.index].id)) > 0
    ensures step.Receive? ==> (Next(s, step).jobs[s.pc.index].more <==> s.pc.taken == 31)
    ensures step.Left? ==> s.pc.taken >= 32 || Waiting(s, Commands(s.jobs[s.pc.index].id)) == 0
  {
    hide Earliest, Waiting;
  }

  /** The worker sleeps exactly when no batch was left full, nobody has notified it, no job has more to
      do, and every job's deadline is still to come. */
  lemma SleepsIff(s: Loop, now: nat)
    requires Enabled(s, Decide(now))
    ensures Next(s, Decide(now)).pc.blocks
       <==> && !s.factoryMore && !s.notified
            && forall j <- s.jobs :: !j.more && !j.busy && j.deadline > now
  {
    EarliestBounds(s.jobs);
    hide Earliest;
  }
}
