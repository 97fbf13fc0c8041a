// The receipt queue: one worker claims the oldest queued job, prints it, and retries
// or parks it on failure. Jobs survive a crash.

module PrintQueue {
  import opened Sums

  const MAX_ATTEMPTS := 5

  datatype JobStatus = Queued | Printing | Printed | Parked

  // Ids are assigned by AUTOINCREMENT: a job is its place in the queue.
  datatype Job = Job(status: JobStatus, attempts: nat) {
    predicate Done() {
      status == Printed || status == Parked
    }
  }

  function FirstIn(jobs: seq<Job>, status: JobStatus): (i: nat)
    ensures i <= |jobs|
    ensures i < |jobs| ==> jobs[i].status == status
    ensures forall k :: 0 <= k < i ==> jobs[k].status != status
  {
    if jobs == [] then 0
    else
      var n := |jobs| - 1;
      var i := FirstIn(jobs[..n], status);
      if i < n then i else if jobs[n].status == status then n else |jobs|
  }

  function Claim(jobs: seq<Job>): seq<Job> {
    var i := FirstIn(jobs, Queued);
    if i < |jobs| then jobs[i := jobs[i].(status := Printing)] else jobs
  }

  // One printing attempt is over.
  function Finished(job: Job, printed: bool): Job {
    if printed then job.(status := Printed)
    else Job(if job.attempts + 1 >= MAX_ATTEMPTS then Parked else Queued, job.attempts + 1)
  }

  // One tick; loads says whether the claimed job and its order could be read.
  function Tick(jobs: seq<Job>, loads: bool, printed: bool): seq<Job> {
    if FirstIn(jobs, Queued) == |jobs| then jobs
    else
      var claimed := Claim(jobs);
      var id := FirstIn(claimed, Printing);
      if loads && id < |jobs| then claimed[id := Finished(claimed[id], printed)] else claimed
  }

  function Requeued(job: Job): Job {
    if job.status == Printing then job.(status := Queued) else job
  }

  function Recover(jobs: seq<Job>): seq<Job> {
    seq(|jobs|, i requires 0 <= i < |jobs| => Requeued(jobs[i]))
  }

  // ---- what every run keeps ----

  // Crash: power is lost after a claim, and the next boot recovers.
  datatype Event = NewJob | Ticked(printed: bool) | Crash

  function Step(jobs: seq<Job>, e: Event): seq<Job> {
    match e
    case NewJob => jobs + [Job(Queued, 0)]
    case Ticked(printed) => Tick(jobs, true, printed)
    case Crash => Recover(Claim(jobs))
  }

  function Run(jobs: seq<Job>, events: seq<Event>): seq<Job> {
    if events == [] then jobs else Step(Run(jobs, events[..|events| - 1]), events[|events| - 1])
  }

  // No job is being printed.
  predicate Idle(jobs: seq<Job>) {
    forall i :: 0 <= i < |jobs| ==> jobs[i].status != Printing
  }

  // First in, first out: what is printed or parked lies below everything queued.
  predicate InTurn(jobs: seq<Job>) {
    forall i, j :: 0 <= i < j < |jobs| && jobs[j].Done() ==> jobs[i].Done()
  }

  predicate Tries(jobs: seq<Job>) {
    forall i :: 0 <= i < |jobs| ==> if jobs[i].status == Parked then jobs[i].attempts == MAX_ATTEMPTS else jobs[i].attempts < MAX_ATTEMPTS
  }

  predicate Orderly(jobs: seq<Job>) {
    Idle(jobs) && InTurn(jobs) && Tries(jobs)
  }

  // While a job prints it is the only one, and everything below it is done.
  lemma ClaimedAlone(jobs: seq<Job>)
    requires Orderly(jobs)
    ensures var c := Claim(jobs); var i := FirstIn(jobs, Queued);
            && (forall k :: 0 <= k < |c| ==> (c[k].status == Printing <==> k == i))
            && (forall k :: 0 <= k < i ==> c[k].Done())
            && (i < |jobs| ==> FirstIn(c, Printing) == i)
  {
  }

  lemma TickEffect(jobs: seq<Job>, printed: bool)
    requires Orderly(jobs)
    ensures var i := FirstIn(jobs, Queued);
            Tick(jobs, true, printed) == if i == |jobs| then jobs else jobs[i := Finished(jobs[i], printed)]
  {
    var i := FirstIn(jobs, Queued);
    ClaimedAlone(jobs);
    if i < |jobs| {
      var claimed := jobs[i].(status := Printing);
      assert Finished(claimed, printed) == Finished(jobs[i], printed);
      Overwritten(jobs, i, claimed, Finished(jobs[i], printed));
    }
  }

  // After a crash exactly the interrupted jobs wait again, with the attempts they had.
  lemma RecoverWrites(jobs: seq<Job>)
    ensures |Recover(jobs)| == |jobs|
    ensures forall i :: 0 <= i < |jobs| ==>
              Recover(jobs)[i] == Job(if jobs[i].status == Printing then Queued else jobs[i].status, jobs[i].attempts)
  {
  }

  // A tick that prints, job by job: the first queued one is printed or has one more
  // failure, and rests after the fifth; no other job is written.
  lemma TickWrites(jobs: seq<Job>, printed: bool, i: nat)
    requires Orderly(jobs) && i < |jobs| && jobs[i].status == Queued && forall k :: 0 <= k < i ==> jobs[k].status != Queued
    ensures Tick(jobs, true, printed)
            == jobs[i := if printed then Job(Printed, jobs[i].attempts)
                         else Job(if jobs[i].attempts == 4 then Parked else Queued, jobs[i].attempts + 1)]
  {
    TickEffect(jobs, printed);
  }

  lemma Overwritten(jobs: seq<Job>, i: nat, a: Job, b: Job)
    requires i < |jobs|
    ensures jobs[i := a][i := b] == jobs[i := b]
  {
  }

  lemma StepOrderly(jobs: seq<Job>, e: Event)
    requires Orderly(jobs)
    ensures Orderly(Step(jobs, e))
  {
  }

  // Across retries, new jobs and crashes: jobs finish in order, none is left printing
  // between steps, and a job is parked exactly after its fifth attempt.
  lemma {:induction false} RunOrderly(events: seq<Event>)
    ensures Orderly(Run([], events))
  {
    if events != [] {
      RunOrderly(events[..|events| - 1]);
      StepOrderly(Run([], events[..|events| - 1]), events[|events| - 1]);
    }
  }

  // ---- progress ----

  function TriesLeft(): Job -> int { (job: Job) => if job.Done() then 0 else MAX_ATTEMPTS - job.attempts }

  function Pending(jobs: seq<Job>): int {
    Sum(jobs, TriesLeft())
  }

  // Every tick that finds a job uses up at least one of the attempts left.
  lemma TickProgress(jobs: seq<Job>, printed: bool)
    requires Orderly(jobs)
    ensures FirstIn(jobs, Queued) < |jobs| ==> 0 <= Pending(Tick(jobs, true, printed)) < Pending(jobs)
    ensures FirstIn(jobs, Queued) == |jobs| ==> Pending(jobs) == 0
  {
    var i := FirstIn(jobs, Queued);
    TickEffect(jobs, printed);
    if i < |jobs| {
      var job := Finished(jobs[i], printed);
      SumUpdated(jobs, i, job, TriesLeft());
      StepOrderly(jobs, Ticked(printed));
      SumNonNegative(Tick(jobs, true, printed), TriesLeft());
    } else {
      SumZero(jobs, TriesLeft());
    }
  }

  // Without new jobs, as many ticks as there are attempts left finish every job,
  // whatever the printer does.
  lemma {:induction false} QueueDrains(jobs: seq<Job>, outcomes: seq<bool>)
    requires Orderly(jobs) && |outcomes| >= Pending(jobs)
    ensures var events := seq(|outcomes|, i requires 0 <= i < |outcomes| => Ticked(outcomes[i]));
            forall k :: 0 <= k < |Run(jobs, events)| ==> Run(jobs, events)[k].Done()
  {
    var events := seq(|outcomes|, i requires 0 <= i < |outcomes| => Ticked(outcomes[i]));
    PendingFalls(jobs, events);
    var t := Run(jobs, events);
    if FirstIn(t, Queued) < |t| {
      TickProgress(t, true);
    }
  }

  predicate OnlyTicks(events: seq<Event>) {
    forall e :: e in events ==> e.Ticked?
  }

  lemma {:induction false} PendingFalls(jobs: seq<Job>, events: seq<Event>)
    requires Orderly(jobs) && OnlyTicks(events)
    ensures var t := Run(jobs, events);
            Orderly(t) && (Pending(t) <= Pending(jobs) - |events| || (Pending(t) == 0 && FirstIn(t, Queued) == |t|))
  {
    if events != [] {
      var n := |events| - 1;
      var rest := Run(jobs, events[..n]);
      assert forall e :: e in events[..n] ==> e in events;
      PendingFalls(jobs, events[..n]);
      assert events[n] in events;
      TickProgress(rest, events[n].printed);
      StepOrderly(rest, events[n]);
    }
  }

  // ---- a job that cannot be loaded ----

  // A tick leaves a job printing exactly when it claimed one it could not load.
  lemma IdleIffLoads(jobs: seq<Job>, loads: bool, printed: bool)
    requires Orderly(jobs)
    ensures Idle(Tick(jobs, loads, printed)) <==> loads || FirstIn(jobs, Queued) == |jobs|
  {
    ClaimedAlone(jobs);
    TickEffect(jobs, printed);
    if !loads && FirstIn(jobs, Queued) < |jobs| {
      assert Tick(jobs, loads, printed)[FirstIn(jobs, Queued)].status == Printing;
    }
  }

  // From then on the worker prints the stuck job and leaves the one it claims.
  lemma StuckJobBlocks()
    ensures var jobs := [Job(Queued, 0), Job(Queued, 0)];
            Tick(Tick(jobs, false, true), true, true) == [Job(Printed, 0), Job(Printing, 0)]
  {
  }

  // ---- the worker ----

  class Worker {
    var jobs: seq<Job>

    method RecoverJobs()
      modifies this
      ensures jobs == Recover(old(jobs))
    {
      ghost var was := jobs;
      for i := 0 to |jobs|
        invariant |jobs| == |was| && jobs[i..] == was[i..]
        invariant forall k :: 0 <= k < i ==> jobs[k] == Requeued(was[k])
      {
        assert jobs[i] == was[i..][0];
        if jobs[i].status == Printing {
          jobs := jobs[i := jobs[i].(status := Queued)];
        }
      }
    }

    method Enqueue() returns (id: nat)
      modifies this
      ensures id == |old(jobs)| && jobs == old(jobs) + [Job(Queued, 0)]
    {
      id := |jobs|;
      jobs := jobs + [Job(Queued, 0)];
    }

    // SELECT id ... WHERE status = ? ORDER BY id LIMIT 1.
    method Oldest(status: JobStatus) returns (i: nat)
      ensures i == FirstIn(jobs, status)
    {
      i := 0;
      while i < |jobs| && jobs[i].status != status
        invariant i <= |jobs| && forall k :: 0 <= k < i ==> jobs[k].status != status
      {
        i := i + 1;
      }
    }

    method TickOnce(loads: bool, printed: bool)
      modifies this
      ensures jobs == Tick(old(jobs), loads, printed)
    {
      var i := Oldest(Queued);
      if i == |jobs| {
        return;
      }
      jobs := jobs[i := jobs[i].(status := Printing)];
      assert jobs[i].status == Printing;
      var id := Oldest(Printing);
      if loads {
        PrintJob(id, printed);
      }
    }

    method PrintJob(id: nat, printed: bool)
      requires id < |jobs|
      modifies this
      ensures jobs == old(jobs)[id := Finished(old(jobs)[id], printed)]
    {
      if printed {
        jobs := jobs[id := jobs[id].(status := Printed)];
        return;
      }
      var attempts := jobs[id].attempts + 1;
      var status := Queued;
      if attempts >= MAX_ATTEMPTS {
        status := Parked;
      }
      jobs := jobs[id := Job(status, attempts)];
    }
  }
}
