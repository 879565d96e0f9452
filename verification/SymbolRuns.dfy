/** Every order of completion gives the same clean-ups: one per tuple of files whose dumps all came back. */
module SymbolRuns {
  import opened Common
  import opened JobPoolSpec
  import opened SymbolStore

  /** The pool and its history: tuples given to the dump (with or without clean-up), files given to the Mac
      pre-processing, jobs that came back with a result, in order, or with an exception, futures handed out in order. */
  datatype System = System(
    pool: Pool,
    tuples: map<Files, bool>,
    macs: set<string>,
    returned: seq<Job>,
    raised: set<Job>,
    order: seq<Future>,
    ran: seq<Ran>,
    keyError: bool)

  datatype Event = Dumps(files: Files, after: bool) | PreProcesses(file: string) | Returns(future: Future)

  function Initial(archs: nat): System {
    System(Pool(archs, map[], 0, map[]), map[], {}, [], {}, [], [], false)
  }

  /** No tuple is submitted a second time, directly or by a pre-processed file. */
  predicate Enabled(s: System, e: Event) {
    match e
    case Dumps(files, _) => files !in s.tuples && forall file :: file in s.macs ==> Bundle(file) != files
    case PreProcesses(file) => file !in s.macs && Bundle(file) !in s.tuples
    case Returns(f) => f in s.pool.jobs
  }

  function Step(s: System, e: Event, outcomes: JobOutcomes): System
    requires Enabled(s, e)
  {
    match e
    case Dumps(files, after) => s.(pool := ProcessFiles(s.pool, files, after), tuples := s.tuples[files := after])
    case PreProcesses(file) => s.(pool := Submit(s.pool, Mac(file)), macs := s.macs + {file})
    case Returns(f) =>
      var job, turn := s.pool.jobs[f], Return(s.pool, f, ByJob(outcomes));
      s.(pool := turn.pool, order := s.order + [f], ran := s.ran + turn.ran, keyError := s.keyError || turn.keyError,
         raised := if outcomes(job).Raised? then s.raised + {job} else s.raised,
         returned := if outcomes(job).Raised? then s.returned else s.returned + [job],
         tuples := if job.Mac? && outcomes(job) == Finished(true) then s.tuples[Bundle(job.file) := true] else s.tuples)
  }

  /** The job was given to the pool at some time. */
  predicate Submitted(s: System, job: Job) {
    match job
    case Mac(file) => file in s.macs
    case Dump(files, arch, after) => files in s.tuples && arch < s.pool.archs && after == s.tuples[files]
  }

  /** Every submitted job is either pending, or came back, or failed. */
  predicate JobAgrees(s: System, job: Job, outcomes: JobOutcomes) {
    && (Submitted(s, job) <==> job in s.pool.jobs.Values || job in s.returned || job in s.raised)
    && (job in s.pool.jobs.Values ==> job !in s.returned && job !in s.raised)
    && (job in s.returned ==> outcomes(job).Finished?)
    && (job in s.raised ==> outcomes(job).Raised?)
  }

  predicate JobsDiffer(jobs: map<Future, Job>) {
    forall f, g :: f in jobs && g in jobs && f != g ==> jobs[f] != jobs[g]
  }

  /** The architectures of a tuple that came back. */
  function Done(s: System, files: Files): set<nat>
    requires files in s.tuples
  {
    set arch: nat | arch < s.pool.archs && Dump(files, arch, s.tuples[files]) in s.returned
  }

  function RunsOf(ran: seq<Ran>, files: Files): nat {
    if ran == [] then 0
    else RunsOf(ran[..|ran| - 1], files) + if ran[|ran| - 1].files == files then 1 else 0
  }

  /** The counter of a tuple and the number of its clean-ups are functions of what came back. */
  predicate TupleAgrees(s: System, files: Files) {
    var n := s.pool.archs;
    if files !in s.tuples then files !in s.pool.record && RunsOf(s.ran, files) == 0
    else
      && (files in s.pool.record <==> |Done(s, files)| < n)
      && (files in s.pool.record ==> s.pool.record[files] == |Done(s, files)|)
      && RunsOf(s.ran, files) == if s.tuples[files] && n > 0 && |Done(s, files)| == n then 1 else 0
  }

  /** A bundle is dumped exactly if its file was pre-processed successfully. */
  predicate MacAgrees(s: System, file: string, outcomes: JobOutcomes) {
    file in s.macs ==>
      && (Bundle(file) in s.tuples <==> Mac(file) in s.returned && outcomes(Mac(file)) == Finished(true))
      && (Bundle(file) in s.tuples ==> s.tuples[Bundle(file)])
  }

  ghost predicate Agrees(s: System, outcomes: JobOutcomes) {
    && !s.keyError
    && FuturesAreNew(s.pool) && JobsDiffer(s.pool.jobs)
    && (forall job :: JobAgrees(s, job, outcomes))
    && (forall files :: TupleAgrees(s, files))
    && (forall file :: MacAgrees(s, file, outcomes))
  }

  lemma {:induction false} ArchsSubmitted(p: Pool, files: Files, after: bool, k: nat)
    requires FuturesAreNew(p) && k <= p.archs
    ensures var p' := SubmitArchs(p, files, after, k);
            && p'.archs == p.archs && p'.next == p.next + k && FuturesAreNew(p')
            && p'.record == (if k == 0 then p.record else p.record[files := 0])
            && (forall f: Future :: f in p'.jobs <==> f in p.jobs || p.next <= f < p.next + k)
            && (forall f: Future :: f in p'.jobs ==>
                  p'.jobs[f] == if f in p.jobs then p.jobs[f] else Dump(files, f - p.next, after))
  {
    if k > 0 { ArchsSubmitted(p, files, after, k - 1); }
  }

  /** The pool after all architectures of a new tuple were submitted. */
  lemma DumpsAdded(p: Pool, files: Files, after: bool)
    requires FuturesAreNew(p) && JobsDiffer(p.jobs)
    requires forall arch :: Dump(files, arch, after) !in p.jobs.Values
    ensures var p' := ProcessFiles(p, files, after);
            && p'.archs == p.archs && FuturesAreNew(p') && JobsDiffer(p'.jobs) && p'.next >= p.next
            && p'.record == (if p.archs == 0 then p.record else p.record[files := 0])
            && (forall job :: job in p'.jobs.Values <==>
                  job in p.jobs.Values || (job.Dump? && job.files == files && job.after == after && job.arch < p.archs))
  {
    ArchsSubmitted(p, files, after, p.archs);
    var p' := ProcessFiles(p, files, after);
    forall f, g | f in p'.jobs && g in p'.jobs && f != g ensures p'.jobs[f] != p'.jobs[g] {
      if f in p.jobs && g !in p.jobs { assert p.jobs[f] in p.jobs.Values; }
      if g in p.jobs && f !in p.jobs { assert p.jobs[g] in p.jobs.Values; }
    }
    forall job | job in p.jobs.Values ensures job in p'.jobs.Values {
      var f :| f in p.jobs && p.jobs[f] == job;
      assert p'.jobs[f] == job;
    }
    forall job: Job | job.Dump? && job.files == files && job.after == after && job.arch < p.archs
      ensures job in p'.jobs.Values
    {
      assert p'.jobs[p.next + job.arch] == job;
    }
    forall job | job in p'.jobs.Values && job !in p.jobs.Values
      ensures job.Dump? && job.files == files && job.after == after && job.arch < p.archs
    {
      var f :| f in p'.jobs && p'.jobs[f] == job;
    }
  }

  /** A tuple that is new to the pool and its history. */
  lemma DumpsKeepAgreement(s: System, e: Event, outcomes: JobOutcomes)
    requires Agrees(s, outcomes) && e.Dumps? && Enabled(s, e)
    ensures Agrees(Step(s, e, outcomes), outcomes)
  {
    var files, after, s' := e.files, e.after, Step(s, e, outcomes);
    assert TupleAgrees(s, files);
    forall arch ensures Dump(files, arch, after) !in s.pool.jobs.Values && Dump(files, arch, after) !in s.returned {
      assert JobAgrees(s, Dump(files, arch, after), outcomes);
    }
    DumpsAdded(s.pool, files, after);
    forall job ensures JobAgrees(s', job, outcomes) { assert JobAgrees(s, job, outcomes); }
    forall other ensures TupleAgrees(s', other) {
      assert TupleAgrees(s, other);
      if other == files {
        assert Done(s', other) == {};
      } else if other in s.tuples {
        assert Done(s', other) == Done(s, other);
      }
    }
    forall file ensures MacAgrees(s', file, outcomes) { assert MacAgrees(s, file, outcomes); }
  }

  lemma PreProcessKeepsAgreement(s: System, e: Event, outcomes: JobOutcomes)
    requires Agrees(s, outcomes) && e.PreProcesses? && Enabled(s, e)
    ensures Agrees(Step(s, e, outcomes), outcomes)
  {
    var s' := Step(s, e, outcomes);
    var p, p' := s.pool, s'.pool;
    assert JobAgrees(s, Mac(e.file), outcomes);
    forall job ensures job in p'.jobs.Values <==> job in p.jobs.Values || job == Mac(e.file) {
      if job in p.jobs.Values {
        var f :| f in p.jobs && p.jobs[f] == job;
        assert p'.jobs[f] == job;
      }
      assert p'.jobs[p.next] == Mac(e.file);
    }
    assert JobsDiffer(p'.jobs) by {
      forall f | f in p.jobs ensures p.jobs[f] != Mac(e.file) { assert p.jobs[f] in p.jobs.Values; }
    }
    forall job ensures JobAgrees(s', job, outcomes) { assert JobAgrees(s, job, outcomes); }
    forall files ensures TupleAgrees(s', files) {
      assert TupleAgrees(s, files);
      if files in s.tuples { assert Done(s', files) == Done(s, files); }
    }
    forall file ensures MacAgrees(s', file, outcomes) { assert MacAgrees(s, file, outcomes); }
  }

  /** Without its future, a job is no longer pending, and all others are. */
  lemma OneLess(jobs: map<Future, Job>, f: Future)
    requires f in jobs && JobsDiffer(jobs)
    ensures JobsDiffer(jobs - {f})
    ensures forall job :: job in (jobs - {f}).Values <==> job in jobs.Values && job != jobs[f]
  {
    forall job | job in jobs.Values && job != jobs[f] ensures job in (jobs - {f}).Values {
      var g :| g in jobs && jobs[g] == job;
      assert (jobs - {f})[g] == job;
    }
  }

  lemma RaisedKeepsAgreement(s: System, f: Future, outcomes: JobOutcomes)
    requires Agrees(s, outcomes) && f in s.pool.jobs && outcomes(s.pool.jobs[f]).Raised?
    ensures Agrees(Step(s, Returns(f), outcomes), outcomes)
  {
    var s' := Step(s, Returns(f), outcomes);
    OneLess(s.pool.jobs, f);
    assert s.pool.jobs[f] in s.pool.jobs.Values;
    assert s'.ran == s.ran;
    forall job ensures JobAgrees(s', job, outcomes) { assert JobAgrees(s, job, outcomes); }
    forall files ensures TupleAgrees(s', files) {
      assert TupleAgrees(s, files);
      if files in s.tuples { assert Done(s', files) == Done(s, files); }
    }
    forall file ensures MacAgrees(s', file, outcomes) { assert MacAgrees(s, file, outcomes); }
  }

  lemma RunsOfAppend(ran: seq<Ran>, more: seq<Ran>, files: Files)
    requires |more| <= 1
    ensures RunsOf(ran + more, files) == RunsOf(ran, files) + if |more| == 1 && more[0].files == files then 1 else 0
  {
    if more == [] { assert ran + more == ran; } else { assert (ran + more)[..|ran|] == ran; }
  }

  lemma {:induction false} BoundedSetSize(archs: set<nat>, n: nat)
    requires forall arch :: arch in archs ==> arch < n
    ensures |archs| <= n
    ensures |archs| == n <==> forall arch: nat :: arch < n ==> arch in archs
  {
    if n == 0 {
      assert archs == {};
    } else {
      BoundedSetSize(archs - {n - 1}, n - 1);
    }
  }

  /** A dump that comes back is counted, and the last one of its tuple runs the clean-up. */
  lemma DumpKeepsTuple(s: System, f: Future, outcomes: JobOutcomes, files: Files)
    requires Agrees(s, outcomes) && f in s.pool.jobs && outcomes(s.pool.jobs[f]).Finished? && s.pool.jobs[f].Dump?
    ensures TupleAgrees(Step(s, Returns(f), outcomes), files) && !Step(s, Returns(f), outcomes).keyError
  {
    var s', job, status := Step(s, Returns(f), outcomes), s.pool.jobs[f], outcomes(s.pool.jobs[f]).status;
    assert job in s.pool.jobs.Values;
    assert JobAgrees(s, job, outcomes) && TupleAgrees(s, files) && TupleAgrees(s, job.files);
    var done := Done(s, job.files);
    assert job.arch !in done && done + {job.arch} == Done(s', job.files);
    BoundedSetSize(Done(s', job.files), s.pool.archs);
    assert |Done(s', job.files)| == |done| + 1;
    RunsOfAppend(s.ran, Return(s.pool, f, ByJob(outcomes)).ran, files);
    if files != job.files && files in s.tuples { assert Done(s', files) == Done(s, files); }
  }

  lemma DumpKeepsAgreement(s: System, f: Future, outcomes: JobOutcomes)
    requires Agrees(s, outcomes) && f in s.pool.jobs && outcomes(s.pool.jobs[f]).Finished? && s.pool.jobs[f].Dump?
    ensures Agrees(Step(s, Returns(f), outcomes), outcomes)
  {
    var s' := Step(s, Returns(f), outcomes);
    OneLess(s.pool.jobs, f);
    assert s.pool.jobs[f] in s.pool.jobs.Values;
    forall job ensures JobAgrees(s', job, outcomes) { assert JobAgrees(s, job, outcomes); }
    forall files ensures TupleAgrees(s', files) && !s'.keyError { DumpKeepsTuple(s, f, outcomes, files); }
    assert !s'.keyError by { DumpKeepsTuple(s, f, outcomes, []); }
    forall file ensures MacAgrees(s', file, outcomes) { assert MacAgrees(s, file, outcomes); }
  }

  /** A pre-processed file has its bundle dumped, once. */
  lemma MacKeepsAgreement(s: System, f: Future, outcomes: JobOutcomes)
    requires Agrees(s, outcomes) && f in s.pool.jobs && outcomes(s.pool.jobs[f]).Finished? && s.pool.jobs[f].Mac?
    ensures Agrees(Step(s, Returns(f), outcomes), outcomes)
  {
    var s', file, bundle := Step(s, Returns(f), outcomes), s.pool.jobs[f].file, Bundle(s.pool.jobs[f].file);
    var rest := s.pool.(jobs := s.pool.jobs - {f});
    OneLess(s.pool.jobs, f);
    assert Mac(file) in s.pool.jobs.Values;
    assert JobAgrees(s, Mac(file), outcomes) && MacAgrees(s, file, outcomes) && TupleAgrees(s, bundle);
    assert bundle !in s.tuples;
    forall arch ensures Dump(bundle, arch, true) !in s.pool.jobs.Values && Dump(bundle, arch, true) !in s.returned {
      assert JobAgrees(s, Dump(bundle, arch, true), outcomes);
    }
    if outcomes(Mac(file)).status { DumpsAdded(rest, bundle, true); }
    assert s'.ran == s.ran;
    forall job ensures JobAgrees(s', job, outcomes) { assert JobAgrees(s, job, outcomes); }
    forall files ensures TupleAgrees(s', files) {
      assert TupleAgrees(s, files);
      if files in s.tuples {
        assert Done(s', files) == Done(s, files);
      } else if files in s'.tuples {
        assert Done(s', files) == {};
      }
    }
    forall other ensures MacAgrees(s', other, outcomes) {
      assert MacAgrees(s, other, outcomes);
      if Bundle(other) == bundle { assert Bundle(other)[1] == bundle[1]; }
    }
  }

  lemma StepKeepsAgreement(s: System, e: Event, outcomes: JobOutcomes)
    requires Agrees(s, outcomes) && Enabled(s, e)
    ensures Agrees(Step(s, e, outcomes), outcomes)
  {
    match e
    case Dumps(_, _) => DumpsKeepAgreement(s, e, outcomes);
    case PreProcesses(_) => PreProcessKeepsAgreement(s, e, outcomes);
    case Returns(f) =>
      if outcomes(s.pool.jobs[f]).Raised? {
        RaisedKeepsAgreement(s, f, outcomes);
      } else if s.pool.jobs[f].Dump? {
        DumpKeepsAgreement(s, f, outcomes);
      } else {
        MacKeepsAgreement(s, f, outcomes);
      }
  }

  /** Every future is either pending or was handed out once. */
  ghost predicate HandedOutOnce(s: System) {
    && FuturesAreNew(s.pool)
    && NoDuplicates(s.order)
    && (forall f :: f in s.order ==> f !in s.pool.jobs)
    && (forall f: Future :: f < s.pool.next <==> f in s.order || f in s.pool.jobs)
  }

  /** Submitted jobs get futures that were never used. */
  lemma ArchsTakeNewFutures(p: Pool, files: Files, after: bool)
    requires FuturesAreNew(p)
    ensures var p' := ProcessFiles(p, files, after);
            && FuturesAreNew(p') && p'.next == p.next + p.archs
            && (forall f: Future :: f in p'.jobs <==> f in p.jobs || p.next <= f < p'.next)
  {
    ArchsSubmitted(p, files, after, p.archs);
  }

  lemma ReturnHandsOutOnce(s: System, f: Future, outcomes: JobOutcomes)
    requires HandedOutOnce(s) && f in s.pool.jobs
    ensures HandedOutOnce(Step(s, Returns(f), outcomes))
  {
    var s', rest := Step(s, Returns(f), outcomes), s.pool.(jobs := s.pool.jobs - {f});
    if s.pool.jobs[f].Mac? { ArchsTakeNewFutures(rest, Bundle(s.pool.jobs[f].file), true); }
    assert s'.order == s.order + [f];
    assert forall g: Future :: g in s'.pool.jobs <==> g in rest.jobs || s.pool.next <= g < s'.pool.next;
  }

  lemma StepHandsOutOnce(s: System, e: Event, outcomes: JobOutcomes)
    requires HandedOutOnce(s) && Enabled(s, e)
    ensures HandedOutOnce(Step(s, e, outcomes))
  {
    match e
    case Dumps(files, after) => ArchsTakeNewFutures(s.pool, files, after);
    case PreProcesses(_) =>
    case Returns(f) => ReturnHandsOutOnce(s, f, outcomes);
  }

  lemma NothingIsSubmittedFirst(archs: nat, outcomes: JobOutcomes)
    ensures Agrees(Initial(archs), outcomes) && HandedOutOnce(Initial(archs))
  {
  }

  /** The pool and its history after the futures came back in this order. */
  function Worked(s: System, order: seq<Future>, outcomes: JobOutcomes): (s': System)
    requires CanReturn(s.pool, order, ByJob(outcomes))
    ensures s'.pool == ReturnAll(s.pool, order, ByJob(outcomes)).pool
            && s'.ran == s.ran + ReturnAll(s.pool, order, ByJob(outcomes)).ran
  {
    if order == [] then s
    else Step(Worked(s, order[..|order| - 1], outcomes), Returns(order[|order| - 1]), outcomes)
  }

  /** Every tuple keeps its entry. */
  predicate KeepsTuples(s: System, s': System) {
    forall files :: files in s.tuples ==> files in s'.tuples && s'.tuples[files] == s.tuples[files]
  }

  lemma ReturnKeepsTuples(s: System, f: Future, outcomes: JobOutcomes)
    requires Agrees(s, outcomes) && f in s.pool.jobs
    ensures var s' := Step(s, Returns(f), outcomes);
            s'.macs == s.macs && s'.pool.archs == s.pool.archs && KeepsTuples(s, s')
  {
    if s.pool.jobs[f].Mac? {
      var file := s.pool.jobs[f].file;
      assert Mac(file) in s.pool.jobs.Values;
      assert JobAgrees(s, Mac(file), outcomes) && MacAgrees(s, file, outcomes);
      ArchsSubmitted(s.pool.(jobs := s.pool.jobs - {f}), Bundle(file), true, s.pool.archs);
    }
  }

  lemma ReturnOne(s: System, f: Future, outcomes: JobOutcomes)
    requires Agrees(s, outcomes) && HandedOutOnce(s) && f in s.pool.jobs
    ensures Agrees(Step(s, Returns(f), outcomes), outcomes) && HandedOutOnce(Step(s, Returns(f), outcomes))
  {
    StepKeepsAgreement(s, Returns(f), outcomes);
    StepHandsOutOnce(s, Returns(f), outcomes);
  }

  /** Working off the pool from an agreeing state keeps the agreement. */
  lemma {:induction false} ReturnAllAgrees(s: System, order: seq<Future>, outcomes: JobOutcomes)
    requires Agrees(s, outcomes) && HandedOutOnce(s) && CanReturn(s.pool, order, ByJob(outcomes))
    ensures Agrees(Worked(s, order, outcomes), outcomes) && HandedOutOnce(Worked(s, order, outcomes))
  {
    if order != [] {
      var front := order[..|order| - 1];
      ReturnAllAgrees(s, front, outcomes);
      ReturnOne(Worked(s, front, outcomes), order[|order| - 1], outcomes);
    }
  }

  /** It misses no counter, and what was submitted before is still known. */
  lemma {:induction false} ReturnAllKeeps(s: System, order: seq<Future>, outcomes: JobOutcomes)
    requires Agrees(s, outcomes) && HandedOutOnce(s) && CanReturn(s.pool, order, ByJob(outcomes))
    ensures var s' := Worked(s, order, outcomes);
            && s'.keyError == (s.keyError || ReturnAll(s.pool, order, ByJob(outcomes)).keyError)
            && s'.order == s.order + order && s'.macs == s.macs && s'.pool.archs == s.pool.archs && KeepsTuples(s, s')
  {
    if order == [] {
      assert s.order + [] == s.order;
    } else {
      var front, f := order[..|order| - 1], order[|order| - 1];
      ReturnAllKeeps(s, front, outcomes);
      ReturnAllAgrees(s, front, outcomes);
      ReturnKeepsTuples(Worked(s, front, outcomes), f, outcomes);
      assert s.order + order == s.order + front + [f];
    }
  }

  /** All dumps of a tuple come back, none raises an exception. */
  ghost predicate AllFinish(archs: nat, files: Files, after: bool, outcomes: JobOutcomes) {
    forall arch: nat :: arch < archs ==> outcomes(Dump(files, arch, after)).Finished?
  }

  lemma EmptyPoolDecides(s: System, files: Files, outcomes: JobOutcomes)
    requires Agrees(s, outcomes) && s.pool.jobs == map[] && files in s.tuples
    ensures RunsOf(s.ran, files)
         == if s.tuples[files] && s.pool.archs > 0 && AllFinish(s.pool.archs, files, s.tuples[files], outcomes)
            then 1 else 0
  {
    assert TupleAgrees(s, files);
    BoundedSetSize(Done(s, files), s.pool.archs);
    forall arch: nat | arch < s.pool.archs
      ensures arch in Done(s, files) <==> outcomes(Dump(files, arch, s.tuples[files])).Finished?
    {
      assert JobAgrees(s, Dump(files, arch, s.tuples[files]), outcomes);
    }
  }

  // ----- executions -----

  /** State k+1 follows from state k by event k, from a pool that has no jobs yet. */
  ghost predicate IsExecution(archs: nat, states: seq<System>, events: seq<Event>, outcomes: JobOutcomes) {
    && |states| == |events| + 1 && states[0] == Initial(archs)
    && forall k {:trigger events[k]} :: 0 <= k < |events| ==>
         Enabled(states[k], events[k]) && states[k + 1] == Step(states[k], events[k], outcomes)
  }

  lemma {:induction false} ExecutionsAgree(archs: nat, states: seq<System>, events: seq<Event>, outcomes: JobOutcomes,
                                           k: nat)
    requires IsExecution(archs, states, events, outcomes) && k < |states|
    ensures Agrees(states[k], outcomes) && HandedOutOnce(states[k])
  {
    if k == 0 {
      NothingIsSubmittedFirst(archs, outcomes);
    } else {
      ExecutionsAgree(archs, states, events, outcomes, k - 1);
      assert Enabled(states[k - 1], events[k - 1]);
      StepKeepsAgreement(states[k - 1], events[k - 1], outcomes);
      StepHandsOutOnce(states[k - 1], events[k - 1], outcomes);
    }
  }

  /** The pool can be worked off in this order until it is empty. */
  ghost predicate Completes(p: Pool, order: seq<Future>, outcomes: JobOutcomes) {
    CanReturn(p, order, ByJob(outcomes)) && ReturnAll(p, order, ByJob(outcomes)).pool.jobs == map[]
  }

  /** Main result: after any execution, working off the pool until it is empty never looks up a missing counter, hands
      out every future once, and runs the clean-up of a tuple once if all its dumps come back and never otherwise:
      neither the interleaving of submissions and completions nor the order of completion matters. */
  lemma CleanUpsDoNotDependOnTheSchedule(archs: nat, states: seq<System>, events: seq<Event>, order: seq<Future>,
                                         outcomes: JobOutcomes)
    requires IsExecution(archs, states, events, outcomes) && Completes(states[|events|].pool, order, outcomes)
    ensures var s, turn := states[|events|], ReturnAll(states[|events|].pool, order, ByJob(outcomes));
            && !s.keyError && !turn.keyError
            && NoDuplicates(s.order + order)
            && (forall f: Future :: f < turn.pool.next <==> f in s.order + order)
            && (forall files :: files in s.tuples ==>
                  RunsOf(s.ran + turn.ran, files)
                  == if s.tuples[files] && s.pool.archs > 0 && AllFinish(s.pool.archs, files, s.tuples[files], outcomes)
                     then 1 else 0)
            && (forall file :: file in s.macs ==>
                  RunsOf(s.ran + turn.ran, Bundle(file))
                  == if outcomes(Mac(file)) == Finished(true) && s.pool.archs > 0
                        && AllFinish(s.pool.archs, Bundle(file), true, outcomes) then 1 else 0)
  {
    var s := states[|events|];
    ExecutionsAgree(archs, states, events, outcomes, |events|);
    var s' := Worked(s, order, outcomes);
    ReturnAllAgrees(s, order, outcomes);
    ReturnAllKeeps(s, order, outcomes);
    forall files | files in s.tuples
      ensures RunsOf(s'.ran, files)
           == if s.tuples[files] && s.pool.archs > 0 && AllFinish(s.pool.archs, files, s.tuples[files], outcomes)
               then 1 else 0
    {
      EmptyPoolDecides(s', files, outcomes);
    }
    forall file | file in s.macs
      ensures RunsOf(s'.ran, Bundle(file))
           == if outcomes(Mac(file)) == Finished(true) && s.pool.archs > 0
                 && AllFinish(s.pool.archs, Bundle(file), true, outcomes) then 1 else 0
    {
      assert JobAgrees(s', Mac(file), outcomes) && MacAgrees(s', file, outcomes) && TupleAgrees(s', Bundle(file));
      if Bundle(file) in s'.tuples { EmptyPoolDecides(s', Bundle(file), outcomes); }
    }
  }
}
