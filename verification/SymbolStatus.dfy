/** Which status the clean-up of a tuple is called with: that of the last dump to come back, whatever the order. */
module SymbolStatus {
  import opened Common
  import opened JobPoolSpec
  import opened SymbolStore
  import opened SymbolRuns

  predicate IsDumpOf(job: Job, files: Files) {
    job.Dump? && job.files == files
  }

  /** The dump of the tuple that came back last. */
  function LastDump(returned: seq<Job>, files: Files): (last: Option<Job>)
    ensures last.Some? ==> last.value in returned && IsDumpOf(last.value, files)
  {
    if returned == [] then None
    else if IsDumpOf(returned[|returned| - 1], files) then Some(returned[|returned| - 1])
    else LastDump(returned[..|returned| - 1], files)
  }

  /** The status the clean-up of the tuple was last called with. */
  function StatusOf(ran: seq<Ran>, files: Files): (status: Option<bool>)
    ensures status.Some? <==> RunsOf(ran, files) > 0
  {
    if ran == [] then None
    else if ran[|ran| - 1].files == files then Some(ran[|ran| - 1].status)
    else StatusOf(ran[..|ran| - 1], files)
  }

  /** A clean-up that was called got the status of the last dump. */
  predicate StatusAgrees(s: System, files: Files, outcomes: JobOutcomes) {
    StatusOf(s.ran, files).Some? ==>
      && LastDump(s.returned, files).Some?
      && outcomes(LastDump(s.returned, files).value) == Finished(StatusOf(s.ran, files).value)
  }

  lemma StatusOfAppend(ran: seq<Ran>, more: seq<Ran>, files: Files)
    requires |more| <= 1
    ensures StatusOf(ran + more, files)
         == if |more| == 1 && more[0].files == files then Some(more[0].status) else StatusOf(ran, files)
  {
    if more == [] { assert ran + more == ran; } else { assert (ran + more)[..|ran|] == ran; }
  }

  lemma LastDumpAppend(returned: seq<Job>, job: Job, files: Files)
    ensures LastDump(returned + [job], files) == if IsDumpOf(job, files) then Some(job) else LastDump(returned, files)
  {
    assert (returned + [job])[..|returned|] == returned;
  }

  lemma {:induction false} SomeDumpMeansALast(returned: seq<Job>, job: Job, files: Files)
    requires job in returned && IsDumpOf(job, files)
    ensures LastDump(returned, files).Some?
  {
    if !IsDumpOf(returned[|returned| - 1], files) {
      assert returned == returned[..|returned| - 1] + [returned[|returned| - 1]];
      SomeDumpMeansALast(returned[..|returned| - 1], job, files);
    }
  }

  /** As long as a dump is pending, no clean-up of its tuple was called. */
  lemma PendingMeansNoCleanUp(s: System, f: Future, outcomes: JobOutcomes)
    requires Agrees(s, outcomes) && f in s.pool.jobs && s.pool.jobs[f].Dump?
    ensures s.pool.jobs[f].files in s.tuples && RunsOf(s.ran, s.pool.jobs[f].files) == 0
  {
    var job := s.pool.jobs[f];
    assert job in s.pool.jobs.Values;
    assert JobAgrees(s, job, outcomes) && TupleAgrees(s, job.files);
    BoundedSetSize(Done(s, job.files), s.pool.archs);
    assert job.arch !in Done(s, job.files);
  }

  lemma ReturnKeepsStatus(s: System, f: Future, outcomes: JobOutcomes, files: Files)
    requires Agrees(s, outcomes) && f in s.pool.jobs && StatusAgrees(s, files, outcomes)
    ensures StatusAgrees(Step(s, Returns(f), outcomes), files, outcomes)
  {
    var job, turn := s.pool.jobs[f], Return(s.pool, f, ByJob(outcomes));
    StatusOfAppend(s.ran, turn.ran, files);
    LastDumpAppend(s.returned, job, files);
    if job.Dump? { PendingMeansNoCleanUp(s, f, outcomes); }
  }

  lemma StepKeepsStatus(s: System, e: Event, outcomes: JobOutcomes, files: Files)
    requires Agrees(s, outcomes) && Enabled(s, e) && StatusAgrees(s, files, outcomes)
    ensures StatusAgrees(Step(s, e, outcomes), files, outcomes)
  {
    if e.Returns? { ReturnKeepsStatus(s, e.future, outcomes, files); }
  }

  /** In every execution a clean-up gets the status of the last dump of its tuple to come back. */
  lemma {:induction false} CleanUpGetsTheLastStatus(archs: nat, states: seq<System>, events: seq<Event>,
                                                    outcomes: JobOutcomes, k: nat, files: Files)
    requires IsExecution(archs, states, events, outcomes) && k < |states|
    ensures StatusAgrees(states[k], files, outcomes)
  {
    if k > 0 {
      CleanUpGetsTheLastStatus(archs, states, events, outcomes, k - 1, files);
      ExecutionsAgree(archs, states, events, outcomes, k - 1);
      assert Enabled(states[k - 1], events[k - 1]);
      StepKeepsStatus(states[k - 1], events[k - 1], outcomes, files);
    }
  }

  // ----- which orders give which status -----

  lemma {:induction false} LastDumpOfMore(returned: seq<Job>, more: seq<Job>, files: Files)
    ensures LastDump(returned + more, files)
         == if LastDump(more, files).Some? then LastDump(more, files) else LastDump(returned, files)
  {
    if more == [] {
      assert returned + more == returned;
    } else {
      var front, last := more[..|more| - 1], more[|more| - 1];
      LastDumpOfMore(returned, front, files);
      assert returned + more == returned + front + [last] && more == front + [last];
      LastDumpAppend(returned + front, last, files);
    }
  }

  /** Working off the pool only adds jobs to those that came back, and keeps the status right. */
  lemma {:induction false} WorkedStatus(s: System, order: seq<Future>, outcomes: JobOutcomes, files: Files)
    returns (more: seq<Job>)
    requires Agrees(s, outcomes) && HandedOutOnce(s) && CanReturn(s.pool, order, ByJob(outcomes))
             && StatusAgrees(s, files, outcomes)
    ensures StatusAgrees(Worked(s, order, outcomes), files, outcomes)
    ensures Worked(s, order, outcomes).returned == s.returned + more
    ensures forall job :: job in more ==> job !in s.returned
  {
    more := [];
    if order != [] {
      var front, f := order[..|order| - 1], order[|order| - 1];
      var before := Worked(s, front, outcomes);
      more := WorkedStatus(s, front, outcomes, files);
      ReturnAllAgrees(s, front, outcomes);
      ReturnKeepsStatus(before, f, outcomes, files);
      var job := before.pool.jobs[f];
      assert job in before.pool.jobs.Values;
      assert JobAgrees(before, job, outcomes);
      if outcomes(job).Finished? {
        assert before.returned + [job] == s.returned + (more + [job]);
        more := more + [job];
      }
    }
  }

  /** The dumps of the tuple were or will be submitted with a clean-up: directly, or by a pre-processed file. */
  predicate HasCleanUp(s: System, files: Files, outcomes: JobOutcomes) {
    || (files in s.tuples && s.tuples[files])
    || (|files| == 2 && files == Bundle(files[1]) && files[1] in s.macs && outcomes(Mac(files[1])) == Finished(true))
  }

  /** In the end the tuple was submitted, and all its dumps came back. */
  lemma AllDumpsCameBack(s: System, files: Files, outcomes: JobOutcomes)
    requires Agrees(s, outcomes) && s.pool.jobs == map[] && HasCleanUp(s, files, outcomes)
    requires s.pool.archs > 0 && AllFinish(s.pool.archs, files, true, outcomes)
    ensures files in s.tuples && s.tuples[files] && RunsOf(s.ran, files) == 1
    ensures forall arch: nat :: arch < s.pool.archs ==> Dump(files, arch, true) in s.returned
    ensures forall job :: IsDumpOf(job, files) && job in s.returned ==> job.arch < s.pool.archs && job.after
  {
    if |files| == 2 { assert JobAgrees(s, Mac(files[1]), outcomes) && MacAgrees(s, files[1], outcomes); }
    EmptyPoolDecides(s, files, outcomes);
    forall arch: nat | arch < s.pool.archs ensures Dump(files, arch, true) in s.returned {
      assert JobAgrees(s, Dump(files, arch, true), outcomes);
    }
    forall job | IsDumpOf(job, files) && job in s.returned ensures job.arch < s.pool.archs && job.after {
      assert JobAgrees(s, job, outcomes);
    }
  }

  /** A dump that has not come back yet. */
  predicate IsAhead(s: System, files: Files, arch: nat) {
    arch < s.pool.archs && Dump(files, arch, true) !in s.returned
  }

  /** The clean-up gets the status of a dump that was still ahead, if there was one, and else the status it already
      got. */
  lemma StatusIsOneAhead(s: System, order: seq<Future>, files: Files, outcomes: JobOutcomes) returns (last: Job)
    requires Agrees(s, outcomes) && HandedOutOnce(s) && Completes(s.pool, order, outcomes)
    requires StatusAgrees(s, files, outcomes) && HasCleanUp(s, files, outcomes)
    requires s.pool.archs > 0 && AllFinish(s.pool.archs, files, true, outcomes)
    ensures LastDump(Worked(s, order, outcomes).returned, files) == Some(last)
    ensures outcomes(last).Finished?
    ensures StatusOf(s.ran + ReturnAll(s.pool, order, ByJob(outcomes)).ran, files) == Some(outcomes(last).status)
    ensures if exists arch :: IsAhead(s, files, arch)
            then IsDumpOf(last, files) && last.after && IsAhead(s, files, last.arch)
            else LastDump(s.returned, files) == Some(last)
  {
    var s' := Worked(s, order, outcomes);
    var more := WorkedStatus(s, order, outcomes, files);
    ReturnAllAgrees(s, order, outcomes);
    ReturnAllKeeps(s, order, outcomes);
    AllDumpsCameBack(s', files, outcomes);
    last := LastDump(s'.returned, files).value;
    LastDumpOfMore(s.returned, more, files);
    if arch :| IsAhead(s, files, arch) {
      assert Dump(files, arch, true) in more;
      SomeDumpMeansALast(more, Dump(files, arch, true), files);
      assert last in more && last in s'.returned;
    } else if LastDump(more, files).Some? {
      assert last in more && last in s'.returned;
      assert IsAhead(s, files, last.arch);
    }
  }

  // ----- every dump that is ahead can be the last -----

  lemma ReturnKeepsOthers(p: Pool, f: Future, g: Future, outcomes: JobOutcomes)
    requires FuturesAreNew(p) && f in p.jobs && g in p.jobs && f != g
    ensures var p' := Return(p, f, ByJob(outcomes)).pool; g in p'.jobs && p'.jobs[g] == p.jobs[g]
  {
    if p.jobs[f].Mac? { ArchsSubmitted(p.(jobs := p.jobs - {f}), Bundle(p.jobs[f].file), true, p.archs); }
  }

  lemma OneMore(s: System, order: seq<Future>, f: Future, outcomes: JobOutcomes)
    requires Agrees(s, outcomes) && HandedOutOnce(s) && CanReturn(s.pool, order, ByJob(outcomes))
    requires f in Worked(s, order, outcomes).pool.jobs
    ensures CanReturn(s.pool, order + [f], ByJob(outcomes))
    ensures Worked(s, order + [f], outcomes) == Step(Worked(s, order, outcomes), Returns(f), outcomes)
  {
    ReturnAllAgrees(s, order, outcomes);
    assert (order + [f])[..|order|] == order;
  }

  /** Everything else comes back first. */
  lemma {:induction false} LeaveForLast(s: System, order: seq<Future>, g: Future, outcomes: JobOutcomes)
    returns (longer: seq<Future>)
    requires Agrees(s, outcomes) && HandedOutOnce(s) && CanReturn(s.pool, order, ByJob(outcomes))
    requires g in Worked(s, order, outcomes).pool.jobs
    requires Worked(s, order, outcomes).pool.jobs[g].Dump?
    ensures CanReturn(s.pool, longer, ByJob(outcomes))
    ensures Worked(s, longer, outcomes).pool.jobs == map[g := Worked(s, order, outcomes).pool.jobs[g]]
    decreases MacJobs(Worked(s, order, outcomes).pool.jobs), Worked(s, order, outcomes).pool.jobs.Keys
  {
    var now := Worked(s, order, outcomes);
    if f :| f in now.pool.jobs && f != g {
      ReturnAllAgrees(s, order, outcomes);
      OneMore(s, order, f, outcomes);
      ReturnShrinks(now.pool, f, ByJob(outcomes));
      ReturnKeepsOthers(now.pool, f, g, outcomes);
      longer := LeaveForLast(s, order + [f], g, outcomes);
    } else {
      longer := order;
    }
  }

  /** The pre-processing succeeds: all dumps of the bundle are pending then. */
  lemma BundleBecomesPending(s: System, m: Future, arch: nat, outcomes: JobOutcomes) returns (g: Future)
    requires FuturesAreNew(s.pool) && m in s.pool.jobs && s.pool.jobs[m].Mac?
             && outcomes(s.pool.jobs[m]) == Finished(true)
    requires arch < s.pool.archs
    ensures var jobs := Step(s, Returns(m), outcomes).pool.jobs;
            g in jobs && jobs[g] == Dump(Bundle(s.pool.jobs[m].file), arch, true)
  {
    ArchsSubmitted(s.pool.(jobs := s.pool.jobs - {m}), Bundle(s.pool.jobs[m].file), true, s.pool.archs);
    g := s.pool.next + arch;
  }

  /** A successful pre-processing whose bundle was not submitted yet is pending. */
  lemma PreProcessingIsPending(s: System, file: string, outcomes: JobOutcomes) returns (m: Future)
    requires Agrees(s, outcomes) && file in s.macs && outcomes(Mac(file)) == Finished(true) && Bundle(file) !in s.tuples
    ensures m in s.pool.jobs && s.pool.jobs[m] == Mac(file)
  {
    assert JobAgrees(s, Mac(file), outcomes) && MacAgrees(s, file, outcomes);
    m :| m in s.pool.jobs && s.pool.jobs[m] == Mac(file);
  }

  /** A dump that is ahead is pending, or becomes so when the pre-processing of its file comes back. */
  lemma AheadBecomesPending(s: System, files: Files, arch: nat, outcomes: JobOutcomes)
    returns (order: seq<Future>, g: Future)
    requires Agrees(s, outcomes) && HandedOutOnce(s) && HasCleanUp(s, files, outcomes)
    requires AllFinish(s.pool.archs, files, true, outcomes) && IsAhead(s, files, arch)
    ensures CanReturn(s.pool, order, ByJob(outcomes))
    ensures g in Worked(s, order, outcomes).pool.jobs
            && Worked(s, order, outcomes).pool.jobs[g] == Dump(files, arch, true)
  {
    order := [];
    if files in s.tuples {
      if |files| == 2 { assert MacAgrees(s, files[1], outcomes); }
      assert JobAgrees(s, Dump(files, arch, true), outcomes);
      g :| g in s.pool.jobs && s.pool.jobs[g] == Dump(files, arch, true);
    } else {
      var m := PreProcessingIsPending(s, files[1], outcomes);
      OneMore(s, [], m, outcomes);
      order := [] + [m];
      g := BundleBecomesPending(s, m, arch, outcomes);
    }
  }

  /** The order of completion that makes this dump the last one. */
  lemma AnyDumpCanBeLast(s: System, files: Files, arch: nat, outcomes: JobOutcomes) returns (order: seq<Future>)
    requires Agrees(s, outcomes) && HandedOutOnce(s) && HasCleanUp(s, files, outcomes)
    requires AllFinish(s.pool.archs, files, true, outcomes) && IsAhead(s, files, arch)
    ensures Completes(s.pool, order, outcomes)
    ensures LastDump(Worked(s, order, outcomes).returned, files) == Some(Dump(files, arch, true))
  {
    var first, g := AheadBecomesPending(s, files, arch, outcomes);
    var longer := LeaveForLast(s, first, g, outcomes);
    OneMore(s, longer, g, outcomes);
    order := longer + [g];
    LastReturn(Worked(s, longer, outcomes), g, Dump(files, arch, true), outcomes);
  }

  lemma LastReturn(s: System, g: Future, job: Job, outcomes: JobOutcomes)
    requires s.pool.jobs == map[g := job] && job.Dump? && outcomes(job).Finished?
    ensures var s' := Step(s, Returns(g), outcomes);
            s'.pool.jobs == map[] && LastDump(s'.returned, job.files) == Some(job)
  {
    LastDumpAppend(s.returned, job, job.files);
    assert s.pool.jobs - {g} == map[];
  }

  // ----- main result -----

  /** Whatever the order of completion, the clean-up is called with the same status. */
  ghost predicate StatusIsFixed(s: System, files: Files, outcomes: JobOutcomes) {
    forall a, b :: Completes(s.pool, a, outcomes) && Completes(s.pool, b, outcomes) ==>
      StatusOf(s.ran + ReturnAll(s.pool, a, ByJob(outcomes)).ran, files)
          == StatusOf(s.ran + ReturnAll(s.pool, b, ByJob(outcomes)).ran, files)
  }

  /** The dumps that are ahead have the same outcome. */
  ghost predicate SameOutcomeAhead(s: System, files: Files, outcomes: JobOutcomes) {
    forall a, b :: IsAhead(s, files, a) && IsAhead(s, files, b) ==>
      outcomes(Dump(files, a, true)) == outcomes(Dump(files, b, true))
  }

  lemma SameOutcomeFixesTheStatus(s: System, files: Files, outcomes: JobOutcomes)
    requires Agrees(s, outcomes) && HandedOutOnce(s) && StatusAgrees(s, files, outcomes)
             && HasCleanUp(s, files, outcomes)
    requires s.pool.archs > 0 && AllFinish(s.pool.archs, files, true, outcomes) && SameOutcomeAhead(s, files, outcomes)
    ensures StatusIsFixed(s, files, outcomes)
  {
    forall a, b | Completes(s.pool, a, outcomes) && Completes(s.pool, b, outcomes)
      ensures StatusOf(s.ran + ReturnAll(s.pool, a, ByJob(outcomes)).ran, files)
           == StatusOf(s.ran + ReturnAll(s.pool, b, ByJob(outcomes)).ran, files)
    {
      var x := StatusIsOneAhead(s, a, files, outcomes);
      var y := StatusIsOneAhead(s, b, files, outcomes);
      assert outcomes(x) == outcomes(y);
    }
  }

  lemma DifferentOutcomesLeaveTheStatusOpen(s: System, files: Files, outcomes: JobOutcomes, x: nat, y: nat)
    requires Agrees(s, outcomes) && HandedOutOnce(s) && StatusAgrees(s, files, outcomes)
             && HasCleanUp(s, files, outcomes)
    requires s.pool.archs > 0 && AllFinish(s.pool.archs, files, true, outcomes)
    requires IsAhead(s, files, x) && IsAhead(s, files, y)
             && outcomes(Dump(files, x, true)) != outcomes(Dump(files, y, true))
    ensures !StatusIsFixed(s, files, outcomes)
  {
    var a := AnyDumpCanBeLast(s, files, x, outcomes);
    var b := AnyDumpCanBeLast(s, files, y, outcomes);
    var lastA := StatusIsOneAhead(s, a, files, outcomes);
    var lastB := StatusIsOneAhead(s, b, files, outcomes);
    assert outcomes(lastA).status != outcomes(lastB).status;
  }

  /** Main result: after any execution, if all dumps of a tuple with a clean-up come back, all orders of completion
      hand the same status over if and only if the dumps that have not come back yet have the same outcome. */
  lemma StatusIsFixedIffSameOutcome(archs: nat, states: seq<System>, events: seq<Event>, files: Files,
                                    outcomes: JobOutcomes)
    requires IsExecution(archs, states, events, outcomes)
    requires var s := states[|events|];
             HasCleanUp(s, files, outcomes) && s.pool.archs > 0 && AllFinish(s.pool.archs, files, true, outcomes)
    ensures StatusIsFixed(states[|events|], files, outcomes) <==> SameOutcomeAhead(states[|events|], files, outcomes)
  {
    var s := states[|events|];
    ExecutionsAgree(archs, states, events, outcomes, |events|);
    CleanUpGetsTheLastStatus(archs, states, events, outcomes, |events|, files);
    if SameOutcomeAhead(s, files, outcomes) {
      SameOutcomeFixesTheStatus(s, files, outcomes);
    } else {
      var x, y :| IsAhead(s, files, x) && IsAhead(s, files, y)
          && outcomes(Dump(files, x, true)) != outcomes(Dump(files, y, true));
      DifferentOutcomesLeaveTheStatusOpen(s, files, outcomes, x, y);
    }
  }

  /** The smallest case: two architectures, of which one fails. */
  lemma StatusDependsOnTheSchedule(files: Files, outcomes: JobOutcomes)
    requires outcomes(Dump(files, 0, true)) == Finished(true) && outcomes(Dump(files, 1, true)) == Finished(false)
    ensures var p := ProcessFiles(Initial(2).pool, files, true);
            && CanReturn(p, [0, 1], ByJob(outcomes)) && ReturnAll(p, [0, 1], ByJob(outcomes)).ran == [Ran(files, false)]
            && CanReturn(p, [1, 0], ByJob(outcomes)) && ReturnAll(p, [1, 0], ByJob(outcomes)).ran == [Ran(files, true)]
  {
    var p := ProcessFiles(Initial(2).pool, files, true);
    TwoArchs(files);
    assert [0, 1][..1] == [0] && [1, 0][..1] == [1] && [0][..0] == [] && [1][..0] == [];
    assert CanReturn(p, [], ByJob(outcomes)) && CanReturn(p, [0], ByJob(outcomes))
        && CanReturn(p, [1], ByJob(outcomes));
  }

  lemma TwoArchs(files: Files)
    ensures ProcessFiles(Initial(2).pool, files, true)
         == Pool(2, map[0 := Dump(files, 0, true), 1 := Dump(files, 1, true)], 2, map[files := 0])
  {
    var p := Initial(2).pool;
    assert SubmitArchs(p, files, true, 1) == Pool(2, map[0 := Dump(files, 0, true)], 1, map[files := 0]);
  }
}
