/** Submitting a tuple of files a second time: its dumps share one counter with those of the first time that are still
    pending, so the counting fails if and only if more dumps come back than there are architectures. */
module SymbolResubmissions {
  import opened Common
  import opened JobPoolSpec
  import opened SymbolStore
  import opened SymbolRuns
  import opened SymbolStatus

  /** The pending dumps of a tuple that will come back, and not raise an exception. */
  function Coming(p: Pool, files: Files, outcomes: Outcomes): set<Future> {
    set f | f in p.jobs && IsDumpOf(p.jobs[f], files) && outcomes(f, p.jobs[f]).Finished?
  }

  /** What the counter would reach; a tuple without a counter has reached the end already. */
  function Load(p: Pool, files: Files, outcomes: Outcomes): nat {
    |Coming(p, files, outcomes)| + if files in p.record then p.record[files] else p.archs
  }

  predicate Overfull(p: Pool, files: Files, outcomes: Outcomes) {
    Load(p, files, outcomes) > p.archs
  }

  /** Pending pre-processings are of different files, and no dump of their bundles is pending. */
  predicate FreshBundles(p: Pool) {
    forall m :: m in p.jobs && p.jobs[m].Mac? ==>
      && (forall f :: f in p.jobs ==> !IsDumpOf(p.jobs[f], Bundle(p.jobs[m].file)))
      && (forall f :: f in p.jobs && f != m ==> p.jobs[f] != p.jobs[m])
  }

  ghost predicate Sound(p: Pool) {
    && FuturesAreNew(p) && FreshBundles(p)
    && forall files :: files in p.record ==> p.record[files] < p.archs
  }

  function Interval(low: Future, n: nat): (fs: set<Future>)
    ensures forall f :: f in fs <==> low <= f < low + n
    ensures |fs| == n
  {
    if n == 0 then {} else Interval(low, n - 1) + {low + n - 1}
  }

  lemma {:induction false} SubsetSize(fs: set<Future>, all: set<Future>)
    requires fs <= all
    ensures |fs| <= |all|
  {
    if f :| f in fs { SubsetSize(fs - {f}, all - {f}); }
  }

  lemma IntervalSize(fs: set<Future>, low: Future, n: nat)
    requires forall f :: f in fs ==> low <= f < low + n
    ensures |fs| <= n
  {
    SubsetSize(fs, Interval(low, n));
  }

  /** Submitting a tuple resets its counter; its new dumps come on top of the pending ones. */
  lemma SubmissionLoads(p: Pool, files: Files, after: bool, outcomes: Outcomes)
    requires Sound(p)
    requires forall m :: m in p.jobs && p.jobs[m].Mac? ==> Bundle(p.jobs[m].file) != files
    ensures var p' := ProcessFiles(p, files, after);
            && Sound(p') && p'.archs == p.archs
            && (forall other :: other != files ==> Load(p', other, outcomes) == Load(p, other, outcomes))
            && (p.archs > 0 ==> Load(p', files, outcomes) == |Coming(p', files, outcomes)|)
            && Coming(p, files, outcomes) <= Coming(p', files, outcomes)
            && (forall f :: f in Coming(p', files, outcomes) ==>
                f in Coming(p, files, outcomes) || p.next <= f < p.next + p.archs)
            && (forall f: Future :: p.next <= f < p.next + p.archs ==>
                f in p'.jobs && p'.jobs[f] == Dump(files, f - p.next, after))
  {
    ArchsSubmitted(p, files, after, p.archs);
    var p' := ProcessFiles(p, files, after);
    forall other | other != files ensures Load(p', other, outcomes) == Load(p, other, outcomes) {
      assert Coming(p', other, outcomes) == Coming(p, other, outcomes);
    }
  }

  /** A dump that comes back moves from those to come to the counter, if it was counted among them. */
  lemma CountingKeepsLoad(p: Pool, f: Future, outcomes: Outcomes, count: Outcomes, files: Files)
    requires Sound(p) && f in p.jobs && p.jobs[f].Dump? && outcomes(f, p.jobs[f]).Finished?
    requires count(f, p.jobs[f]).Finished? && !Return(p, f, outcomes).keyError
    ensures var p' := Return(p, f, outcomes).pool;
            Sound(p') && p'.archs == p.archs && Load(p', files, count) == Load(p, files, count)
  {
    var p' := Return(p, f, outcomes).pool;
    if IsDumpOf(p.jobs[f], files) {
      assert Coming(p', files, count) == Coming(p, files, count) - {f} && f in Coming(p, files, count);
    } else {
      assert Coming(p', files, count) == Coming(p, files, count);
    }
  }

  lemma RemovingLowersLoad(p: Pool, f: Future, count: Outcomes, files: Files)
    requires Sound(p) && f in p.jobs
    ensures var p' := p.(jobs := p.jobs - {f});
            && Sound(p') && Load(p', files, count) <= Load(p, files, count)
            && (p.jobs[f].Mac? || count(f, p.jobs[f]).Raised? ==> Load(p', files, count) == Load(p, files, count))
  {
    assert Coming(p.(jobs := p.jobs - {f}), files, count) == Coming(p, files, count) - {f};
  }

  lemma BundleIsNotOverfull(p: Pool, f: Future, outcomes: Outcomes, count: Outcomes, files: Files)
    requires Sound(p) && f in p.jobs && outcomes(f, p.jobs[f]) == Finished(true) && p.jobs[f].Mac?
    ensures var p' := Return(p, f, outcomes).pool;
            && Sound(p') && p'.archs == p.archs && Overfull(p', files, count) == Overfull(p, files, count)
            && (files != Bundle(p.jobs[f].file) ==> Load(p', files, count) == Load(p, files, count))
  {
    var rest, bundle := p.(jobs := p.jobs - {f}), Bundle(p.jobs[f].file);
    RemovingLowersLoad(p, f, count, files);
    forall m | m in rest.jobs && rest.jobs[m].Mac? ensures Bundle(rest.jobs[m].file) != bundle {
      assert Bundle(rest.jobs[m].file)[1] == rest.jobs[m].file && bundle[1] == p.jobs[f].file;
    }
    SubmissionLoads(rest, bundle, true, count);
    if files == bundle {
      assert Coming(p, bundle, count) == {} && Coming(rest, bundle, count) == {};
      IntervalSize(Coming(ProcessFiles(rest, bundle, true), bundle, count), p.next, p.archs);
    }
  }

  /** A returning future never changes which tuples will be counted too often, and the load of a tuple only if its
      pre-processing comes back. */
  lemma ReturnKeepsOverfull(p: Pool, f: Future, outcomes: Outcomes, files: Files)
    requires Sound(p) && f in p.jobs && !Return(p, f, outcomes).keyError
    ensures var p' := Return(p, f, outcomes).pool;
            && Sound(p') && p'.archs == p.archs && Overfull(p', files, outcomes) == Overfull(p, files, outcomes)
            && (!(p.jobs[f].Mac? && files == Bundle(p.jobs[f].file)) ==>
                  Load(p', files, outcomes) == Load(p, files, outcomes))
  {
    if p.jobs[f].Dump? && outcomes(f, p.jobs[f]).Finished? {
      CountingKeepsLoad(p, f, outcomes, outcomes, files);
    } else if p.jobs[f].Mac? && outcomes(f, p.jobs[f]) == Finished(true) {
      BundleIsNotOverfull(p, f, outcomes, outcomes, files);
    } else {
      RemovingLowersLoad(p, f, outcomes, files);
    }
  }

  /** The counter is missed for a tuple that is counted too often only. */
  lemma MissedMeansOverfull(p: Pool, f: Future, outcomes: Outcomes)
    requires f in p.jobs && Return(p, f, outcomes).keyError
    ensures p.jobs[f].Dump? && Overfull(p, p.jobs[f].files, outcomes)
  {
    assert f in Coming(p, p.jobs[f].files, outcomes);
  }

  lemma {:induction false} ReturnAllKeepsOverfull(p: Pool, order: seq<Future>, outcomes: Outcomes, files: Files)
    requires Sound(p) && CanReturn(p, order, outcomes) && !ReturnAll(p, order, outcomes).keyError
    ensures var p' := ReturnAll(p, order, outcomes).pool;
            Sound(p') && p'.archs == p.archs && Overfull(p', files, outcomes) == Overfull(p, files, outcomes)
  {
    if order != [] {
      var front := order[..|order| - 1];
      ReturnAllKeepsOverfull(p, front, outcomes, files);
      ReturnKeepsOverfull(ReturnAll(p, front, outcomes).pool, order[|order| - 1], outcomes, files);
    }
  }

  /** The pool was worked off, or the counting failed on the way. */
  predicate Ends(p: Pool, order: seq<Future>, outcomes: Outcomes) {
    && CanReturn(p, order, outcomes)
    && (ReturnAll(p, order, outcomes).keyError || ReturnAll(p, order, outcomes).pool.jobs == map[])
  }

  lemma EmptyMeansNotOverfull(p: Pool, files: Files, outcomes: Outcomes)
    requires Sound(p) && p.jobs == map[]
    ensures !Overfull(p, files, outcomes)
  {
    assert Coming(p, files, outcomes) == {};
  }

  /** Working off any pool misses a counter if and only if some tuple is counted too often. */
  lemma CounterIsMissedIffOverfull(p: Pool, order: seq<Future>, outcomes: Outcomes)
    requires Sound(p) && Ends(p, order, outcomes)
    ensures ReturnAll(p, order, outcomes).keyError <==> exists files :: Overfull(p, files, outcomes)
  {
    if ReturnAll(p, order, outcomes).keyError {
      var front, f := order[..|order| - 1], order[|order| - 1];
      var before := ReturnAll(p, front, outcomes).pool;
      MissedMeansOverfull(before, f, outcomes);
      ReturnAllKeepsOverfull(p, front, outcomes, before.jobs[f].files);
    } else {
      forall files ensures !Overfull(p, files, outcomes) {
        ReturnAllKeepsOverfull(p, order, outcomes, files);
        EmptyMeansNotOverfull(ReturnAll(p, order, outcomes).pool, files, outcomes);
      }
    }
  }

  // ----- executions -----

  /** Nothing of a tuple that was not submitted is pending, and counters of submitted ones are not full. */
  lemma AgreementIsSound(s: System, outcomes: JobOutcomes)
    requires Agrees(s, outcomes)
    ensures Sound(s.pool)
  {
    forall m | m in s.pool.jobs && s.pool.jobs[m].Mac?
      ensures forall f :: f in s.pool.jobs ==> !IsDumpOf(s.pool.jobs[f], Bundle(s.pool.jobs[m].file))
    {
      PendingBundleIsNew(s, m, outcomes);
      forall f | f in s.pool.jobs ensures !IsDumpOf(s.pool.jobs[f], Bundle(s.pool.jobs[m].file)) {
        assert s.pool.jobs[f] in s.pool.jobs.Values && JobAgrees(s, s.pool.jobs[f], outcomes);
      }
    }
    forall files | files in s.pool.record ensures s.pool.record[files] < s.pool.archs { assert TupleAgrees(s, files); }
  }

  lemma PendingBundleIsNew(s: System, m: Future, outcomes: JobOutcomes)
    requires Agrees(s, outcomes) && m in s.pool.jobs && s.pool.jobs[m].Mac?
    ensures Bundle(s.pool.jobs[m].file) !in s.tuples
  {
    var file := s.pool.jobs[m].file;
    assert Mac(file) in s.pool.jobs.Values;
    assert JobAgrees(s, Mac(file), outcomes) && MacAgrees(s, file, outcomes);
  }

  /** The worst case: no dump raises an exception. */
  const ALL_COME_BACK: Outcomes := (f, job) => Finished(true)

  lemma WorstCase(p: Pool, files: Files, outcomes: Outcomes)
    requires !Overfull(p, files, ALL_COME_BACK)
    ensures !Overfull(p, files, outcomes)
  {
    assert Coming(p, files, outcomes) <= Coming(p, files, ALL_COME_BACK);
    SubsetSize(Coming(p, files, outcomes), Coming(p, files, ALL_COME_BACK));
  }

  lemma ReturnFillsNoTuple(p: Pool, f: Future, outcomes: Outcomes, files: Files)
    requires Sound(p) && f in p.jobs && !Return(p, f, outcomes).keyError && !Overfull(p, files, ALL_COME_BACK)
    ensures !Overfull(Return(p, f, outcomes).pool, files, ALL_COME_BACK)
  {
    if p.jobs[f].Dump? && outcomes(f, p.jobs[f]).Finished? {
      CountingKeepsLoad(p, f, outcomes, ALL_COME_BACK, files);
    } else if p.jobs[f].Mac? && outcomes(f, p.jobs[f]) == Finished(true) {
      BundleIsNotOverfull(p, f, outcomes, ALL_COME_BACK, files);
    } else {
      RemovingLowersLoad(p, f, ALL_COME_BACK, files);
    }
  }

  lemma StepFillsNoTuple(s: System, e: Event, outcomes: JobOutcomes, files: Files)
    requires Agrees(s, outcomes) && Enabled(s, e) && !Overfull(s.pool, files, ALL_COME_BACK)
    ensures !Overfull(Step(s, e, outcomes).pool, files, ALL_COME_BACK)
  {
    var p := s.pool;
    AgreementIsSound(s, outcomes);
    match e
    case Dumps(tuple, after) =>
      forall m | m in p.jobs && p.jobs[m].Mac? ensures Bundle(p.jobs[m].file) != tuple {
        PendingFileIsKnown(s, m, outcomes);
      }
      SubmissionLoads(p, tuple, after, ALL_COME_BACK);
      if files == tuple {
        NothingIsComing(s, files, outcomes);
        IntervalSize(Coming(ProcessFiles(p, files, after), files, ALL_COME_BACK), p.next, p.archs);
      }
    case PreProcesses(file) =>
      assert Coming(Submit(p, Mac(file)), files, ALL_COME_BACK) == Coming(p, files, ALL_COME_BACK);
    case Returns(f) =>
      StepKeepsAgreement(s, e, outcomes);
      ReturnFillsNoTuple(p, f, ByJob(outcomes), files);
  }

  lemma PendingFileIsKnown(s: System, m: Future, outcomes: JobOutcomes)
    requires Agrees(s, outcomes) && m in s.pool.jobs && s.pool.jobs[m].Mac?
    ensures s.pool.jobs[m].file in s.macs
  {
    assert s.pool.jobs[m] in s.pool.jobs.Values && JobAgrees(s, s.pool.jobs[m], outcomes);
  }

  lemma NothingIsComing(s: System, files: Files, outcomes: JobOutcomes)
    requires Agrees(s, outcomes) && files !in s.tuples
    ensures Coming(s.pool, files, ALL_COME_BACK) == {}
  {
    forall f | f in s.pool.jobs ensures !IsDumpOf(s.pool.jobs[f], files) {
      assert s.pool.jobs[f] in s.pool.jobs.Values && JobAgrees(s, s.pool.jobs[f], outcomes);
    }
  }

  lemma {:induction false} ExecutionsFillNoTuple(archs: nat, states: seq<System>, events: seq<Event>,
                                                 outcomes: JobOutcomes, k: nat, files: Files)
    requires IsExecution(archs, states, events, outcomes) && k < |states|
    ensures !Overfull(states[k].pool, files, ALL_COME_BACK)
  {
    if k == 0 {
      assert Coming(states[0].pool, files, ALL_COME_BACK) == {};
    } else {
      ExecutionsFillNoTuple(archs, states, events, outcomes, k - 1, files);
      ExecutionsAgree(archs, states, events, outcomes, k - 1);
      assert Enabled(states[k - 1], events[k - 1]);
      StepFillsNoTuple(states[k - 1], events[k - 1], outcomes, files);
    }
  }

  /** The pool after the tuple was submitted again. */
  lemma Resubmitted(archs: nat, states: seq<System>, events: seq<Event>, outcomes: JobOutcomes, files: Files,
                    after: bool, later: Outcomes)
    requires IsExecution(archs, states, events, outcomes) && files in states[|events|].tuples
    ensures var q := states[|events|].pool;
            var p := ProcessFiles(q, files, after);
            && Sound(q) && Sound(p) && p.archs == q.archs && NoPendingBundle(p, files)
            && (forall other :: other != files ==> !Overfull(p, other, later))
            && Load(p, files, later) == |Coming(p, files, later)|
            && (p.archs > 0 ==> files in p.record && p.record[files] == 0)
            && (p.archs == 0 ==> Coming(p, files, later) == {})
  {
    var s := states[|events|];
    var q, p := s.pool, ProcessFiles(s.pool, files, after);
    ExecutionsAgree(archs, states, events, outcomes, |events|);
    AgreementIsSound(s, outcomes);
    forall m | m in q.jobs && q.jobs[m].Mac? ensures Bundle(q.jobs[m].file) != files {
      PendingBundleIsNew(s, m, outcomes);
    }
    SubmissionLoads(q, files, after, later);
    ArchsSubmitted(q, files, after, q.archs);
    forall other | other != files ensures !Overfull(p, other, later) {
      ExecutionsFillNoTuple(archs, states, events, outcomes, |events|, other);
      WorstCase(q, other, later);
    }
    if p.archs == 0 {
      assert files !in p.record;
      ExecutionsFillNoTuple(archs, states, events, outcomes, |events|, files);
      WorstCase(q, files, later);
    }
  }

  /** Main result: a tuple is submitted again after any execution. However the pool is worked off, and whatever the
      futures come to, the counting fails if and only if more dumps of the tuple come back from then on than there are
      architectures. */
  lemma ResubmissionFailsIffTooManyComeBack(archs: nat, states: seq<System>, events: seq<Event>, outcomes: JobOutcomes,
                                            files: Files, after: bool, order: seq<Future>, later: Outcomes)
    requires IsExecution(archs, states, events, outcomes) && files in states[|events|].tuples
    requires Ends(ProcessFiles(states[|events|].pool, files, after), order, later)
    ensures var p := ProcessFiles(states[|events|].pool, files, after);
            ReturnAll(p, order, later).keyError <==> |Coming(p, files, later)| > p.archs
  {
    var p := ProcessFiles(states[|events|].pool, files, after);
    Resubmitted(archs, states, events, outcomes, files, after, later);
    CounterIsMissedIffOverfull(p, order, later);
    assert Overfull(p, files, later) <==> |Coming(p, files, later)| > p.archs;
  }

  /** If no dump raises an exception, it fails if and only if a dump of the tuple was still pending. */
  lemma ResubmissionFailsIffPending(archs: nat, states: seq<System>, events: seq<Event>, outcomes: JobOutcomes,
                                    files: Files, after: bool, order: seq<Future>, later: Outcomes)
    requires IsExecution(archs, states, events, outcomes) && files in states[|events|].tuples
    requires Ends(ProcessFiles(states[|events|].pool, files, after), order, later)
    requires var p := ProcessFiles(states[|events|].pool, files, after);
             forall f :: f in p.jobs && IsDumpOf(p.jobs[f], files) ==> later(f, p.jobs[f]).Finished?
    ensures ReturnAll(ProcessFiles(states[|events|].pool, files, after), order, later).keyError
        <==> exists f :: f in states[|events|].pool.jobs && IsDumpOf(states[|events|].pool.jobs[f], files)
  {
    var q, p := states[|events|].pool, ProcessFiles(states[|events|].pool, files, after);
    Resubmitted(archs, states, events, outcomes, files, after, later);
    ResubmissionFailsIffTooManyComeBack(archs, states, events, outcomes, files, after, order, later);
    ArchsSubmitted(q, files, after, q.archs);
    NewDumpsCount(q, p, files, later);
    forall f | f in q.jobs && IsDumpOf(q.jobs[f], files) ensures f in Coming(q, files, later) {
      assert p.jobs[f] == q.jobs[f];
    }
  }

  lemma NewDumpsCount(p: Pool, p': Pool, files: Files, outcomes: Outcomes)
    requires FuturesAreNew(p) && Coming(p, files, outcomes) <= Coming(p', files, outcomes)
    requires forall f :: f in Coming(p', files, outcomes) ==>
             f in Coming(p, files, outcomes) || p.next <= f < p.next + p.archs
    requires forall f: Future :: p.next <= f < p.next + p.archs ==> f in Coming(p', files, outcomes)
    ensures |Coming(p', files, outcomes)| == |Coming(p, files, outcomes)| + p.archs
  {
    assert Coming(p', files, outcomes) == Coming(p, files, outcomes) + Interval(p.next, p.archs);
  }

  // ----- how often the clean-up runs -----

  predicate NoPendingBundle(p: Pool, files: Files) {
    forall m :: m in p.jobs && p.jobs[m].Mac? ==> Bundle(p.jobs[m].file) != files
  }

  /** The dumps to come are among those that were to come before. */
  predicate ComingFrom(p: Pool, p': Pool, files: Files, outcomes: Outcomes) {
    forall f :: f in Coming(p', files, outcomes) ==> f in Coming(p, files, outcomes) && p'.jobs[f] == p.jobs[f]
  }

  /** The clean-up of the tuple ran at most once, when the counter was full; with or without it as the dumps say. */
  predicate RanWhenFull(p: Pool, p': Pool, ran: seq<Ran>, files: Files, outcomes: Outcomes) {
    && (files in p'.record ==> RunsOf(ran, files) == 0)
    && RunsOf(ran, files) <= 1
    && ((forall f :: f in Coming(p, files, outcomes) ==> p.jobs[f].after) && files !in p'.record ==>
          RunsOf(ran, files) == 1)
    && ((forall f :: f in Coming(p, files, outcomes) ==> !p.jobs[f].after) ==> RunsOf(ran, files) == 0)
  }

  lemma ReturnAddsNoDump(p: Pool, f: Future, outcomes: Outcomes, files: Files)
    requires Sound(p) && f in p.jobs && NoPendingBundle(p, files)
    ensures var p' := Return(p, f, outcomes).pool; NoPendingBundle(p', files) && ComingFrom(p, p', files, outcomes)
  {
    if p.jobs[f].Mac? { ArchsSubmitted(p.(jobs := p.jobs - {f}), Bundle(p.jobs[f].file), true, p.archs); }
  }

  /** One more future: either the tuple is not concerned, or it is counted. */
  lemma ReturnRunsWhenFull(start: Pool, p: Pool, f: Future, ran: seq<Ran>, outcomes: Outcomes, files: Files)
    requires Sound(p) && f in p.jobs && NoPendingBundle(p, files) && !Return(p, f, outcomes).keyError
    requires ComingFrom(start, p, files, outcomes) && RanWhenFull(start, p, ran, files, outcomes)
    ensures var turn := Return(p, f, outcomes); RanWhenFull(start, turn.pool, ran + turn.ran, files, outcomes)
  {
    var turn := Return(p, f, outcomes);
    RunsOfAppend(ran, turn.ran, files);
    if IsDumpOf(p.jobs[f], files) && outcomes(f, p.jobs[f]).Finished? {
      assert f in Coming(p, files, outcomes);
    } else if p.jobs[f].Mac? {
      ArchsSubmitted(p.(jobs := p.jobs - {f}), Bundle(p.jobs[f].file), true, p.archs);
    }
  }

  lemma {:induction false} CleanUpRunsWhenFull(p: Pool, order: seq<Future>, outcomes: Outcomes, files: Files)
    requires Sound(p) && NoPendingBundle(p, files) && files in p.record
    requires CanReturn(p, order, outcomes) && !ReturnAll(p, order, outcomes).keyError
    ensures var turn := ReturnAll(p, order, outcomes);
            && Sound(turn.pool) && NoPendingBundle(turn.pool, files) && ComingFrom(p, turn.pool, files, outcomes)
            && turn.pool.archs == p.archs && Load(turn.pool, files, outcomes) == Load(p, files, outcomes)
            && RanWhenFull(p, turn.pool, turn.ran, files, outcomes)
  {
    if order != [] {
      var front, f := order[..|order| - 1], order[|order| - 1];
      var before := ReturnAll(p, front, outcomes);
      CleanUpRunsWhenFull(p, front, outcomes, files);
      ReturnKeepsOverfull(before.pool, f, outcomes, files);
      ReturnAddsNoDump(before.pool, f, outcomes, files);
      ReturnRunsWhenFull(p, before.pool, f, before.ran, outcomes, files);
    }
  }

  lemma {:induction false} NothingComesNothingRuns(p: Pool, order: seq<Future>, outcomes: Outcomes, files: Files)
    requires Sound(p) && NoPendingBundle(p, files) && Coming(p, files, outcomes) == {}
    requires CanReturn(p, order, outcomes) && !ReturnAll(p, order, outcomes).keyError
    ensures var turn := ReturnAll(p, order, outcomes);
            && Sound(turn.pool) && NoPendingBundle(turn.pool, files) && Coming(turn.pool, files, outcomes) == {}
            && RunsOf(turn.ran, files) == 0
  {
    if order != [] {
      var front, f := order[..|order| - 1], order[|order| - 1];
      var before := ReturnAll(p, front, outcomes);
      NothingComesNothingRuns(p, front, outcomes, files);
      ReturnKeepsOverfull(before.pool, f, outcomes, files);
      ReturnAddsNoDump(before.pool, f, outcomes, files);
      NothingRuns(before.pool, f, before.ran, outcomes, files);
    }
  }

  lemma NothingRuns(p: Pool, f: Future, ran: seq<Ran>, outcomes: Outcomes, files: Files)
    requires f in p.jobs && Coming(p, files, outcomes) == {} && RunsOf(ran, files) == 0
    ensures RunsOf(ran + Return(p, f, outcomes).ran, files) == 0
  {
    RunsOfAppend(ran, Return(p, f, outcomes).ran, files);
    if IsDumpOf(p.jobs[f], files) && outcomes(f, p.jobs[f]).Finished? { assert f in Coming(p, files, outcomes); }
  }

  /** The other half: if the counting does not fail, the clean-up runs once from then on if exactly as many dumps of the
      tuple come back as there are architectures, all with the clean-up, and never if fewer do, or all without. */
  lemma ResubmissionCleansUp(archs: nat, states: seq<System>, events: seq<Event>, outcomes: JobOutcomes, files: Files,
                             after: bool, order: seq<Future>, later: Outcomes)
    requires IsExecution(archs, states, events, outcomes) && files in states[|events|].tuples
    requires var p := ProcessFiles(states[|events|].pool, files, after);
             && CanReturn(p, order, later) && !ReturnAll(p, order, later).keyError
             && ReturnAll(p, order, later).pool.jobs == map[]
    ensures var p := ProcessFiles(states[|events|].pool, files, after);
            var coming, runs := Coming(p, files, later), RunsOf(ReturnAll(p, order, later).ran, files);
            && |coming| <= p.archs && runs <= 1
            && (|coming| < p.archs ==> runs == 0)
            && (|coming| == p.archs > 0 && (forall f :: f in coming ==> p.jobs[f].after) ==> runs == 1)
            && ((forall f :: f in coming ==> !p.jobs[f].after) ==> runs == 0)
  {
    var p := ProcessFiles(states[|events|].pool, files, after);
    var end := ReturnAll(p, order, later).pool;
    Resubmitted(archs, states, events, outcomes, files, after, later);
    ResubmissionFailsIffTooManyComeBack(archs, states, events, outcomes, files, after, order, later);
    if p.archs == 0 {
      NothingComesNothingRuns(p, order, later, files);
    } else {
      CleanUpRunsWhenFull(p, order, later, files);
      assert Coming(end, files, later) == {};
    }
  }

  /** The smallest case: one architecture, submitted twice. */
  lemma SecondSubmissionLosesTheCounter(files: Files, outcomes: Outcomes)
    requires forall f :: outcomes(f, Dump(files, 0, true)).Finished?
    ensures var p := ProcessFiles(ProcessFiles(Initial(1).pool, files, true), files, true);
            CanReturn(p, [0, 1], outcomes) && ReturnAll(p, [0, 1], outcomes).keyError
  {
    var once := ProcessFiles(Initial(1).pool, files, true);
    var p := ProcessFiles(once, files, true);
    assert once == Pool(1, map[0 := Dump(files, 0, true)], 1, map[files := 0]) by {
      assert SubmitArchs(Initial(1).pool, files, true, 0) == Initial(1).pool;
    }
    assert p == Pool(1, map[0 := Dump(files, 0, true), 1 := Dump(files, 0, true)], 2, map[files := 0]) by {
      assert SubmitArchs(once, files, true, 0) == once;
    }
    assert [0, 1][..1] == [0] && [0][..0] == [];
    assert CanReturn(p, [], outcomes) && CanReturn(p, [0], outcomes);
  }
}
