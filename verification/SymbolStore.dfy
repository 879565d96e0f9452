/** The dumper with its pool, updated in place. */
module SymbolStore {
  import opened Common
  import opened JobPoolSpec

  class Dumper {
    const archs: nat
    var jobs: map<Future, Job>
    var nextFuture: Future
    var filesRecord: map<Files, nat>

    ghost function Value(): Pool
      reads this
    {
      Pool(archs, jobs, nextFuture, filesRecord)
    }

    constructor (archs: nat)
      ensures Value() == Pool(archs, map[], 0, map[])
    {
      this.archs := archs;
      jobs, nextFuture, filesRecord := map[], 0, map[];
    }

    method SubmitJob(job: Job)
      modifies this
      ensures Value() == Submit(old(Value()), job)
    {
      jobs := jobs[nextFuture := job];
      nextFuture := nextFuture + 1;
    }

    method ProcessFiles(files: Files, after: bool)
      modifies this
      ensures Value() == JobPoolSpec.ProcessFiles(old(Value()), files, after)
    {
      for arch := 0 to archs
        invariant Value() == SubmitArchs(old(Value()), files, after, arch)
      {
        filesRecord := filesRecord[files := 0];
        SubmitJob(Dump(files, arch, after));
      }
    }

    /** The Mac variant first has a bundle made. */
    method ProcessFilesMac(file: string)
      modifies this
      ensures Value() == Submit(old(Value()), Mac(file))
    {
      SubmitJob(Mac(file));
    }

    method ProcessFilesFinished(files: Files, status: bool, after: bool) returns (ran: seq<Ran>, keyError: bool)
      modifies this
      ensures Turn(Value(), ran, keyError) == Counted(old(Value()), files, status, after)
    {
      ran, keyError := [], false;
      if files !in filesRecord { return [], true; }
      filesRecord := filesRecord[files := filesRecord[files] + 1];
      if filesRecord[files] == archs {
        filesRecord := filesRecord - {files};
        assert filesRecord == old(filesRecord) - {files};
        if after { ran := [Ran(files, status)]; }
      }
    }

    method Callback(job: Job, status: bool) returns (ran: seq<Ran>, keyError: bool)
      modifies this
      ensures Turn(Value(), ran, keyError) == match job
        case Dump(files, _, after) => Counted(old(Value()), files, status, after)
        case Mac(file) => Turn(if status then JobPoolSpec.ProcessFiles(old(Value()), Bundle(file), true)
            else old(Value()), [], false)
    {
      match job {
        case Dump(files, _, after) => ran, keyError := ProcessFilesFinished(files, status, after);
        case Mac(file) =>
          ran, keyError := [], false;
          if status { ProcessFiles(Bundle(file), true); }
      }
    }

    /** Works off the pool until it is empty, whatever the order in which jobs complete and whatever their callbacks
        submit. */
    method Finish(outcomes: Outcomes) returns (ran: seq<Ran>, keyError: bool, ghost order: seq<Future>)
      requires FuturesAreNew(Value())
      modifies this
      ensures CanReturn(old(Value()), order, outcomes)
      ensures Turn(Value(), ran, keyError) == ReturnAll(old(Value()), order, outcomes)
      ensures !keyError ==> jobs == map[]
    {
      ran, keyError, order := [], false, [];
      while jobs != map[] && !keyError
        invariant FuturesAreNew(Value())
        invariant CanReturn(old(Value()), order, outcomes)
        invariant Turn(Value(), ran, keyError) == ReturnAll(old(Value()), order, outcomes)
        decreases MacJobs(jobs), jobs.Keys, !keyError
      {
        ghost var before := Value();
        var completed: set<Future> :| completed <= jobs.Keys && completed != {} by {
          assert jobs.Keys <= jobs.Keys && jobs.Keys != {};
        }
        while completed != {} && !keyError
          invariant FuturesAreNew(Value())
          invariant completed <= jobs.Keys
          invariant CanReturn(old(Value()), order, outcomes)
          invariant Turn(Value(), ran, keyError) == ReturnAll(old(Value()), order, outcomes)
          invariant (completed != {} && Value() == before) || Shrunk(before, Value())
          decreases completed
        {
          var f :| f in completed;
          completed := completed - {f};
          ReturnShrinks(Value(), f, outcomes);
          ghost var front := order;
          order := order + [f];
          assert order[..|order| - 1] == front;
          var more: seq<Ran>;
          more, keyError := Complete(f, outcomes);
          ran := ran + more;
        }
      }
    }

    /** A completed future is taken off the pool and yielded, and its callback is called unless the job raised. */
    method Complete(f: Future, outcomes: Outcomes) returns (ran: seq<Ran>, keyError: bool)
      requires f in jobs
      modifies this
      ensures Turn(Value(), ran, keyError) == Return(old(Value()), f, outcomes)
    {
      ran, keyError := [], false;
      var job := jobs[f];
      jobs := jobs - {f};
      var result := outcomes(f, job);
      if result.Finished? { ran, keyError := Callback(job, result.status); }
    }
  }

  /** The pool hands out each future once. */
  predicate FuturesAreNew(p: Pool) {
    forall f :: f in p.jobs ==> f < p.next
  }

  function MacJobs(jobs: map<Future, Job>): set<Future> {
    set f | f in jobs && jobs[f].Mac?
  }

  predicate Shrunk(p: Pool, p': Pool) {
    MacJobs(p'.jobs) < MacJobs(p.jobs) || (MacJobs(p'.jobs) == MacJobs(p.jobs) && p'.jobs.Keys < p.jobs.Keys)
  }

  lemma {:induction false} ArchsAddDumps(p: Pool, files: Files, after: bool, k: nat)
    requires FuturesAreNew(p)
    ensures var p' := SubmitArchs(p, files, after, k);
            && FuturesAreNew(p') && MacJobs(p'.jobs) == MacJobs(p.jobs) && p.jobs.Keys <= p'.jobs.Keys
            && p'.archs == p.archs
  {
    if k > 0 { ArchsAddDumps(p, files, after, k - 1); }
  }

  /** A returning job leaves either fewer pre-processing jobs, or equally many and fewer jobs altogether. */
  lemma ReturnShrinks(p: Pool, f: Future, outcomes: Outcomes)
    requires FuturesAreNew(p) && f in p.jobs
    ensures var p' := Return(p, f, outcomes).pool;
            && FuturesAreNew(p')
            && p.jobs.Keys - {f} <= p'.jobs.Keys
            && Shrunk(p, p')
  {
    var rest := p.(jobs := p.jobs - {f});
    if p.jobs[f].Mac? {
      assert f in MacJobs(p.jobs) && MacJobs(rest.jobs) == MacJobs(p.jobs) - {f};
      ArchsAddDumps(rest, Bundle(p.jobs[f].file), true, p.archs);
    } else {
      assert MacJobs(rest.jobs) == MacJobs(p.jobs);
    }
  }
}
