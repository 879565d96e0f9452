/** The symbol dumper's pool of jobs as a value. Callbacks of finished jobs submit further jobs, and the jobs of one
    tuple of files are counted until its clean-up may run. */
module JobPoolSpec {
  import opened Common

  type Files = seq<string>

  type Future = nat

  /** A dump for one architecture, or the Mac pre-processing of one file. */
  datatype Job = Dump(files: Files, arch: nat, after: bool) | Mac(file: string)

  /** What a worker makes of a job. */
  datatype Result = Raised | Finished(status: bool)

  /** Each future has its own outcome, also if a job is submitted twice. */
  type Outcomes = (Future, Job) -> Result

  type JobOutcomes = Job -> Result

  function ByJob(outcomes: JobOutcomes): Outcomes {
    (f, job) => outcomes(job)
  }

  /** The clean-up function of a tuple was called with the status of the job that came back last. */
  datatype Ran = Ran(files: Files, status: bool)

  datatype Pool = Pool(archs: nat, jobs: map<Future, Job>, next: Future, record: map<Files, nat>)

  /** `keyError`: a job came back for a tuple that is not counted any more. */
  datatype Turn = Turn(pool: Pool, ran: seq<Ran>, keyError: bool)

  /** The files dumped after the pre-processing: the bundle, then the file itself. */
  function Bundle(file: string): Files {
    [file + ".dSYM", file]
  }

  function Submit(p: Pool, job: Job): Pool {
    p.(jobs := p.jobs[p.next := job], next := p.next + 1)
  }

  /** The loop of `process_files` over the first k architectures. */
  function SubmitArchs(p: Pool, files: Files, after: bool, k: nat): Pool {
    if k == 0 then p
    else
      var before := SubmitArchs(p, files, after, k - 1);
      Submit(before.(record := before.record[files := 0]), Dump(files, k - 1, after))
  }

  function ProcessFiles(p: Pool, files: Files, after: bool): Pool {
    SubmitArchs(p, files, after, p.archs)
  }

  function Counted(p: Pool, files: Files, status: bool, after: bool): Turn {
    if files !in p.record then Turn(p, [], true)
    else
      var count := p.record[files] + 1;
      if count == p.archs then Turn(p.(record := p.record - {files}), if after then [Ran(files, status)] else [], false)
      else Turn(p.(record := p.record[files := count]), [], false)
  }

  /** A future is taken off the pool, and its callback is called unless the job raised an exception. */
  function Return(p: Pool, f: Future, outcomes: Outcomes): Turn
    requires f in p.jobs
  {
    var job := p.jobs[f];
    var p' := p.(jobs := p.jobs - {f});
    match outcomes(f, job)
    case Raised => Turn(p', [], false)
    case Finished(status) =>
      match job
      case Dump(files, _, after) => Counted(p', files, status, after)
      case Mac(file) => Turn(if status then ProcessFiles(p', Bundle(file), true) else p', [], false)
  }

  /** The futures can come back in this order. */
  predicate CanReturn(p: Pool, order: seq<Future>, outcomes: Outcomes)
    decreases |order|, 0
  {
    order == [] ||
    var front, last := order[..|order| - 1], order[|order| - 1];
    && CanReturn(p, front, outcomes)
    && !ReturnAll(p, front, outcomes).keyError
    && last in ReturnAll(p, front, outcomes).pool.jobs
  }

  function ReturnAll(p: Pool, order: seq<Future>, outcomes: Outcomes): Turn
    requires CanReturn(p, order, outcomes)
    decreases |order|, 1
  {
    if order == [] then Turn(p, [], false)
    else
      var before := ReturnAll(p, order[..|order| - 1], outcomes);
      var last := Return(before.pool, order[|order| - 1], outcomes);
      Turn(last.pool, before.ran + last.ran, last.keyError)
  }
}
