/** The miner as an object: shared atomics as fields, one method per atomic step of a worker. */
module Miner {
  import opened Arith
  import opened Types
  import opened Mining

  datatype MiningOutcome = StillRunning | Finished(nonce: Option<u64>, hashesComputed: u64)

  class Miner {
    const threads: nat
    const targetDifficulty: u64

    var running: bool
    var hashes: u64
    var foundSolution: bool
    var foundNonce: u64
    var workers: seq<Worker>
    ghost var stopped: bool

    ghost function View(): System
      reads this
    {
      System(running, foundSolution, foundNonce, hashes, stopped, workers)
    }

    constructor (threads: nat, targetDifficulty: u64)
      ensures this.threads == threads && this.targetDifficulty == targetDifficulty
      ensures !running && hashes == 0 && workers == []
    {
      this.threads, this.targetDifficulty := threads, targetDifficulty;
      running, hashes, foundSolution, foundNonce, workers, stopped := false, 0, false, 0, [], false;
    }

    /** `stop` only clears the running flag. */
    method Stop()
      modifies this`running, this`stopped
      ensures !running && stopped
    {
      running, stopped := false, true;
    }

    /** The effective target is the smaller of the miner's and the header's. */
    function JobFor(blake: Blake, header: MiningHeader): (job: Job)
      ensures forall n: u64 :: Meets(job, n) <==>
        PowValue(blake, InputFor(header, n)) <= targetDifficulty && PowValue(blake, InputFor(header, n)) <= header.difficulty
    {
      hide PowValue;
      Job(blake, header, Min(targetDifficulty, header.difficulty))
    }

    method Spawn()
      requires threads < U64_LIMIT
      modifies this
      ensures hashes == old(hashes) && View() == Initial(threads, old(hashes))
    {
      running, stopped := true, false;
      foundNonce, foundSolution := 0, false;
      workers := seq(threads, i requires 0 <= i < threads => Worker(LoadRunning, Wrap(i), []));
    }

    /** The next atomic step of one worker's loop. */
    method StepWorker(job: Job, i: nat)
      requires i < |workers|
      modifies this`running, this`hashes, this`foundSolution, this`foundNonce, this`workers
      ensures View() == WorkerStep(job, old(View()), i)
    {
      hide Meets, Wrap;
      var w := workers[i];
      match w.pc
      case LoadRunning =>
        workers := workers[i := w.(pc := if running then LoadFound else Done)];
      case LoadFound =>
        workers := workers[i := w.(pc := if foundSolution then Done else HashNonce)];
      case HashNonce =>
        hashes := Wrap(hashes + 1);
        if Meets(job, w.nonce) {
          workers := workers[i := Worker(StoreFound, w.nonce, w.tried + [w.nonce])];
        } else {
          workers := workers[i := Worker(LoadRunning, Wrap(w.nonce + |workers|), w.tried + [w.nonce])];
        }
      case StoreFound =>
        foundSolution := true;
        workers := workers[i := w.(pc := StoreNonce)];
      case StoreNonce =>
        foundNonce := w.nonce;
        workers := workers[i := w.(pc := StoreRunning)];
      case StoreRunning =>
        running := false;
        workers := workers[i := w.(pc := Done)];
      case Done =>
    }

    /**
     * `start` under a given interleaving: spawn, let the scheduler act, join, read the result.
     * A finished search without `stop` has a nonce, and any nonce passes the pallet's check.
     */
    method Start(blake: Blake, header: MiningHeader, schedule: seq<Action>) returns (outcome: MiningOutcome)
      requires threads < U64_LIMIT
      modifies this
      ensures View() == RunActions(JobFor(blake, header), Initial(threads, old(hashes)), schedule)
      ensures outcome.Finished? == Joined(View())
      ensures outcome.Finished? ==> outcome.nonce == Result(View()) && outcome.hashesComputed == hashes
      ensures outcome.Finished? && outcome.nonce.Some? ==>
        VerifyPow(blake, Completed(header, outcome.nonce.value), header.difficulty)
      ensures outcome.Finished? && threads > 0 && StopCalled !in schedule ==> outcome.nonce.Some?
    {
      var job := JobFor(blake, header);
      ghost var h0 := hashes;
      Spawn();
      for k := 0 to |schedule|
        invariant View() == RunActions(job, Initial(threads, h0), schedule[..k])
      {
        assert schedule[..k + 1][..k] == schedule[..k];
        match schedule[k]
        case StopCalled => Stop();
        case Work(i) =>
          if i < |workers| { StepWorker(job, i); }
      }
      assert schedule[..|schedule|] == schedule;
      if exists i :: 0 <= i < |workers| && workers[i].pc != Done {
        return StillRunning;
      }
      FinishedResult(job, threads, h0, schedule, targetDifficulty);
      return Finished(if foundSolution then Some(foundNonce) else None, hashes);
    }
  }

  lemma FinishedResult(job: Job, n: nat, h0: u64, schedule: seq<Action>, minerTarget: u64)
    requires n < U64_LIMIT && job.target == Min(minerTarget, job.header.difficulty)
    requires Joined(RunActions(job, Initial(n, h0), schedule))
    ensures var r := Result(RunActions(job, Initial(n, h0), schedule));
            && (r.Some? ==> VerifyPow(job.blake, Completed(job.header, r.value), job.header.difficulty))
            && (n > 0 && StopCalled !in schedule ==> r.Some?)
  {
    hide RunActions, VerifyPow, Initial, Joined;
    ReturnedNonceIsValid(job, n, h0, schedule, minerTarget);
    if n > 0 && StopCalled !in schedule { CompletionFinds(job, n, h0, schedule); }
  }
}
