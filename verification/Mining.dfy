/**
 * The multi-threaded nonce search as interleaved atomic steps, and the sequential search it is
 * compared with. Every flag is sequentially consistent, so one global order of steps is faithful.
 */
module Mining {
  import opened Arith
  import opened Types

  datatype MiningHeader = MiningHeader(
    number: u32, parentHash: Hash, stateRoot: Hash, extrinsicsRoot: Hash, difficulty: u64)

  /** What all workers search: the hashed fields and the effective target. */
  datatype Job = Job(blake: Blake, header: MiningHeader, target: u64)

  function InputFor(h: MiningHeader, nonce: u64): PowInput
  {
    PowInput(h.number, h.parentHash, h.stateRoot, h.extrinsicsRoot, nonce)
  }

  predicate Meets(job: Job, nonce: u64)
  {
    PowValue(job.blake, InputFor(job.header, nonce)) <= job.target
  }

  /** The atomic step a worker takes next. */
  datatype Pc = LoadRunning | LoadFound | HashNonce | StoreFound | StoreNonce | StoreRunning | Done

  /** `tried` is the history of hashed nonces; the program itself does not keep it. */
  datatype Worker = Worker(pc: Pc, nonce: u64, tried: seq<u64>)

  /** Shared atomics and workers; `stopped` records that `stop` was called. */
  datatype System = System(
    running: bool, found: bool, foundNonce: u64, hashes: u64, stopped: bool, workers: seq<Worker>)

  datatype Action = Work(worker: nat) | StopCalled

  function Wrap(n: nat): u64 { n % U64_LIMIT }

  /** The nonce worker `i` of `n` hashes in its attempt number `k`. */
  function Nonce(i: nat, n: nat, k: nat): u64 { Wrap(i + n * k) }

  function Initial(n: nat, hashes: u64): System
    requires n < U64_LIMIT
  {
    System(true, false, 0, hashes, false, seq(n, i requires 0 <= i < n => Worker(LoadRunning, Wrap(i), [])))
  }

  function WithWorker(s: System, i: nat, w: Worker): System
    requires i < |s.workers|
  {
    s.(workers := s.workers[i := w])
  }

  /** One atomic step of worker `i`. */
  function WorkerStep(job: Job, s: System, i: nat): (s': System)
    requires i < |s.workers|
    ensures |s'.workers| == |s.workers|
  {
    var w := s.workers[i];
    match w.pc
    case LoadRunning => WithWorker(s, i, w.(pc := if s.running then LoadFound else Done))
    case LoadFound => WithWorker(s, i, w.(pc := if s.found then Done else HashNonce))
    case HashNonce =>
      var counted := s.(hashes := Wrap(s.hashes + 1));
      var tried := w.tried + [w.nonce];
      if Meets(job, w.nonce) then WithWorker(counted, i, Worker(StoreFound, w.nonce, tried))
      else WithWorker(counted, i, Worker(LoadRunning, Wrap(w.nonce + |s.workers|), tried))
    case StoreFound => WithWorker(s, i, w.(pc := StoreNonce)).(found := true)
    case StoreNonce => WithWorker(s, i, w.(pc := StoreRunning)).(foundNonce := w.nonce)
    case StoreRunning => WithWorker(s, i, w.(pc := Done)).(running := false)
    case Done => s
  }

  function Act(job: Job, s: System, a: Action): (s': System)
    ensures |s'.workers| == |s.workers|
  {
    match a
    case Work(i) => if i < |s.workers| then WorkerStep(job, s, i) else s
    case StopCalled => s.(running := false, stopped := true)
  }

  function RunActions(job: Job, s: System, actions: seq<Action>): (s': System)
    ensures |s'.workers| == |s.workers|
  {
    if actions == [] then s else Act(job, RunActions(job, s, actions[..|actions| - 1]), actions[|actions| - 1])
  }

  /** All workers joined. */
  predicate Joined(s: System)
  {
    forall i :: 0 <= i < |s.workers| ==> s.workers[i].pc == Done
  }

  /** What `start` returns after the join. */
  function Result(s: System): Option<u64>
  {
    if s.found then Some(s.foundNonce) else None
  }

  // ----- Invariant

  ghost predicate AllFail(job: Job, nonces: seq<u64>)
  {
    forall j :: 0 <= j < |nonces| ==> !Meets(job, nonces[j])
  }

  /** The last hashed nonce meets the target, and no earlier one does. */
  ghost predicate HasFound(job: Job, w: Worker)
  {
    |w.tried| > 0 && w.nonce == w.tried[|w.tried| - 1] && Meets(job, w.nonce) && AllFail(job, w.tried[..|w.tried| - 1])
  }

  ghost predicate StillSearching(job: Job, w: Worker, i: nat, n: nat)
  {
    AllFail(job, w.tried) && w.nonce == Nonce(i, n, |w.tried|)
  }

  /** Worker `i` has hashed exactly its own arithmetic progression, in order. */
  ghost predicate WorkerInv(job: Job, w: Worker, i: nat, n: nat)
  {
    && (forall k :: 0 <= k < |w.tried| ==> w.tried[k] == Nonce(i, n, k))
    && match w.pc
       case LoadRunning => StillSearching(job, w, i, n)
       case LoadFound => StillSearching(job, w, i, n)
       case HashNonce => StillSearching(job, w, i, n)
       case Done => StillSearching(job, w, i, n) || HasFound(job, w)
       case _ => HasFound(job, w)
  }

  /** The published nonce is the one some worker found. */
  ghost predicate Published(job: Job, s: System)
  {
    exists i :: 0 <= i < |s.workers| && HasFound(job, s.workers[i]) && s.workers[i].nonce == s.foundNonce
  }

  ghost predicate BetweenStores(s: System)
  {
    exists i :: 0 <= i < |s.workers| && s.workers[i].pc == StoreNonce
  }

  function Attempts(ws: seq<Worker>): nat
  {
    if ws == [] then 0 else Attempts(ws[..|ws| - 1]) + |ws[|ws| - 1].tried|
  }

  /** A worker leaves its loop on a set found flag or a cleared running flag, and a finder has cleared the latter. */
  ghost predicate ExitsExplained(job: Job, s: System)
  {
    forall i :: 0 <= i < |s.workers| && s.workers[i].pc == Done ==>
      (s.found || !s.running) && (HasFound(job, s.workers[i]) ==> !s.running)
  }

  ghost predicate Inv(job: Job, h0: u64, s: System)
  {
    && (forall i :: 0 <= i < |s.workers| ==> WorkerInv(job, s.workers[i], i, |s.workers|))
    && (s.found ==> BetweenStores(s) || Published(job, s))
    && (forall i :: 0 <= i < |s.workers| && s.workers[i].pc in {StoreNonce, StoreRunning} ==> s.found)
    && (forall i :: 0 <= i < |s.workers| && s.workers[i].pc == Done ==> s.found || s.stopped)
    && (!s.running ==> s.found || s.stopped)
    && ExitsExplained(job, s)
    && s.hashes == Wrap(h0 + Attempts(s.workers))
  }

  lemma InitialInv(job: Job, n: nat, h0: u64)
    requires n < U64_LIMIT
    ensures Inv(job, h0, Initial(n, h0))
  {
    var s := Initial(n, h0);
    NoAttempts(s.workers);
    forall i | 0 <= i < n ensures WorkerInv(job, s.workers[i], i, n) {
      assert n * 0 == 0;
    }
  }

  lemma {:induction false} NoAttempts(ws: seq<Worker>)
    requires forall i :: 0 <= i < |ws| ==> ws[i].tried == []
    ensures Attempts(ws) == 0
  {
    if ws != [] { NoAttempts(ws[..|ws| - 1]); }
  }

  lemma {:induction false} AttemptsUpdate(ws: seq<Worker>, i: nat, w: Worker)
    requires i < |ws|
    ensures Attempts(ws[i := w]) + |ws[i].tried| == Attempts(ws) + |w.tried|
  {
    var k := |ws| - 1;
    if i == k {
      assert ws[i := w][..k] == ws[..k];
    } else {
      assert ws[i := w][..k] == ws[..k][i := w];
      AttemptsUpdate(ws[..k], i, w);
    }
  }

  lemma NextNonce(i: nat, n: nat, k: nat)
    ensures Wrap(Nonce(i, n, k) + n) == Nonce(i, n, k + 1)
  {
    var a := i + n * k;
    assert i + n * (k + 1) == a + n;
    WrapAdd(a, n);
  }

  lemma WrapAdd(a: nat, b: nat)
    ensures Wrap(Wrap(a) + b) == Wrap(a + b)
  {
    var q := a / U64_LIMIT;
    assert a == q * U64_LIMIT + Wrap(a);
    var c := Wrap(a) + b;
    DivModUnique(q + c / U64_LIMIT, U64_LIMIT, c % U64_LIMIT);
  }

  lemma SearchingHasNotFound(job: Job, w: Worker, i: nat, n: nat)
    requires StillSearching(job, w, i, n)
    ensures !HasFound(job, w)
  {
    if |w.tried| > 0 { assert !Meets(job, w.tried[|w.tried| - 1]); }
  }

  /** The worker that takes a step keeps its own invariant, and never forgets what it found. */
  lemma StepKeepsWorker(job: Job, s: System, i: nat)
    requires i < |s.workers| && WorkerInv(job, s.workers[i], i, |s.workers|)
    ensures WorkerInv(job, WorkerStep(job, s, i).workers[i], i, |s.workers|)
    ensures HasFound(job, s.workers[i]) ==>
      HasFound(job, WorkerStep(job, s, i).workers[i]) && WorkerStep(job, s, i).workers[i].nonce == s.workers[i].nonce
  {
    hide Meets, Nonce, Wrap;
    if s.workers[i].pc == HashNonce {
      HashingKeepsWorker(job, s.workers[i], i, |s.workers|);
    }
  }

  /** The three facts a hashing step needs: it has not found yet, its next nonce, and its longer history. */
  lemma HashingKeepsWorker(job: Job, w: Worker, i: nat, n: nat)
    requires WorkerInv(job, w, i, n) && w.pc == HashNonce
    ensures !HasFound(job, w)
    ensures Meets(job, w.nonce) ==> WorkerInv(job, Worker(StoreFound, w.nonce, w.tried + [w.nonce]), i, n)
    ensures !Meets(job, w.nonce) ==> WorkerInv(job, Worker(LoadRunning, Wrap(w.nonce + n), w.tried + [w.nonce]), i, n)
  {
    hide Meets, Nonce, Wrap;
    SearchingHasNotFound(job, w, i, n);
    NextNonce(i, n, |w.tried|);
    assert (w.tried + [w.nonce])[..|w.tried|] == w.tried;
  }

  lemma StepKeepsFlags(job: Job, h0: u64, s: System, i: nat)
    requires Inv(job, h0, s) && i < |s.workers|
    ensures var s' := WorkerStep(job, s, i);
            && (s'.found ==> BetweenStores(s') || Published(job, s'))
            && (forall j :: 0 <= j < |s'.workers| && s'.workers[j].pc in {StoreNonce, StoreRunning} ==> s'.found)
            && (forall j :: 0 <= j < |s'.workers| && s'.workers[j].pc == Done ==> s'.found || s'.stopped)
            && (!s'.running ==> s'.found || s'.stopped)
  {
    hide Meets, Nonce, Wrap, HasFound, Attempts;
    StepKeepsWorker(job, s, i);
    var s' := WorkerStep(job, s, i);
    if s.workers[i].pc == StoreNonce {
      StoringHasFound(job, s.workers[i], i, |s.workers|);
      assert HasFound(job, s'.workers[i]) && s'.workers[i].nonce == s'.foundNonce;
    } else if s.workers[i].pc == StoreFound {
      assert s'.workers[i].pc == StoreNonce;
    } else if s.found && BetweenStores(s) {
      var k :| 0 <= k < |s.workers| && s.workers[k].pc == StoreNonce;
      assert s'.workers[k].pc == StoreNonce;
    } else if s.found {
      var k :| 0 <= k < |s.workers| && HasFound(job, s.workers[k]) && s.workers[k].nonce == s.foundNonce;
      assert HasFound(job, s'.workers[k]) && s'.workers[k].nonce == s'.foundNonce;
    }
  }

  lemma StepKeepsExits(job: Job, s: System, i: nat)
    requires i < |s.workers| && WorkerInv(job, s.workers[i], i, |s.workers|) && ExitsExplained(job, s)
    ensures ExitsExplained(job, WorkerStep(job, s, i))
  {
    hide Meets, Nonce, Wrap, HasFound, WorkerInv;
    SearchersHaveNotFound(job, s.workers[i], i, |s.workers|);
  }

  lemma SearchersHaveNotFound(job: Job, w: Worker, i: nat, n: nat)
    requires WorkerInv(job, w, i, n)
    ensures w.pc in {LoadRunning, LoadFound} ==> !HasFound(job, Worker(Done, w.nonce, w.tried))
  {
    hide Meets, Nonce;
    if w.pc in {LoadRunning, LoadFound} { SearchingHasNotFound(job, Worker(Done, w.nonce, w.tried), i, n); }
  }

  lemma StoringHasFound(job: Job, w: Worker, i: nat, n: nat)
    requires WorkerInv(job, w, i, n) && w.pc == StoreNonce
    ensures HasFound(job, w)
  {}

  lemma StepKeepsCount(job: Job, h0: u64, s: System, i: nat)
    requires i < |s.workers| && s.hashes == Wrap(h0 + Attempts(s.workers))
    ensures WorkerStep(job, s, i).hashes == Wrap(h0 + Attempts(WorkerStep(job, s, i).workers))
  {
    hide Meets, Wrap, Attempts;
    var s' := WorkerStep(job, s, i);
    assert s'.workers == s.workers[i := s'.workers[i]];
    AttemptsUpdate(s.workers, i, s'.workers[i]);
    WrapAdd(h0 + Attempts(s.workers), 1);
  }

  lemma ActKeepsInv(job: Job, h0: u64, s: System, a: Action)
    requires Inv(job, h0, s)
    ensures Inv(job, h0, Act(job, s, a))
  {
    hide WorkerInv, HasFound, Attempts, Meets, Wrap;
    match a
    case StopCalled =>
      if s.found && BetweenStores(s) { assert BetweenStores(Act(job, s, a)); }
      if s.found && Published(job, s) { assert Published(job, Act(job, s, a)); }
    case Work(i) =>
      if i < |s.workers| {
        StepKeepsWorker(job, s, i);
        StepKeepsFlags(job, h0, s, i);
        StepKeepsExits(job, s, i);
        StepKeepsCount(job, h0, s, i);
      }
  }

  /** The invariant holds after every interleaving of worker steps and stops. */
  lemma {:induction false} EveryInterleaving(job: Job, n: nat, h0: u64, actions: seq<Action>)
    requires n < U64_LIMIT
    ensures Inv(job, h0, RunActions(job, Initial(n, h0), actions))
  {
    hide Inv, Act;
    if actions == [] {
      InitialInv(job, n, h0);
    } else {
      EveryInterleaving(job, n, h0, actions[..|actions| - 1]);
      ActKeepsInv(job, h0, RunActions(job, Initial(n, h0), actions[..|actions| - 1]), actions[|actions| - 1]);
    }
  }

  // ----- Main results

  /** Whenever the flag is set, some worker sits between its two stores, or the published nonce meets the target. */
  lemma FlagMeansNonce(job: Job, n: nat, h0: u64, actions: seq<Action>)
    requires n < U64_LIMIT
    ensures var s := RunActions(job, Initial(n, h0), actions);
            s.found ==> BetweenStores(s) || Meets(job, s.foundNonce)
  {
    hide RunActions, Attempts, Initial;
    EveryInterleaving(job, n, h0, actions);
  }

  /** The header that a found nonce completes. */
  function Completed(h: MiningHeader, nonce: u64): Header
  {
    Header(h.number, h.parentHash, h.stateRoot, h.extrinsicsRoot, nonce, h.difficulty, None, None)
  }

  /** A returned nonce passes `verify_pow_enhanced` at the header's own difficulty. */
  lemma ReturnedNonceIsValid(job: Job, n: nat, h0: u64, actions: seq<Action>, minerTarget: u64)
    requires n < U64_LIMIT && job.target == Min(minerTarget, job.header.difficulty)
    requires Joined(RunActions(job, Initial(n, h0), actions))
    ensures var r := Result(RunActions(job, Initial(n, h0), actions));
            r.Some? ==> VerifyPow(job.blake, Completed(job.header, r.value), job.header.difficulty)
  {
    hide RunActions, Attempts, Initial, PowValue;
    EveryInterleaving(job, n, h0, actions);
    FlagMeansNonce(job, n, h0, actions);
  }

  /** Only `stop` sets the stopped flag, and nothing sets the running flag again. */
  lemma ActStops(job: Job, s: System, a: Action)
    ensures Act(job, s, a).stopped == (s.stopped || a == StopCalled)
    ensures Act(job, s, a).running ==> s.running && a != StopCalled
  {
    hide Meets, Wrap;
  }

  lemma {:induction false} OnlyStopStops(job: Job, s: System, actions: seq<Action>)
    ensures RunActions(job, s, actions).stopped == (s.stopped || StopCalled in actions)
  {
    hide Act;
    if actions != [] {
      var k := |actions| - 1;
      assert actions == actions[..k] + [actions[k]];
      OnlyStopStops(job, s, actions[..k]);
      ActStops(job, RunActions(job, s, actions[..k]), actions[k]);
    }
  }

  /** With at least one worker and no call of `stop`, a completed search returns a nonce. */
  lemma CompletionFinds(job: Job, n: nat, h0: u64, actions: seq<Action>)
    requires 0 < n < U64_LIMIT && StopCalled !in actions
    requires Joined(RunActions(job, Initial(n, h0), actions))
    ensures Result(RunActions(job, Initial(n, h0), actions)).Some?
  {
    hide RunActions, Attempts, WorkerInv, HasFound;
    EveryInterleaving(job, n, h0, actions);
    OnlyStopStops(job, Initial(n, h0), actions);
    var s := RunActions(job, Initial(n, h0), actions);
    assert s.workers[0].pc == Done;
  }

  /** A completed search with a thread has cleared the running flag, whoever ended it. */
  lemma CompletionStops(job: Job, n: nat, h0: u64, actions: seq<Action>)
    requires 0 < n < U64_LIMIT && Joined(RunActions(job, Initial(n, h0), actions))
    ensures !RunActions(job, Initial(n, h0), actions).running
  {
    hide RunActions, Attempts, WorkerInv, HasFound;
    EveryInterleaving(job, n, h0, actions);
    var s := RunActions(job, Initial(n, h0), actions);
    assert s.workers[0].pc == Done;
    if s.found {
      var i :| 0 <= i < |s.workers| && HasFound(job, s.workers[i]) && s.workers[i].nonce == s.foundNonce;
      assert s.workers[i].pc == Done;
    }
  }

  /** The flag is stored before the nonce: between the two stores it is set while the nonce can still be wrong. */
  lemma FlagPrecedesNonce(job: Job, h0: u64)
    requires !Meets(job, 0) && Meets(job, 1)
    ensures var s := RunActions(job, Initial(2, h0), [Work(1), Work(1), Work(1), Work(1)]);
            s.found && BetweenStores(s) && !Meets(job, s.foundNonce)
  {
    hide Meets;
    var actions := [Work(1), Work(1), Work(1), Work(1)];
    assert actions[..3] == [Work(1), Work(1), Work(1)] && actions[..3][..2] == [Work(1), Work(1)];
    assert [Work(1), Work(1)][..1] == [Work(1)] && [Work(1)][..0] == [];
    var s0 := Initial(2, h0);
    var s1, s2 := Act(job, s0, Work(1)), Act(job, Act(job, s0, Work(1)), Work(1));
    assert RunActions(job, s0, [Work(1)]) == s1;
    assert RunActions(job, s0, [Work(1), Work(1)]) == s2;
    var s3 := Act(job, s2, Work(1));
    assert s3.workers[1].pc == StoreFound;
    assert RunActions(job, s0, [Work(1), Work(1), Work(1)]) == s3;
    assert Act(job, s3, Work(1)).workers[1].pc == StoreNonce;
  }

  /** The counter grows by exactly the number of attempts, modulo 2^64. */
  lemma HashesCountAttempts(job: Job, n: nat, h0: u64, actions: seq<Action>)
    requires n < U64_LIMIT
    ensures var s := RunActions(job, Initial(n, h0), actions);
            s.hashes == Wrap(h0 + Attempts(s.workers))
  {
    hide RunActions, Attempts, WorkerInv, HasFound, Initial;
    EveryInterleaving(job, n, h0, actions);
  }

  /** Worker `i`'s attempts have not wrapped around 2^64. */
  predicate Unwrapped(s: System, i: nat)
    requires i < |s.workers|
  {
    |s.workers[i].tried| == 0 || i + |s.workers| * (|s.workers[i].tried| - 1) < U64_LIMIT
  }

  /** Until a counter wraps, worker `i` has tried exactly the first members of its residue class. */
  lemma NoncePartition(job: Job, n: nat, h0: u64, actions: seq<Action>, i: nat, m: u64)
    requires i < n < U64_LIMIT && Unwrapped(RunActions(job, Initial(n, h0), actions), i)
    ensures var tried := RunActions(job, Initial(n, h0), actions).workers[i].tried;
            m in tried <==> m % n == i && m / n < |tried|
  {
    hide RunActions, Attempts, HasFound, StillSearching;
    EveryInterleaving(job, n, h0, actions);
    TriedIsClass(RunActions(job, Initial(n, h0), actions).workers[i].tried, i, n, m);
  }

  lemma TriedIsClass(tried: seq<u64>, i: nat, n: nat, m: u64)
    requires i < n && (|tried| == 0 || i + n * (|tried| - 1) < U64_LIMIT)
    requires forall k :: 0 <= k < |tried| ==> tried[k] == Nonce(i, n, k)
    ensures m in tried <==> m % n == i && m / n < |tried|
  {
    hide Nonce;
    if m in tried {
      var k :| 0 <= k < |tried| && tried[k] == m;
      NonceOf(i, n, k, |tried|);
      DivModUnique(k, n, i);
    }
    if m % n == i && m / n < |tried| {
      NonceOf(i, n, m / n, |tried|);
      assert tried[m / n] == m;
    }
  }

  lemma NonceOf(i: nat, n: nat, k: nat, count: nat)
    requires k < count && i + n * (count - 1) < U64_LIMIT
    ensures Nonce(i, n, k) == k * n + i
  {
    MulMono(k, count - 1, n);
  }

  /** Two workers never hash the same nonce, and no worker hashes one twice, until a counter wraps. */
  lemma NoRepeatedWork(job: Job, n: nat, h0: u64, actions: seq<Action>, i: nat, a: nat, j: nat, b: nat)
    requires i < n && j < n < U64_LIMIT
    requires Unwrapped(RunActions(job, Initial(n, h0), actions), i)
    requires Unwrapped(RunActions(job, Initial(n, h0), actions), j)
    requires a < |RunActions(job, Initial(n, h0), actions).workers[i].tried|
    requires b < |RunActions(job, Initial(n, h0), actions).workers[j].tried|
    ensures var s := RunActions(job, Initial(n, h0), actions);
            (s.workers[i].tried[a] == s.workers[j].tried[b]) <==> (i == j && a == b)
  {
    hide RunActions, Attempts, HasFound, StillSearching, Nonce;
    EveryInterleaving(job, n, h0, actions);
    var s := RunActions(job, Initial(n, h0), actions);
    NonceOf(i, n, a, |s.workers[i].tried|);
    NonceOf(j, n, b, |s.workers[j].tried|);
    DivModUnique(a, n, i);
    DivModUnique(b, n, j);
  }

  /** The returned nonce is the first of its finder's progression to meet the target. */
  lemma ReturnedNonceIsFirst(job: Job, n: nat, h0: u64, actions: seq<Action>) returns (i: nat, k: nat)
    requires n < U64_LIMIT && Joined(RunActions(job, Initial(n, h0), actions))
    requires Result(RunActions(job, Initial(n, h0), actions)).Some?
    ensures i < n && Result(RunActions(job, Initial(n, h0), actions)).value == Nonce(i, n, k)
    ensures Meets(job, Nonce(i, n, k)) && forall j :: 0 <= j < k ==> !Meets(job, Nonce(i, n, j))
  {
    hide RunActions, Attempts, Meets, Nonce;
    EveryInterleaving(job, n, h0, actions);
    var s := RunActions(job, Initial(n, h0), actions);
    i :| 0 <= i < |s.workers| && HasFound(job, s.workers[i]) && s.workers[i].nonce == s.foundNonce;
    var w := s.workers[i];
    k := |w.tried| - 1;
    forall j | 0 <= j < k ensures !Meets(job, Nonce(i, n, j)) {
      assert w.tried[..k][j] == w.tried[j];
    }
  }

  // ----- Bounded work

  /** Three steps per attempt, and a rank for the position inside an attempt. */
  function Advance(w: Worker): nat
  {
    3 * |w.tried| + match w.pc
                    case LoadRunning => 0
                    case LoadFound => 1
                    case HashNonce => 2
                    case StoreFound => 1
                    case StoreNonce => 2
                    case StoreRunning => 3
                    case Done => 4
  }

  function Turns(actions: seq<Action>, i: nat): nat
  {
    if actions == [] then 0
    else Turns(actions[..|actions| - 1], i) + if actions[|actions| - 1] == Work(i) then 1 else 0
  }

  /** Every turn of an unfinished worker advances it, and nobody else moves it. */
  lemma {:induction false} TurnsAdvance(job: Job, s: System, actions: seq<Action>, i: nat)
    requires i < |s.workers|
    ensures var w := RunActions(job, s, actions).workers[i];
            w.pc == Done || Advance(w) >= Advance(s.workers[i]) + Turns(actions, i)
  {
    hide Act;
    if actions != [] {
      var k := |actions| - 1;
      TurnsAdvance(job, s, actions[..k], i);
      TurnAdvances(job, RunActions(job, s, actions[..k]), actions[k], i);
    }
  }

  lemma TurnAdvances(job: Job, s: System, a: Action, i: nat)
    requires i < |s.workers|
    ensures var w, w' := s.workers[i], Act(job, s, a).workers[i];
            && (a != Work(i) ==> w' == w)
            && (w.pc == Done ==> w'.pc == Done)
            && (a == Work(i) && w.pc != Done ==> Advance(w') > Advance(w))
  {
    hide Meets, Wrap;
  }

  /** If nonce number `q` of worker `i` meets the target, it never makes more than `q + 1` attempts. */
  lemma AttemptsBounded(job: Job, n: nat, h0: u64, actions: seq<Action>, i: nat, q: nat)
    requires i < n < U64_LIMIT && Meets(job, Nonce(i, n, q))
    ensures |RunActions(job, Initial(n, h0), actions).workers[i].tried| <= q + 1
  {
    hide RunActions, Attempts, Meets, Nonce, WorkerInv;
    EveryInterleaving(job, n, h0, actions);
    OnlyLastMeets(job, RunActions(job, Initial(n, h0), actions).workers[i], i, n);
  }

  lemma OnlyLastMeets(job: Job, w: Worker, i: nat, n: nat)
    requires WorkerInv(job, w, i, n)
    ensures forall k :: 0 <= k < |w.tried| - 1 ==> !Meets(job, Nonce(i, n, k))
  {
    hide Meets, Nonce;
    forall k | 0 <= k < |w.tried| - 1 ensures !Meets(job, w.tried[k]) {
      assert w.tried[..|w.tried| - 1][k] == w.tried[k];
    }
  }

  /** However the scheduler interleaves, worker `i` is done after at most `3 q + 7` turns of its own. */
  lemma WorkerFinishes(job: Job, n: nat, h0: u64, actions: seq<Action>, i: nat, q: nat)
    requires i < n < U64_LIMIT && Meets(job, Nonce(i, n, q))
    requires Turns(actions, i) >= 3 * q + 7
    ensures RunActions(job, Initial(n, h0), actions).workers[i].pc == Done
  {
    hide RunActions, Meets, Nonce;
    AttemptsBounded(job, n, h0, actions, i, q);
    TurnsAdvance(job, Initial(n, h0), actions, i);
  }

  // ----- Completion

  /** What makes every worker leave its loop: the found flag, or else a cleared running flag. Neither is ever undone. */
  predicate Ending(s: System, found: bool)
  {
    if found then s.found else !s.running
  }

  /** The turns an ending worker still needs at most. */
  function Remaining(w: Worker, found: bool): nat
  {
    match w.pc
    case LoadRunning => if found then 2 else 1
    case LoadFound => if found then 1 else 5
    case HashNonce => 4
    case StoreFound => 3
    case StoreNonce => 2
    case StoreRunning => 1
    case Done => 0
  }

  lemma TurnEnds(job: Job, s: System, a: Action, i: nat, found: bool)
    requires i < |s.workers| && Ending(s, found)
    ensures var s' := Act(job, s, a);
            && Ending(s', found)
            && (a != Work(i) ==> s'.workers[i] == s.workers[i])
            && Remaining(s'.workers[i], found) <= Remaining(s.workers[i], found)
            && (a == Work(i) && s.workers[i].pc != Done ==>
                  Remaining(s'.workers[i], found) < Remaining(s.workers[i], found))
  {
    hide WorkerStep;
    match a
    case StopCalled =>
    case Work(j) => if j < |s.workers| { StepEnds(job, s, j, found); }
  }

  lemma StepEnds(job: Job, s: System, j: nat, found: bool)
    requires j < |s.workers| && Ending(s, found)
    ensures var s' := WorkerStep(job, s, j);
            && Ending(s', found)
            && s'.workers == s.workers[j := s'.workers[j]]
            && (s.workers[j].pc == Done ==> s' == s)
            && (s.workers[j].pc != Done ==> Remaining(s'.workers[j], found) < Remaining(s.workers[j], found))
  {
    hide Meets, Wrap;
  }

  lemma {:induction false} TurnsEnd(job: Job, s: System, actions: seq<Action>, i: nat, found: bool)
    requires i < |s.workers| && Ending(s, found)
    ensures var w := RunActions(job, s, actions).workers[i];
            w.pc == Done || Remaining(w, found) + Turns(actions, i) <= Remaining(s.workers[i], found)
    ensures Ending(RunActions(job, s, actions), found)
  {
    hide Act, Ending;
    if actions != [] {
      var k := |actions| - 1;
      TurnsEnd(job, s, actions[..k], i, found);
      TurnEnds(job, RunActions(job, s, actions[..k]), actions[k], i, found);
    }
  }

  /** Five more turns for every worker end the search. */
  lemma EndingJoins(job: Job, s: System, actions: seq<Action>, found: bool)
    requires Ending(s, found) && forall i :: 0 <= i < |s.workers| ==> Turns(actions, i) >= 5
    ensures Joined(RunActions(job, s, actions))
  {
    hide RunActions, Ending;
    forall i | 0 <= i < |s.workers| ensures RunActions(job, s, actions).workers[i].pc == Done {
      TurnsEnd(job, s, actions, i, found);
    }
  }

  lemma {:induction false} RunActionsAppend(job: Job, s: System, front: seq<Action>, rest: seq<Action>)
    ensures RunActions(job, s, front + rest) == RunActions(job, RunActions(job, s, front), rest)
  {
    hide Act;
    if rest == [] {
      assert front + rest == front;
    } else {
      var k := |rest| - 1;
      assert (front + rest)[..|front| + k] == front + rest[..k];
      RunActionsAppend(job, s, front, rest[..k]);
    }
  }

  /**
   * The search completes: if attempt `q` of worker `i` would meet the target and nobody stops, then once worker
   * `i` has had `3 q + 7` turns and every worker five more, all have joined and there is a nonce.
   */
  lemma SearchCompletes(job: Job, n: nat, h0: u64, front: seq<Action>, rest: seq<Action>, i: nat, q: nat)
    requires i < n < U64_LIMIT && Meets(job, Nonce(i, n, q)) && StopCalled !in front && StopCalled !in rest
    requires Turns(front, i) >= 3 * q + 7 && forall j :: 0 <= j < n ==> Turns(rest, j) >= 5
    ensures Joined(RunActions(job, Initial(n, h0), front + rest))
    ensures Result(RunActions(job, Initial(n, h0), front + rest)).Some?
  {
    hide RunActions, Meets, Nonce, Attempts, WorkerInv, HasFound, Turns;
    var s := RunActions(job, Initial(n, h0), front);
    WorkerFinishes(job, n, h0, front, i, q);
    EveryInterleaving(job, n, h0, front);
    OnlyStopStops(job, Initial(n, h0), front);
    EndingJoins(job, s, rest, true);
    RunActionsAppend(job, Initial(n, h0), front, rest);
    CompletionFinds(job, n, h0, front + rest);
  }

  lemma {:induction false} StopClearsRunning(job: Job, s: System, actions: seq<Action>)
    ensures !s.running || StopCalled in actions ==> !RunActions(job, s, actions).running
  {
    hide Act;
    if actions != [] {
      var k := |actions| - 1;
      assert actions == actions[..k] + [actions[k]];
      StopClearsRunning(job, s, actions[..k]);
      ActStops(job, RunActions(job, s, actions[..k]), actions[k]);
    }
  }

  /** A stop ends the search whether or not a nonce exists: five turns of every worker later all have joined. */
  lemma StopEnds(job: Job, n: nat, h0: u64, front: seq<Action>, rest: seq<Action>)
    requires n < U64_LIMIT && StopCalled in front && forall j :: 0 <= j < n ==> Turns(rest, j) >= 5
    ensures Joined(RunActions(job, Initial(n, h0), front + rest))
  {
    hide RunActions;
    StopClearsRunning(job, Initial(n, h0), front);
    EndingJoins(job, RunActions(job, Initial(n, h0), front), rest, false);
    RunActionsAppend(job, Initial(n, h0), front, rest);
  }

  // ----- The sequential search

  const ATTEMPT_LIMIT: nat := 1_000_000

  ghost predicate IsLeast(job: Job, nonce: u64)
  {
    Meets(job, nonce) && forall m: u64 :: m < nonce ==> !Meets(job, m)
  }

  /** The least valid nonce below one million, or none if there is none. */
  ghost predicate SequentialResult(blake: Blake, header: Header, difficulty: u64, r: Option<u64>)
  {
    && (r.Some? ==> r.value < 1_000_000 && VerifyPow(blake, header.(nonce := r.value), difficulty))
    && forall m: u64 :: m < (if r.Some? then r.value else 1_000_000)
         ==> !VerifyPow(blake, header.(nonce := m), difficulty)
  }

  /** `mine_block`. */
  method MineBlock(blake: Blake, header: Header, difficulty: u64) returns (r: Option<u64>)
    ensures SequentialResult(blake, header, difficulty, r)
  {
    hide PowValue;
    var nonce: u64 := 0;
    for attempt := 0 to ATTEMPT_LIMIT
      invariant nonce == attempt
      invariant forall m: u64 :: m < nonce ==> !VerifyPow(blake, header.(nonce := m), difficulty)
    {
      var testHeader := header.(nonce := nonce);
      if VerifyPow(blake, testHeader, difficulty) {
        return Some(nonce);
      }
      nonce := nonce + 1;
    }
    r := None;
  }

  /** A single worker returns the least nonce. */
  lemma SingleWorkerFindsLeast(job: Job, h0: u64, actions: seq<Action>, least: u64)
    requires Joined(RunActions(job, Initial(1, h0), actions)) && StopCalled !in actions
    requires IsLeast(job, least)
    ensures Result(RunActions(job, Initial(1, h0), actions)) == Some(least)
  {
    hide RunActions, Meets, Nonce;
    CompletionFinds(job, 1, h0, actions);
    var i, k := ReturnedNonceIsFirst(job, 1, h0, actions);
    OneWorkerNonce(least);
    OneWorkerNonce(k);
  }

  lemma OneWorkerNonce(k: nat)
    ensures k < U64_LIMIT ==> Nonce(0, 1, k) == k
  {}

  /** The job of searching a nonce for a pallet header at a given difficulty. */
  function JobOf(blake: Blake, h: Header, difficulty: u64): Job
  {
    Job(blake, MiningHeader(h.number, h.parentHash, h.stateRoot, h.extrinsicsRoot, h.difficulty), difficulty)
  }

  lemma MeetsIsVerify(blake: Blake, header: Header, difficulty: u64, m: u64)
    ensures Meets(JobOf(blake, header, difficulty), m) == VerifyPow(blake, header.(nonce := m), difficulty)
  {}

  /**
   * Whatever `mine_block` returns for a header, a completed one-thread search for the same header and target
   * returns the same nonce, and where `mine_block` gives up the nonce is beyond its limit.
   */
  lemma OneThreadAgrees(blake: Blake, header: Header, difficulty: u64, r: Option<u64>, h0: u64, actions: seq<Action>)
    requires SequentialResult(blake, header, difficulty, r) && StopCalled !in actions
    requires Joined(RunActions(JobOf(blake, header, difficulty), Initial(1, h0), actions))
    ensures var found := Result(RunActions(JobOf(blake, header, difficulty), Initial(1, h0), actions));
            && (r.Some? ==> found == r)
            && (r.None? ==> found.Some? && found.value >= 1_000_000)
  {
    hide RunActions, Meets, Nonce, VerifyPow, Initial;
    var job := JobOf(blake, header, difficulty);
    forall m: u64 ensures Meets(job, m) == VerifyPow(blake, header.(nonce := m), difficulty) {
      MeetsIsVerify(blake, header, difficulty, m);
    }
    CompletionFinds(job, 1, h0, actions);
    if r.Some? {
      SingleWorkerFindsLeast(job, h0, actions, r.value);
    } else {
      var i, k := ReturnedNonceIsFirst(job, 1, h0, actions);
    }
  }
}
