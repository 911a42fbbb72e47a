/** The worker pool that executes WebSocket calls: a bounded queue, a quota per connection slot,
    worker threads, and a queue of finished replies.

    Each critical section of the pool's mutex is one step, as are taking a connection lock,
    returning from the executor, and reading the clock. */
module WorkerPool {

  const MAX_QUEUE := 64
  const MAX_PER_CONN := 16
  const CONN_LOCKS := 16
  const WS_CALL_OK := 0
  const TIMED_OUT := -7

  /** no: how many jobs had been accepted before; it stands for the identity of the job. */
  datatype Job = Job(no: nat, conn: nat, timeoutMs: int, submitMs: nat)

  datatype Done = Done(no: nat, conn: nat, code: int)

  datatype Stats = Stats(total: int, ok: int, failed: int, timeouts: int, busy: int, totalUs: int, maxUs: int)

  type PerSlot = s: seq<int> | |s| == CONN_LOCKS witness seq(CONN_LOCKS, _ => 0)

  /** The variables that the pool's mutex protects. */
  datatype Shared = Shared(queue: seq<Job>, queueLen: int, pending: PerSlot, done: seq<Done>, running: bool, stats: Stats)

  function Slot(conn: nat): (s: nat)
    ensures s < CONN_LOCKS
  {
    conn % CONN_LOCKS
  }

  /** `ws_call_map_rc`. */
  function MapRc(rc: int): (code: int)
    ensures code == WS_CALL_OK <==> rc == 0
    ensures (code == -1 <==> rc == -100) && (code == -2 <==> rc == -1) && (code == -3 <==> rc == -2)
    ensures rc !in {0, -100, -1, -2} ==> code == -4
    ensures code != TIMED_OUT
  {
    if rc == 0 then 0 else if rc == -100 then -1 else if rc == -1 then -2 else if rc == -2 then -3 else -4
  }

  predicate Refused(sh: Shared, conn: nat) {
    sh.queueLen >= MAX_QUEUE || sh.pending[Slot(conn)] >= MAX_PER_CONN
  }

  function Accept(sh: Shared, job: Job): Shared {
    if Refused(sh, job.conn) then sh.(stats := sh.stats.(busy := sh.stats.busy + 1))
    else sh.(queue := sh.queue + [job], queueLen := sh.queueLen + 1,
             pending := sh.pending[Slot(job.conn) := sh.pending[Slot(job.conn)] + 1],
             stats := sh.stats.(total := sh.stats.total + 1))
  }

  function Dequeue(sh: Shared): Shared
    requires sh.queue != []
  {
    sh.(queue := sh.queue[1..], queueLen := sh.queueLen - 1)
  }

  function Tally(t: Stats, code: int, elapsed: nat, timedOut: bool): Stats {
    var counted := if code == WS_CALL_OK then t.(ok := t.ok + 1)
                   else t.(failed := t.failed + 1, timeouts := t.timeouts + if timedOut then 1 else 0);
    counted.(totalUs := t.totalUs + elapsed, maxUs := if elapsed > t.maxUs then elapsed else t.maxUs)
  }

  function Unreserve(sh: Shared, conn: nat): Shared {
    var n := sh.pending[Slot(conn)];
    sh.(pending := sh.pending[Slot(conn) := if n > 0 then n - 1 else n])
  }

  /** The pool itself: the bodies of the critical sections. */
  class Pool {
    var queue: seq<Job>
    var queueLen: int
    var pending: array<int>
    var done: seq<Done>
    var running: bool
    var stats: Stats

    ghost predicate Valid()
      reads this
    {
      pending.Length == CONN_LOCKS
    }

    ghost function Snap(): Shared
      requires Valid()
      reads this, pending
    {
      Shared(queue, queueLen, pending[..], done, running, stats)
    }

    constructor ()
      ensures Valid() && fresh(pending)
      ensures Snap() == Fresh()
    {
      queue, queueLen, done, running := [], 0, [], true;
      pending := new int[CONN_LOCKS](_ => 0);
      stats := Stats(0, 0, 0, 0, 0, 0, 0);
    }

    /** `ws_worker_submit`. */
    method Submit(job: Job) returns (rc: int)
      requires Valid()
      modifies this, pending
      ensures Valid() && pending == old(pending)
      ensures Snap() == Accept(old(Snap()), job)
      ensures rc == -1 <==> old(queueLen) >= 64 || old(pending[job.conn % 16]) >= 16
      ensures rc == -1 ==> Snap() == old(Snap()).(stats := old(stats).(busy := old(stats.busy) + 1))
      ensures rc != -1 ==> rc == 0 && queue == old(queue) + [job] && queueLen == old(queueLen) + 1
      ensures rc != -1 ==> pending[..] == old(pending[..])[job.conn % 16 := old(pending[job.conn % 16]) + 1]
    {
      var slot := Slot(job.conn);
      if queueLen >= MAX_QUEUE || pending[slot] >= MAX_PER_CONN {
        stats := stats.(busy := stats.busy + 1);
        return -1;
      }
      queue := queue + [job];
      queueLen := queueLen + 1;
      pending[slot] := pending[slot] + 1;
      stats := stats.(total := stats.total + 1);
      return 0;
    }

    /** The dequeuing part of `worker_loop`. */
    method Take() returns (job: Job)
      requires Valid() && queue != []
      modifies this
      ensures Valid() && pending == old(pending)
      ensures job == old(queue)[0] && Snap() == Dequeue(old(Snap()))
    {
      job := queue[0];
      queue := queue[1..];
      queueLen := queueLen - 1;
    }

    /** `push_done`. */
    method PushDone(d: Done)
      requires Valid()
      modifies this
      ensures Valid() && pending == old(pending)
      ensures Snap() == old(Snap()).(done := old(done) + [d])
    {
      done := done + [d];
    }

    /** `record_result`. */
    method RecordResult(code: int, elapsed: nat, timedOut: bool)
      requires Valid()
      modifies this
      ensures Valid() && pending == old(pending)
      ensures Snap() == old(Snap()).(stats := Tally(old(stats), code, elapsed, timedOut))
    {
      if code == WS_CALL_OK {
        stats := stats.(ok := stats.ok + 1);
      } else {
        stats := stats.(failed := stats.failed + 1);
        if timedOut {
          stats := stats.(timeouts := stats.timeouts + 1);
        }
      }
      stats := stats.(totalUs := stats.totalUs + elapsed);
      if elapsed > stats.maxUs {
        stats := stats.(maxUs := elapsed);
      }
    }

    /** The last critical section of a turn of `worker_loop`. */
    method Release(conn: nat)
      requires Valid()
      modifies pending
      ensures Snap() == Unreserve(old(Snap()), conn)
    {
      var slot := Slot(conn);
      if pending[slot] > 0 {
        pending[slot] := pending[slot] - 1;
      }
    }

    /** `ws_worker_drain`. */
    method Drain() returns (delivered: seq<Done>)
      requires Valid()
      modifies this
      ensures Valid() && pending == old(pending)
      ensures delivered == old(done) && Snap() == old(Snap()).(done := [])
    {
      delivered := [];
      var d := done;
      done := [];
      while d != []
        invariant delivered + d == old(done)
        invariant Valid() && pending == old(pending) && Snap() == old(Snap()).(done := [])
      {
        delivered := delivered + [d[0]];
        d := d[1..];
      }
    }
  }

  /** The variables after `ws_worker_init`. */
  function Fresh(): Shared {
    Shared([], 0, seq(CONN_LOCKS, _ => 0), [], true, Stats(0, 0, 0, 0, 0, 0, 0))
  }

  // ----- the threads -----

  /** Where a worker thread is. */
  datatype Worker =
    | Fetching                                                  // about to look at the queue
    | Taken(job: Job)
    | Waiting(job: Job, start: nat)                             // wants the lock of the job's slot
    | Running(job: Job, start: nat)                             // in the executor
    | Ran(job: Job, start: nat, code: int, timedOut: bool)
    | Answered(job: Job, code: int, elapsed: nat, timedOut: bool)
    | Recorded(job: Job)
    | Exited

  datatype Phase = Up | Stopping | Down

  /** The code of a reply, and when it was made. */
  datatype Reply = Reply(code: int, clock: nat)

  /** What went into the statistics for a job. */
  datatype Measured = Measured(no: nat, code: int, elapsed: nat)

  /** accepted, executed, answered, drained and discarded are histories; the first `taken` accepted
      jobs have been dequeued.  So are the times at which a worker has looked at a job, what the
      executor has returned for it, its reply, and what has been recorded. */
  datatype State = State(
    sh: Shared, phase: Phase, workers: seq<Worker>, locks: PerSlot, clock: nat,
    accepted: seq<Job>, taken: nat, executed: seq<nat>,
    answered: seq<Done>, drained: seq<Done>, discarded: seq<Done>,
    looked: map<nat, nat>, returned: map<nat, int>, replies: map<nat, Reply>, recorded: seq<Measured>)

  const UNLOCKED := -1

  function Init(n: nat): State {
    State(Fresh(), Up, seq(n, _ => Fetching), seq(CONN_LOCKS, _ => UNLOCKED), 0, [], 0, [], [], [], [],
          map[], map[], map[], [])
  }

  datatype Action =
    | Submit(conn: nat, timeoutMs: int, submitMs: nat)
    | Fetch(w: nat)
    | Look(w: nat)
    | Lock(w: nat)
    | Return(w: nat, rc: int)
    | Answer(w: nat)
    | Record(w: nat)
    | Release(w: nat)
    | Drain
    | Tick
    | Stop
    | Join

  predicate Enabled(s: State, a: Action) {
    match a
    case Submit(_, _, t) => s.phase == Up && t <= s.clock
    case Fetch(w) => w < |s.workers| && s.workers[w].Fetching? && (s.sh.queue != [] || !s.sh.running)
    case Look(w) => w < |s.workers| && s.workers[w].Taken?
    case Lock(w) => w < |s.workers| && s.workers[w].Waiting? && s.locks[Slot(s.workers[w].job.conn)] == UNLOCKED
    case Return(w, _) => w < |s.workers| && s.workers[w].Running?
    case Answer(w) => w < |s.workers| && s.workers[w].Ran?
    case Record(w) => w < |s.workers| && s.workers[w].Answered?
    case Release(w) => w < |s.workers| && s.workers[w].Recorded?
    case Drain => s.phase != Down
    case Tick => true
    case Stop => s.phase == Up
    case Join => s.phase == Stopping && forall w :: 0 <= w < |s.workers| ==> s.workers[w].Exited?
  }

  function Move(s: State, w: nat, to: Worker): State
    requires w < |s.workers|
  {
    s.(workers := s.workers[w := to])
  }

  function Do(s: State, a: Action): State
    requires Enabled(s, a)
  {
    match a
    case Submit(conn, timeout, t) =>
      var job := Job(|s.accepted|, conn, timeout, t);
      s.(sh := Accept(s.sh, job), accepted := if Refused(s.sh, conn) then s.accepted else s.accepted + [job])
    case Fetch(w) =>
      if s.sh.queue == [] then Move(s, w, Exited)
      else Move(s, w, Taken(s.sh.queue[0])).(sh := Dequeue(s.sh), taken := s.taken + 1)
    case Look(w) =>
      var job := s.workers[w].job;
      var late := job.timeoutMs > 0 && s.clock - job.submitMs > job.timeoutMs;
      Move(s, w, if late then Ran(job, s.clock, TIMED_OUT, true) else Waiting(job, s.clock))
        .(looked := s.looked[job.no := s.clock])
    case Lock(w) =>
      var job := s.workers[w].job;
      Move(s, w, Running(job, s.workers[w].start))
        .(locks := s.locks[Slot(job.conn) := w], executed := s.executed + [job.no])
    case Return(w, rc) =>
      var job := s.workers[w].job;
      Move(s, w, Ran(job, s.workers[w].start, MapRc(rc), false))
        .(locks := s.locks[Slot(job.conn) := UNLOCKED], returned := s.returned[job.no := rc])
    case Answer(w) =>
      var r := s.workers[w];
      var d := Done(r.job.no, r.job.conn, r.code);
      var elapsed := if r.start <= s.clock then s.clock - r.start else 0;
      Move(s, w, Answered(r.job, r.code, elapsed, r.timedOut))
        .(sh := s.sh.(done := s.sh.done + [d]), answered := s.answered + [d],
          replies := s.replies[r.job.no := Reply(r.code, s.clock)])
    case Record(w) =>
      var r := s.workers[w];
      Move(s, w, Recorded(r.job))
        .(sh := s.sh.(stats := Tally(s.sh.stats, r.code, r.elapsed, r.timedOut)),
          recorded := s.recorded + [Measured(r.job.no, r.code, r.elapsed)])
    case Release(w) =>
      Move(s, w, Fetching).(sh := Unreserve(s.sh, s.workers[w].job.conn))
    case Drain => s.(sh := s.sh.(done := []), drained := s.drained + s.sh.done)
    case Tick => s.(clock := s.clock + 1)
    case Stop => s.(phase := Stopping, sh := s.sh.(running := false))
    case Join =>
      s.(phase := Down, discarded := s.discarded + s.sh.done,
         sh := s.sh.(queue := [], queueLen := 0, pending := seq(CONN_LOCKS, _ => 0), done := []))
  }

  /** A run; an action that is not possible when its turn comes does not happen. */
  function After(s: State, run: seq<Action>): State {
    if run == [] then s
    else
      var t := After(s, run[..|run| - 1]);
      if Enabled(t, run[|run| - 1]) then Do(t, run[|run| - 1]) else t
  }

  // ----- counting -----

  /** What a worker counts for: the quota of a slot, or the calls that are not in the statistics yet. */
  datatype Key = OfSlot(slot: nat) | Unrecorded

  function HasJob(w: Worker): bool {
    !w.Fetching? && !w.Exited?
  }

  function Weight(key: Key, w: Worker): nat {
    match key
    case OfSlot(slot) => if HasJob(w) && Slot(w.job.conn) == slot then 1 else 0
    case Unrecorded => if HasJob(w) && !w.Recorded? then 1 else 0
  }

  function InFlight(key: Key, ws: seq<Worker>): nat {
    if ws == [] then 0 else Weight(key, ws[0]) + InFlight(key, ws[1..])
  }

  function Queued(slot: nat, jobs: seq<Job>): nat {
    if jobs == [] then 0 else (if Slot(jobs[0].conn) == slot then 1 else 0) + Queued(slot, jobs[1..])
  }

  lemma {:induction false} InFlightMoves(key: Key, ws: seq<Worker>, i: nat, w: Worker)
    requires i < |ws|
    ensures InFlight(key, ws[i := w]) == InFlight(key, ws) - Weight(key, ws[i]) + Weight(key, w)
  {
    if i == 0 {
      assert ws[i := w][1..] == ws[1..];
    } else {
      assert ws[i := w][1..] == ws[1..][i - 1 := w];
      InFlightMoves(key, ws[1..], i - 1, w);
    }
  }

  lemma {:induction false} QueuedAppends(slot: nat, jobs: seq<Job>, job: Job)
    ensures Queued(slot, jobs + [job]) == Queued(slot, jobs) + if Slot(job.conn) == slot then 1 else 0
  {
    if jobs == [] {
      assert jobs + [job] == [job];
    } else {
      assert (jobs + [job])[1..] == jobs[1..] + [job];
      QueuedAppends(slot, jobs[1..], job);
    }
  }

  lemma {:induction false} NoneInFlight(key: Key, ws: seq<Worker>)
    requires forall i :: 0 <= i < |ws| ==> !HasJob(ws[i])
    ensures InFlight(key, ws) == 0
  {
    if ws != [] {
      NoneInFlight(key, ws[1..]);
    }
  }

  // ----- what every run keeps -----

  /** The queue is the accepted jobs that have not been dequeued, in order of acceptance. */
  predicate QueueOk(s: State) {
    && s.taken <= |s.accepted|
    && s.sh.queue == s.accepted[s.taken..]
    && s.sh.queueLen == |s.sh.queue| <= MAX_QUEUE
    && forall k :: 0 <= k < |s.accepted| ==> s.accepted[k].no == k
  }

  /** The quota of a slot counts its queued jobs and those that a worker holds. */
  predicate SlotOk(s: State, slot: nat)
    requires slot < CONN_LOCKS
  {
    s.sh.pending[slot] == Queued(slot, s.sh.queue) + InFlight(OfSlot(slot), s.workers) <= MAX_PER_CONN
  }

  predicate PendingOk(s: State) {
    forall slot :: 0 <= slot < CONN_LOCKS ==> SlotOk(s, slot)
  }

  /** A slot is locked by the worker that is in the executor for it. */
  predicate LocksOk(s: State) {
    && (forall w :: 0 <= w < |s.workers| && s.workers[w].Running? ==> s.locks[Slot(s.workers[w].job.conn)] == w)
    && (forall slot :: 0 <= slot < CONN_LOCKS && s.locks[slot] != UNLOCKED ==>
          0 <= s.locks[slot] < |s.workers| && s.workers[s.locks[slot]].Running?
          && Slot(s.workers[s.locks[slot]].job.conn) == slot)
  }

  predicate Replied(w: Worker) {
    w.Answered? || w.Recorded?
  }

  /** A worker holds a dequeued job, and no other worker holds the same. */
  predicate HeldOk(s: State) {
    && s.taken <= |s.accepted|
    && (forall w :: 0 <= w < |s.workers| && HasJob(s.workers[w]) ==>
          s.workers[w].job.no < s.taken && s.workers[w].job == s.accepted[s.workers[w].job.no])
    && (forall v, w :: 0 <= v < w < |s.workers| && HasJob(s.workers[v]) && HasJob(s.workers[w]) ==>
          s.workers[v].job.no != s.workers[w].job.no)
  }

  /** Reply number i. */
  predicate ReplyOk(s: State, d: Done) {
    d.no < s.taken <= |s.accepted| && d.conn == s.accepted[d.no].conn
  }

  predicate Has(ds: seq<Done>, no: nat) {
    exists i :: 0 <= i < |ds| && ds[i].no == no
  }

  /** Some worker holds the job and has not replied yet. */
  predicate Owed(s: State, no: nat) {
    exists w :: 0 <= w < |s.workers| && HasJob(s.workers[w]) && !Replied(s.workers[w]) && s.workers[w].job.no == no
  }

  /** Each dequeued job has one reply, or a worker that still owes it. */
  predicate RepliesOk(s: State) {
    && (forall i :: 0 <= i < |s.answered| ==> ReplyOk(s, s.answered[i]))
    && (forall i, j :: 0 <= i < j < |s.answered| ==> s.answered[i].no != s.answered[j].no)
    && (forall no :: 0 <= no < s.taken ==> Has(s.answered, no) || Owed(s, no))
    && (forall w :: 0 <= w < |s.workers| && HasJob(s.workers[w]) ==>
          (Has(s.answered, s.workers[w].job.no) <==> Replied(s.workers[w])))
  }

  /** Replies go out in the order in which they were made, none twice. */
  predicate DeliveryOk(s: State) {
    && s.drained + s.sh.done + s.discarded == s.answered
    && (s.phase != Down ==> s.discarded == [])
  }

  /** Whether the executor has been called for the job that a worker holds. */
  predicate Called(w: Worker) {
    w.Running? || (w.Ran? && !w.timedOut) || (w.Answered? && !w.timedOut)
  }

  /** The executor has been called at most once for a job, and the reply says -7 if and only if it
      has not been called. */
  predicate ExecutedOk(s: State) {
    && (forall i :: 0 <= i < |s.executed| ==> s.executed[i] < s.taken)
    && (forall i, j :: 0 <= i < j < |s.executed| ==> s.executed[i] != s.executed[j])
    && (forall w :: 0 <= w < |s.workers| && HasJob(s.workers[w]) && !s.workers[w].Recorded? ==>
          (s.workers[w].job.no in s.executed <==> Called(s.workers[w])))
    && (forall w :: 0 <= w < |s.workers| && (s.workers[w].Ran? || s.workers[w].Answered?) ==>
          (s.workers[w].timedOut <==> s.workers[w].code == TIMED_OUT))
    && (forall i :: 0 <= i < |s.answered| ==> (s.answered[i].code == TIMED_OUT <==> s.answered[i].no !in s.executed))
  }

  /** How many of the recorded jobs ended with this code. */
  function WithCode(ms: seq<Measured>, code: int): nat {
    if ms == [] then 0 else WithCode(ms[..|ms| - 1], code) + if ms[|ms| - 1].code == code then 1 else 0
  }

  function TimeOf(ms: seq<Measured>): nat {
    if ms == [] then 0 else TimeOf(ms[..|ms| - 1]) + ms[|ms| - 1].elapsed
  }

  predicate IsLongest(ms: seq<Measured>, time: int) {
    && (forall i :: 0 <= i < |ms| ==> ms[i].elapsed <= time)
    && (if ms == [] then time == 0 else exists i :: 0 <= i < |ms| && ms[i].elapsed == time)
  }

  /** The statistics are those of the recorded jobs. */
  predicate TallyOk(s: State) {
    var t, ms := s.sh.stats, s.recorded;
    && t.ok == WithCode(ms, 0) && t.timeouts == WithCode(ms, -7) && t.ok + t.failed == |ms|
    && t.totalUs == TimeOf(ms) && IsLongest(ms, t.maxUs)
  }

  /** The job had waited longer than its timeout allows. */
  predicate WaitedTooLong(job: Job, clock: nat) {
    0 < job.timeoutMs < clock - job.submitMs
  }

  /** The code that a job deserves: -7 if it was looked at too late, and otherwise what the executor
      has made of it. */
  predicate Deserves(s: State, job: Job, code: int) {
    && job.no in s.looked
    && if WaitedTooLong(job, s.looked[job.no]) then code == -7
       else job.no in s.returned && code == MapRc(s.returned[job.no])
  }

  predicate WorkerTimes(s: State, w: Worker) {
    match w
    case Taken(job) => job.no !in s.looked
    case Waiting(job, start) => job.no in s.looked && s.looked[job.no] == start && !WaitedTooLong(job, start) && job.no !in s.replies
    case Running(job, start) => job.no in s.looked && s.looked[job.no] == start && !WaitedTooLong(job, start) && job.no !in s.replies
    case Ran(job, start, code, timedOut) =>
      job.no in s.looked && s.looked[job.no] == start && Deserves(s, job, code) && job.no !in s.replies && (timedOut <==> code == -7)
    case Answered(job, code, elapsed, timedOut) =>
      && job.no in s.looked && job.no in s.replies && s.replies[job.no].code == code
      && elapsed == s.replies[job.no].clock - s.looked[job.no] && (timedOut <==> code == -7)
    case _ => true
  }

  predicate LookedOk(s: State) {
    s.taken <= |s.accepted| && forall no :: no in s.looked ==> no < s.taken && s.looked[no] <= s.clock
  }

  /** Reply number no has the code that its job deserves. */
  predicate ReplyRight(s: State, no: nat) {
    && no < |s.accepted| && s.accepted[no].no == no && no in s.looked && no in s.replies
    && Deserves(s, s.accepted[no], s.replies[no].code) && s.looked[no] <= s.replies[no].clock <= s.clock
  }

  predicate RepliesRight(s: State) {
    && (forall no :: no in s.replies ==> ReplyRight(s, no))
    && (forall i :: 0 <= i < |s.answered| ==>
          s.answered[i].no in s.replies && s.answered[i].code == s.replies[s.answered[i].no].code)
  }

  predicate ExecutedInTime(s: State) {
    forall no :: no in s.executed ==> no < |s.accepted| && no in s.looked && !WaitedTooLong(s.accepted[no], s.looked[no])
  }

  predicate MeasuredRight(s: State, m: Measured) {
    && m.no in s.replies && m.no in s.looked && m.code == s.replies[m.no].code
    && m.elapsed == s.replies[m.no].clock - s.looked[m.no]
  }

  predicate RecordedOk(s: State) {
    forall i :: 0 <= i < |s.recorded| ==> MeasuredRight(s, s.recorded[i])
  }

  predicate WorkersInTime(s: State) {
    forall w :: 0 <= w < |s.workers| ==> WorkerTimes(s, s.workers[w])
  }

  /** What the histories say about each other. */
  predicate TimesOk(s: State) {
    LookedOk(s) && RepliesRight(s) && ExecutedInTime(s) && RecordedOk(s) && WorkersInTime(s)
  }

  predicate StatsOk(s: State) {
    var t := s.sh.stats;
    && t.total == |s.accepted|
    && t.total == |s.sh.queue| + InFlight(Unrecorded, s.workers) + t.ok + t.failed
    && 0 <= t.timeouts <= t.failed
    && 0 <= t.ok && 0 <= t.busy
    && 0 <= t.maxUs <= t.totalUs
  }

  /** A worker leaves only when the pool is stopping and the queue is empty. */
  predicate ExitOk(s: State) {
    && s.workers != []
    && (s.sh.running <==> s.phase == Up)
    && (forall w :: 0 <= w < |s.workers| && s.workers[w].Exited? ==> !s.sh.running && s.sh.queue == [])
    && (s.phase == Down ==> s.sh.queue == [] && forall w :: 0 <= w < |s.workers| ==> s.workers[w].Exited?)
  }

  predicate Inv(s: State) {
    QueueOk(s) && PendingOk(s) && LocksOk(s) && HeldOk(s) && RepliesOk(s) && DeliveryOk(s) && ExecutedOk(s) && StatsOk(s) && ExitOk(s)
    && TimesOk(s) && TallyOk(s)
  }

  lemma InitInv(n: nat)
    requires n > 0
    ensures Inv(Init(n))
  {
    forall slot | 0 <= slot < CONN_LOCKS ensures InFlight(OfSlot(slot), Init(n).workers) == 0 {
      NoneInFlight(OfSlot(slot), Init(n).workers);
    }
    NoneInFlight(Unrecorded, Init(n).workers);
  }

  lemma StepQueue(s: State, a: Action)
    requires QueueOk(s) && ExitOk(s) && Enabled(s, a)
    ensures QueueOk(Do(s, a))
  {
    var s' := Do(s, a);
    if a.Join? {
      assert s.workers[0].Exited?;
    } else if a.Submit? {
      assert s'.sh.queue == s'.accepted[s'.taken..];
    } else if a.Fetch? {
      assert s'.sh.queue == s'.accepted[s'.taken..];
    } else {
      assert s'.sh.queue == s.sh.queue && s'.accepted == s.accepted && s'.taken == s.taken;
    }
  }

  lemma StepExit(s: State, a: Action)
    requires ExitOk(s) && Enabled(s, a)
    ensures ExitOk(Do(s, a))
  {
  }

  /** Only taking and giving back a lock changes the locks, or who is in the executor. */
  lemma LocksKept(s: State, a: Action)
    requires Enabled(s, a) && !a.Lock? && !a.Return?
    ensures var s' := Do(s, a);
      && s'.locks == s.locks && |s'.workers| == |s.workers|
      && forall w :: 0 <= w < |s.workers| && (s.workers[w].Running? || s'.workers[w].Running?) ==> s'.workers[w] == s.workers[w]
  {
  }

  lemma StepLocks(s: State, a: Action)
    requires LocksOk(s) && Enabled(s, a)
    ensures LocksOk(Do(s, a))
  {
    if !a.Lock? && !a.Return? {
      LocksKept(s, a);
      hide Do;
    }
  }

  lemma SlotFact(s: State, slot: nat)
    requires PendingOk(s) && slot < CONN_LOCKS
    ensures s.sh.pending[slot] == Queued(slot, s.sh.queue) + InFlight(OfSlot(slot), s.workers) <= MAX_PER_CONN
  {
    assert SlotOk(s, slot);
  }

  lemma SubmitSlot(s: State, a: Action, slot: nat)
    requires PendingOk(s) && Enabled(s, a) && a.Submit? && slot < CONN_LOCKS
    ensures SlotOk(Do(s, a), slot)
  {
    assert SlotOk(s, slot);
    QueuedAppends(slot, s.sh.queue, Job(|s.accepted|, a.conn, a.timeoutMs, a.submitMs));
  }

  lemma WorkerSlot(s: State, a: Action, slot: nat)
    requires PendingOk(s) && Enabled(s, a) && IsWorkerStep(a) && slot < CONN_LOCKS
    ensures SlotOk(Do(s, a), slot)
  {
    assert SlotOk(s, slot);
    InFlightMoves(OfSlot(slot), s.workers, a.w, Do(s, a).workers[a.w]);
  }

  lemma OtherSlot(s: State, a: Action, slot: nat)
    requires QueueOk(s) && PendingOk(s) && ExitOk(s) && Enabled(s, a) && slot < CONN_LOCKS
    requires !a.Submit? && !IsWorkerStep(a)
    ensures SlotOk(Do(s, a), slot)
  {
    assert SlotOk(s, slot);
    if a.Join? {
      NoneInFlight(OfSlot(slot), s.workers);
    }
  }

  lemma StepPending(s: State, a: Action)
    requires QueueOk(s) && PendingOk(s) && ExitOk(s) && Enabled(s, a)
    ensures PendingOk(Do(s, a))
  {
    hide Do;
    forall slot | 0 <= slot < CONN_LOCKS ensures SlotOk(Do(s, a), slot) {
      if a.Submit? {
        SubmitSlot(s, a, slot);
      } else if IsWorkerStep(a) {
        WorkerSlot(s, a, slot);
      } else {
        OtherSlot(s, a, slot);
      }
    }
  }

  lemma StepStats(s: State, a: Action)
    requires QueueOk(s) && StatsOk(s) && ExitOk(s) && Enabled(s, a)
    ensures StatsOk(Do(s, a))
  {
    var s' := Do(s, a);
    if a.Join? {
      assert s.workers[0].Exited?;
    } else if IsWorkerStep(a) {
      InFlightMoves(Unrecorded, s.workers, a.w, s'.workers[a.w]);
    }
  }

  /** Without a job being dequeued, the workers keep the jobs they have. */
  lemma JobsKept(s: State, a: Action)
    requires Enabled(s, a) && (!a.Fetch? || s.sh.queue == [])
    ensures var s' := Do(s, a);
      && s'.taken == s.taken && s.accepted <= s'.accepted && |s'.workers| == |s.workers|
      && forall w :: 0 <= w < |s.workers| && HasJob(s'.workers[w]) ==>
           HasJob(s.workers[w]) && s'.workers[w].job == s.workers[w].job
  {
  }

  lemma StepHeld(s: State, a: Action)
    requires QueueOk(s) && HeldOk(s) && Enabled(s, a)
    ensures HeldOk(Do(s, a))
  {
    if a.Fetch? && s.sh.queue != [] {
      assert Do(s, a).workers[a.w].job == s.accepted[s.taken];
    } else {
      JobsKept(s, a);
      hide Do;
    }
  }

  lemma StepDelivery(s: State, a: Action)
    requires DeliveryOk(s) && ExitOk(s) && Enabled(s, a)
    ensures DeliveryOk(Do(s, a))
  {
    var s' := Do(s, a);
    assert s.phase != Down ==> s.drained + s.sh.done == s.answered;
    match a {
      case Answer(w) => assert s.phase != Down;
      case _ =>
    }
    assert s'.drained + s'.sh.done + s'.discarded == s'.answered;
  }

  /** No job is dequeued and no reply is made. */
  lemma RepliesKept(s: State, s': State)
    requires RepliesOk(s) && |s'.workers| == |s.workers|
    requires s'.taken == s.taken && s'.answered == s.answered && s.accepted <= s'.accepted
    requires forall w :: 0 <= w < |s.workers| && HasJob(s'.workers[w]) ==>
      HasJob(s.workers[w]) && s'.workers[w].job == s.workers[w].job && Replied(s'.workers[w]) == Replied(s.workers[w])
    requires forall w :: 0 <= w < |s.workers| && HasJob(s.workers[w]) && !HasJob(s'.workers[w]) ==> Replied(s.workers[w])
    ensures RepliesOk(s')
  {
    forall no | 0 <= no < s'.taken ensures Has(s'.answered, no) || Owed(s', no) {
      if Owed(s, no) {
        var w :| 0 <= w < |s.workers| && HasJob(s.workers[w]) && !Replied(s.workers[w]) && s.workers[w].job.no == no;
        assert HasJob(s'.workers[w]);
      }
    }
    forall i | 0 <= i < |s'.answered| ensures ReplyOk(s', s'.answered[i]) {
      assert ReplyOk(s, s.answered[i]);
    }
  }

  lemma FetchReplies(s: State, w: nat)
    requires QueueOk(s) && HeldOk(s) && RepliesOk(s) && Enabled(s, Fetch(w)) && s.sh.queue != []
    ensures RepliesOk(Do(s, Fetch(w)))
  {
    var s' := Do(s, Fetch(w));
    assert s'.workers[w].job.no == s.taken;
    forall no | 0 <= no < s'.taken ensures Has(s'.answered, no) || Owed(s', no) {
      if no == s.taken {
        assert Owed(s', no);
      } else if Owed(s, no) {
        var v :| 0 <= v < |s.workers| && HasJob(s.workers[v]) && !Replied(s.workers[v]) && s.workers[v].job.no == no;
        assert s'.workers[v] == s.workers[v];
      }
    }
    forall i | 0 <= i < |s'.answered| ensures ReplyOk(s', s'.answered[i]) {
      assert ReplyOk(s, s.answered[i]);
    }
  }

  lemma HasOneMore(ds: seq<Done>, d: Done, no: nat)
    ensures Has(ds + [d], no) <==> Has(ds, no) || no == d.no
  {
    var all := ds + [d];
    assert all[|ds|] == d;
    if Has(ds, no) {
      var i :| 0 <= i < |ds| && ds[i].no == no;
      assert all[i].no == no;
    }
  }

  lemma AnswerReplies(s: State, w: nat)
    requires HeldOk(s) && RepliesOk(s) && Enabled(s, Answer(w))
    ensures RepliesOk(Do(s, Answer(w)))
  {
    var s' := Do(s, Answer(w));
    var k := s.workers[w].job.no;
    var d := Done(k, s.workers[w].job.conn, s.workers[w].code);
    assert !Has(s.answered, k);
    forall no: nat ensures Has(s'.answered, no) <==> Has(s.answered, no) || no == k {
      HasOneMore(s.answered, d, no);
    }
    forall no | 0 <= no < s'.taken ensures Has(s'.answered, no) || Owed(s', no) {
      if no != k && Owed(s, no) {
        var v :| 0 <= v < |s.workers| && HasJob(s.workers[v]) && !Replied(s.workers[v]) && s.workers[v].job.no == no;
        assert s'.workers[v] == s.workers[v];
      }
    }
    forall i | 0 <= i < |s'.answered| ensures ReplyOk(s', s'.answered[i]) {
      assert i < |s.answered| ==> ReplyOk(s, s.answered[i]);
    }
  }

  lemma StepReplies(s: State, a: Action)
    requires QueueOk(s) && HeldOk(s) && RepliesOk(s) && Enabled(s, a)
    ensures RepliesOk(Do(s, a))
  {
    if a.Fetch? && s.sh.queue != [] {
      FetchReplies(s, a.w);
    } else if a.Answer? {
      AnswerReplies(s, a.w);
    } else {
      RepliesKept(s, Do(s, a));
    }
  }

  lemma LockExecuted(s: State, w: nat)
    requires HeldOk(s) && RepliesOk(s) && ExecutedOk(s) && Enabled(s, Lock(w))
    ensures ExecutedOk(Do(s, Lock(w)))
  {
    var k := s.workers[w].job.no;
    assert k !in s.executed && !Has(s.answered, k);
    assert forall i :: 0 <= i < |s.answered| ==> s.answered[i].no != k;
  }

  lemma NextJob(s: State)
    requires QueueOk(s) && s.sh.queue != []
    ensures s.sh.queue[0].no == s.taken
  {
  }

  /** Replies and the calls of the executor aside, workers and histories keep what they say. */
  lemma ExecutedKept(s: State, a: Action)
    requires QueueOk(s) && Enabled(s, a) && !a.Lock? && !a.Answer?
    ensures var s' := Do(s, a);
      && s'.executed == s.executed && s'.taken >= s.taken && s'.answered == s.answered && |s'.workers| == |s.workers|
      && forall w :: 0 <= w < |s.workers| && s'.workers[w] != s.workers[w] && HasJob(s'.workers[w]) ==>
           || (s'.workers[w].Taken? && s'.workers[w].job.no == s.taken)
           || (HasJob(s.workers[w]) && s'.workers[w].job == s.workers[w].job && IsWorkerStep(a) && a.w == w)
  {
    if a.Fetch? && s.sh.queue != [] {
      NextJob(s);
    }
  }

  lemma StepExecuted(s: State, a: Action)
    requires QueueOk(s) && HeldOk(s) && RepliesOk(s) && ExecutedOk(s) && Enabled(s, a)
    ensures ExecutedOk(Do(s, a))
  {
    if a.Lock? {
      LockExecuted(s, a.w);
    } else if a.Answer? {
      hide QueueOk, RepliesOk;
    } else if IsWorkerStep(a) {
      MoverExecuted(s, a);
    } else {
      ExecutedKept(s, a);
      hide Do;
    }
  }

  lemma MoverExecuted(s: State, a: Action)
    requires QueueOk(s) && HeldOk(s) && ExecutedOk(s) && Enabled(s, a) && IsWorkerStep(a) && !a.Lock? && !a.Answer?
    ensures ExecutedOk(Do(s, a))
  {
    if a.Fetch? && s.sh.queue != [] {
      NextJob(s);
    }
  }

  /** A worker step changes the histories of its own job only. */
  predicate SameTimes(s: State, s': State, no: nat) {
    && (no in s.looked <==> no in s'.looked) && (no in s.looked ==> s'.looked[no] == s.looked[no])
    && (no in s.returned <==> no in s'.returned) && (no in s.returned ==> s'.returned[no] == s.returned[no])
    && (no in s.replies <==> no in s'.replies) && (no in s.replies ==> s'.replies[no] == s.replies[no])
    && s'.clock >= s.clock && s.accepted <= s'.accepted
  }

  lemma OthersSame(s: State, a: Action, no: nat)
    requires Enabled(s, a)
    requires IsWorkerStep(a) && HasJob(s.workers[a.w]) ==> s.workers[a.w].job.no != no
    ensures SameTimes(s, Do(s, a), no)
  {
  }

  lemma SettledSame(s: State, a: Action, no: nat)
    requires Enabled(s, a) && WorkersInTime(s) && no in s.replies && ReplyRight(s, no)
    ensures var s' := Do(s, a); SameTimes(s, s', no)
  {
    if IsWorkerStep(a) {
      assert WorkerTimes(s, s.workers[a.w]);
    }
  }

  lemma StepLooked(s: State, a: Action)
    requires QueueOk(s) && HeldOk(s) && LookedOk(s) && Enabled(s, a)
    ensures LookedOk(Do(s, a))
  {
  }

  lemma MoverInTime(s: State, a: Action)
    requires QueueOk(s) && HeldOk(s) && TimesOk(s) && Enabled(s, a) && IsWorkerStep(a)
    ensures WorkerTimes(Do(s, a), Do(s, a).workers[a.w])
  {
    assert WorkerTimes(s, s.workers[a.w]);
    if a.Fetch? && s.sh.queue != [] {
      NextJob(s);
    }
  }

  lemma StepWorkersInTime(s: State, a: Action)
    requires QueueOk(s) && HeldOk(s) && TimesOk(s) && Enabled(s, a)
    ensures WorkersInTime(Do(s, a))
  {
    var s' := Do(s, a);
    forall v | 0 <= v < |s'.workers| ensures WorkerTimes(s', s'.workers[v]) {
      if IsWorkerStep(a) && v == a.w {
        MoverInTime(s, a);
      } else {
        assert s'.workers[v] == s.workers[v] && WorkerTimes(s, s.workers[v]);
        if HasJob(s.workers[v]) {
          OthersSame(s, a, s.workers[v].job.no);
          hide Do;
        }
      }
    }
  }

  lemma StepRepliesRight(s: State, a: Action)
    requires QueueOk(s) && HeldOk(s) && TimesOk(s) && Enabled(s, a)
    ensures RepliesRight(Do(s, a))
  {
    var s' := Do(s, a);
    forall no | no in s'.replies ensures ReplyRight(s', no) {
      if no in s.replies {
        assert ReplyRight(s, no);
        SettledSame(s, a, no);
        hide Do;
      } else {
        assert WorkerTimes(s, s.workers[a.w]);
      }
    }
    forall i | 0 <= i < |s'.answered|
      ensures s'.answered[i].no in s'.replies && s'.answered[i].code == s'.replies[s'.answered[i].no].code
    {
      if i < |s.answered| {
        SettledSame(s, a, s.answered[i].no);
      }
    }
  }

  lemma StepExecutedInTime(s: State, a: Action)
    requires QueueOk(s) && HeldOk(s) && TimesOk(s) && Enabled(s, a)
    ensures ExecutedInTime(Do(s, a))
  {
    if IsWorkerStep(a) {
      assert WorkerTimes(s, s.workers[a.w]);
    }
  }

  lemma StepRecordedOk(s: State, a: Action)
    requires HeldOk(s) && TimesOk(s) && Enabled(s, a)
    ensures RecordedOk(Do(s, a))
  {
    var s' := Do(s, a);
    forall i | 0 <= i < |s'.recorded| ensures MeasuredRight(s', s'.recorded[i]) {
      if i < |s.recorded| {
        assert MeasuredRight(s, s.recorded[i]);
        SettledSame(s, a, s.recorded[i].no);
      } else {
        assert WorkerTimes(s, s.workers[a.w]);
      }
    }
  }

  lemma StepTimes(s: State, a: Action)
    requires QueueOk(s) && HeldOk(s) && TimesOk(s) && Enabled(s, a)
    ensures TimesOk(Do(s, a))
  {
    hide Do, Enabled, QueueOk, HeldOk;
    StepLooked(s, a);
    StepRepliesRight(s, a);
    StepExecutedInTime(s, a);
    StepRecordedOk(s, a);
    StepWorkersInTime(s, a);
  }

  lemma OneMoreMeasured(ms: seq<Measured>, m: Measured, time: int)
    requires IsLongest(ms, time)
    ensures forall code :: WithCode(ms + [m], code) == WithCode(ms, code) + if m.code == code then 1 else 0
    ensures TimeOf(ms + [m]) == TimeOf(ms) + m.elapsed
    ensures IsLongest(ms + [m], if m.elapsed > time then m.elapsed else time)
  {
    var all := ms + [m];
    assert all[..|ms|] == ms && all[|ms|] == m;
    if ms != [] && m.elapsed <= time {
      var i :| 0 <= i < |ms| && ms[i].elapsed == time;
      assert all[i].elapsed == time;
    }
  }

  lemma StepTally(s: State, a: Action)
    requires WorkersInTime(s) && TallyOk(s) && Enabled(s, a)
    ensures TallyOk(Do(s, a))
  {
    hide WithCode, TimeOf, IsLongest, Deserves;
    if a.Record? {
      var r := s.workers[a.w];
      assert WorkerTimes(s, r);
      OneMoreMeasured(s.recorded, Measured(r.job.no, r.code, r.elapsed), s.sh.stats.maxUs);
    } else {
      StatsKept(s, a);
      hide Do;
    }
  }

  lemma StatsKept(s: State, a: Action)
    requires Enabled(s, a) && !a.Record?
    ensures var s' := Do(s, a);
      s'.recorded == s.recorded && s'.sh.stats.(total := 0, busy := 0) == s.sh.stats.(total := 0, busy := 0)
  {
  }

  /** Everything above holds in every state that the pool can reach. */
  lemma {:induction false} RunInv(n: nat, run: seq<Action>)
    requires n > 0
    ensures Inv(After(Init(n), run))
  {
    if run == [] {
      InitInv(n);
    } else {
      var s, a := After(Init(n), run[..|run| - 1]), run[|run| - 1];
      RunInv(n, run[..|run| - 1]);
      if Enabled(s, a) {
        StepQueue(s, a);
        StepExit(s, a);
        StepPending(s, a);
        StepLocks(s, a);
        StepHeld(s, a);
        StepReplies(s, a);
        StepDelivery(s, a);
        StepStats(s, a);
        StepExecuted(s, a);
        StepTimes(s, a);
        StepTally(s, a);
      }
    }
  }

  // ----- what that means -----

  /** Jobs leave the queue in the order in which they were accepted. */
  lemma FirstInFirstOut(n: nat, run: seq<Action>, w: nat)
    requires n > 0
    ensures var s := After(Init(n), run);
      s.taken <= |s.accepted| && s.sh.queue == s.accepted[s.taken..]
      && (Enabled(s, Fetch(w)) && s.sh.queue != [] ==> Do(s, Fetch(w)).workers[w] == Taken(s.accepted[s.taken]))
  {
    RunInv(n, run);
  }

  /** No job gets two replies; a reply carries the connection of its job; replies are handed out in
      the order in which they were made; and only a reply with code -7 stands for a call that was
      not made, exactly once otherwise. */
  lemma AnsweredAtMostOnce(n: nat, run: seq<Action>)
    requires n > 0
    ensures var s := After(Init(n), run);
      && s.drained + s.sh.done + s.discarded == s.answered
      && (forall i :: 0 <= i < |s.answered| ==>
            s.answered[i].no < |s.accepted| && s.answered[i].conn == s.accepted[s.answered[i].no].conn)
      && (forall i, j :: 0 <= i < j < |s.answered| ==> s.answered[i].no != s.answered[j].no)
      && (forall i :: 0 <= i < |s.answered| ==> (s.answered[i].code == TIMED_OUT <==> s.answered[i].no !in s.executed))
      && (forall i, j :: 0 <= i < j < |s.executed| ==> s.executed[i] != s.executed[j])
  {
    RunInv(n, run);
    var s := After(Init(n), run);
    assert forall i :: 0 <= i < |s.answered| ==> ReplyOk(s, s.answered[i]);
  }

  /** A job is answered with -7 if and only if it has a timeout and had waited longer than that when a
      worker looked at it, and then it is not executed; otherwise it is executed, and the answer is the
      code for what the executor has returned. */
  lemma RightCode(n: nat, run: seq<Action>, i: nat)
    requires n > 0 && i < |After(Init(n), run).answered|
    ensures var s := After(Init(n), run); var d := s.answered[i];
      && d.no < |s.accepted| && d.no in s.looked && d.no in s.replies
      && s.looked[d.no] <= s.replies[d.no].clock <= s.clock
      && var job := s.accepted[d.no];
      && (d.code == -7 <==> 0 < job.timeoutMs < s.looked[d.no] - job.submitMs)
      && (d.code == -7 <==> d.no !in s.executed)
      && (d.code != -7 ==> d.no in s.returned && d.code == MapRc(s.returned[d.no]))
  {
    RunInv(n, run);
    var s := After(Init(n), run);
    assert ReplyRight(s, s.answered[i].no);
  }

  /** A job without a timeout, or one that a worker looks at in time, is executed. */
  lemma InTimeIsExecuted(n: nat, run: seq<Action>, i: nat)
    requires n > 0 && i < |After(Init(n), run).answered|
    requires var s := After(Init(n), run); var no := s.answered[i].no;
      no < |s.accepted| && no in s.looked &&
      (s.accepted[no].timeoutMs <= 0 || s.looked[no] <= s.accepted[no].submitMs + s.accepted[no].timeoutMs)
    ensures var s := After(Init(n), run); s.answered[i].no in s.executed && s.answered[i].code != -7
  {
    RightCode(n, run, i);
  }

  /** The statistics are those of the recorded jobs: ok counts the code 0, timeouts the code -7, failed the
      rest with these; the times are those from looking at a job to its reply. */
  lemma StatisticsAreRight(n: nat, run: seq<Action>)
    requires n > 0
    ensures var s := After(Init(n), run); var t, ms := s.sh.stats, s.recorded;
      && t.ok == WithCode(ms, 0) && t.timeouts == WithCode(ms, -7) && t.failed == |ms| - WithCode(ms, 0)
      && t.totalUs == TimeOf(ms) && IsLongest(ms, t.maxUs)
      && forall i :: 0 <= i < |ms| ==> MeasuredRight(s, ms[i])
  {
    RunInv(n, run);
  }

  /** A call is refused if and only if 64 jobs are queued, or 16 of its slot are queued or in the hands of
      a worker; and then nothing is queued for it. */
  lemma RefusedIffFull(n: nat, run: seq<Action>, conn: nat, timeoutMs: int, submitMs: nat)
    requires n > 0 && Enabled(After(Init(n), run), Submit(conn, timeoutMs, submitMs))
    ensures var s := After(Init(n), run); var s' := Do(s, Submit(conn, timeoutMs, submitMs));
      if |s.sh.queue| == 64 || Queued(conn % 16, s.sh.queue) + InFlight(OfSlot(conn % 16), s.workers) == 16
      then s' == s.(sh := s.sh.(stats := s.sh.stats.(busy := s.sh.stats.busy + 1)))
      else s'.accepted == s.accepted + [Job(|s.accepted|, conn, timeoutMs, submitMs)] && s'.sh.stats.busy == s.sh.stats.busy
  {
    RunInv(n, run);
    SlotFact(After(Init(n), run), conn % 16);
  }

  /** Once no worker holds a job and the queue is empty, every accepted job has been replied to,
      no quota is in use, and the statistics add up. */
  lemma QuietPoolOwesNothing(n: nat, run: seq<Action>)
    requires n > 0
    requires var s := After(Init(n), run);
      s.sh.queue == [] && forall w :: 0 <= w < |s.workers| ==> !HasJob(s.workers[w])
    ensures var s := After(Init(n), run);
      && (forall no :: 0 <= no < |s.accepted| ==> Has(s.answered, no))
      && (forall slot :: 0 <= slot < CONN_LOCKS ==> s.sh.pending[slot] == 0)
      && s.sh.stats.total == s.sh.stats.ok + s.sh.stats.failed == |s.accepted|
  {
    RunInv(n, run);
    var s := After(Init(n), run);
    forall no | 0 <= no < |s.accepted| ensures Has(s.answered, no) {
      assert !Owed(s, no);
    }
    forall slot | 0 <= slot < CONN_LOCKS ensures s.sh.pending[slot] == 0 {
      NoneInFlight(OfSlot(slot), s.workers);
      SlotFact(s, slot);
    }
    NoneInFlight(Unrecorded, s.workers);
  }

  /** Shutting down loses no accepted job: before the workers are gone, the queue has been worked
      off, so `ws_worker_shutdown` finds no job to free. */
  lemma ShutdownDrains(n: nat, run: seq<Action>)
    requires n > 0 && Enabled(After(Init(n), run), Join)
    ensures var s := After(Init(n), run);
      s.sh.queue == [] && forall no :: 0 <= no < |s.accepted| ==> Has(s.answered, no)
  {
    RunInv(n, run);
    var s := After(Init(n), run);
    assert s.workers[0].Exited?;
    QuietPoolOwesNothing(n, run);
  }

  /** The queue and the quotas stay within their bounds and count what they are meant to count, and
      the statistics account for every accepted job. */
  lemma CountersAreRight(n: nat, run: seq<Action>)
    requires n > 0
    ensures var s := After(Init(n), run);
      && s.sh.queueLen == |s.sh.queue| <= MAX_QUEUE
      && (forall slot :: 0 <= slot < CONN_LOCKS ==>
            s.sh.pending[slot] == Queued(slot, s.sh.queue) + InFlight(OfSlot(slot), s.workers) <= MAX_PER_CONN)
      && |s.accepted| == s.sh.stats.total
                      == |s.sh.queue| + InFlight(Unrecorded, s.workers) + s.sh.stats.ok + s.sh.stats.failed
      && s.sh.stats.timeouts <= s.sh.stats.failed && s.sh.stats.maxUs <= s.sh.stats.totalUs
  {
    RunInv(n, run);
    hide Do, After;
    var s := After(Init(n), run);
    forall slot | 0 <= slot < CONN_LOCKS
      ensures s.sh.pending[slot] == Queued(slot, s.sh.queue) + InFlight(OfSlot(slot), s.workers) <= MAX_PER_CONN
    {
      SlotFact(s, slot);
    }
  }

  /** The executor never runs twice at once for the connections of a slot. */
  lemma OneAtATime(n: nat, run: seq<Action>, v: nat, w: nat)
    requires n > 0
    requires var ws := After(Init(n), run).workers;
      v < |ws| && w < |ws| && ws[v].Running? && ws[w].Running? && Slot(ws[v].job.conn) == Slot(ws[w].job.conn)
    ensures v == w
  {
    RunInv(n, run);
  }

  /** A worker that gives its place in the quota back always finds the quota in use: the guard
      against a negative quota never fires. */
  lemma {:induction false} HolderCounts(ws: seq<Worker>, w: nat)
    requires w < |ws| && HasJob(ws[w])
    ensures InFlight(OfSlot(Slot(ws[w].job.conn)), ws) > 0
  {
    if w > 0 {
      HolderCounts(ws[1..], w - 1);
    }
  }

  lemma QuotaGuardNeverFires(n: nat, run: seq<Action>, w: nat)
    requires n > 0 && Enabled(After(Init(n), run), Release(w))
    ensures var s := After(Init(n), run); s.sh.pending[Slot(s.workers[w].job.conn)] > 0
  {
    RunInv(n, run);
    hide Do, After;
    var s := After(Init(n), run);
    HolderCounts(s.workers, w);
    SlotFact(s, Slot(s.workers[w].job.conn));
  }

  // ----- progress -----

  predicate IsWorkerStep(a: Action) {
    a.Fetch? || a.Look? || a.Lock? || a.Return? || a.Answer? || a.Record? || a.Release?
  }

  /** How many steps a worker can take before it is back at the queue, or gone. */
  function StepsLeft(w: Worker): nat {
    match w
    case Exited => 0
    case Fetching => 1
    case Recorded(_) => 2
    case Answered(_, _, _, _) => 3
    case Ran(_, _, _, _) => 4
    case Running(_, _) => 5
    case Waiting(_, _) => 6
    case Taken(_) => 7
  }

  function AllSteps(ws: seq<Worker>): nat {
    if ws == [] then 0 else StepsLeft(ws[0]) + AllSteps(ws[1..])
  }

  lemma {:induction false} AllStepsMove(ws: seq<Worker>, i: nat, w: Worker)
    requires i < |ws|
    ensures AllSteps(ws[i := w]) == AllSteps(ws) - StepsLeft(ws[i]) + StepsLeft(w)
  {
    if i == 0 {
      assert ws[i := w][1..] == ws[1..];
    } else {
      assert ws[i := w][1..] == ws[1..][i - 1 := w];
      AllStepsMove(ws[1..], i - 1, w);
    }
  }

  function WorkLeft(s: State): nat {
    7 * |s.sh.queue| + AllSteps(s.workers)
  }

  /** Every step of a worker brings it closer to being done; only accepting a job adds work. */
  lemma WorkersFinish(s: State, a: Action)
    requires Enabled(s, a)
    ensures IsWorkerStep(a) ==> WorkLeft(Do(s, a)) < WorkLeft(s)
    ensures !IsWorkerStep(a) && !a.Submit? ==> WorkLeft(Do(s, a)) <= WorkLeft(s)
    ensures a.Submit? ==> WorkLeft(Do(s, a)) <= WorkLeft(s) + 7
  {
    if IsWorkerStep(a) {
      AllStepsMove(s.workers, a.w, Do(s, a).workers[a.w]);
    }
  }

  /** The pool never gets stuck: while there is a queued job or one in flight, or the pool is
      stopping and a worker has not left, some worker can take a step. */
  lemma NeverStuck(n: nat, run: seq<Action>) returns (a: Action)
    requires n > 0
    requires var s := After(Init(n), run);
      || s.sh.queue != []
      || (exists w :: 0 <= w < |s.workers| && HasJob(s.workers[w]))
      || (!s.sh.running && exists w :: 0 <= w < |s.workers| && !s.workers[w].Exited?)
    ensures IsWorkerStep(a) && Enabled(After(Init(n), run), a)
  {
    RunInv(n, run);
    var s := After(Init(n), run);
    if w :| 0 <= w < |s.workers| && HasJob(s.workers[w]) {
      match s.workers[w] {
        case Taken(_) => a := Look(w);
        case Waiting(job, _) =>
          var holder := s.locks[Slot(job.conn)];
          a := if holder == UNLOCKED then Lock(w) else Return(holder, 0);
        case Running(_, _) => a := Return(w, 0);
        case Ran(_, _, _, _) => a := Answer(w);
        case Answered(_, _, _, _) => a := Record(w);
        case Recorded(_) => a := Release(w);
      }
    } else if s.sh.queue != [] {
      assert !s.workers[0].Exited?;
      a := Fetch(0);
    } else {
      var w :| 0 <= w < |s.workers| && !s.workers[w].Exited?;
      a := Fetch(w);
    }
  }

  // ----- when jobs are executed in order -----

  predicate SameConn(s: State, k: nat, m: nat) {
    k < |s.accepted| && m < |s.accepted| && s.accepted[k].conn == s.accepted[m].conn
  }

  predicate SameSlot(s: State, k: nat, m: nat) {
    k < |s.accepted| && m < |s.accepted| && Slot(s.accepted[k].conn) == Slot(s.accepted[m].conn)
  }

  /** The jobs of one connection have been executed in the order in which they were accepted. */
  predicate InOrder(s: State) {
    forall i, j :: 0 <= i < j < |s.executed| && SameConn(s, s.executed[i], s.executed[j]) ==> s.executed[i] < s.executed[j]
  }

  predicate Increasing(xs: seq<nat>) {
    forall i, j :: 0 <= i < j < |xs| ==> xs[i] < xs[j]
  }

  /** The worker is about to execute its job. */
  predicate Before(w: Worker) {
    w.Taken? || w.Waiting?
  }

  /** With one worker, whatever has been executed was accepted before the job it is about to execute. */
  predicate LoneOk(s: State) {
    && |s.workers| == 1
    && Increasing(s.executed)
    && (forall i :: 0 <= i < |s.executed| ==> s.executed[i] < s.taken)
    && (Before(s.workers[0]) ==> forall i :: 0 <= i < |s.executed| ==> s.executed[i] < s.workers[0].job.no)
  }

  lemma StepLone(s: State, a: Action)
    requires QueueOk(s) && HeldOk(s) && LoneOk(s) && Enabled(s, a)
    ensures LoneOk(Do(s, a))
  {
    if a.Fetch? && s.sh.queue != [] {
      NextJob(s);
    }
  }

  /** One worker executes all jobs in the order of acceptance. */
  lemma {:induction false} LoneWorkerKeepsOrder(run: seq<Action>)
    ensures LoneOk(After(Init(1), run))
  {
    if run != [] {
      var s, a := After(Init(1), run[..|run| - 1]), run[|run| - 1];
      RunInv(1, run[..|run| - 1]);
      LoneWorkerKeepsOrder(run[..|run| - 1]);
      if Enabled(s, a) {
        StepLone(s, a);
      }
    }
  }

  lemma AfterOneMore(s: State, run: seq<Action>, a: Action)
    requires Enabled(After(s, run), a)
    ensures After(s, run + [a]) == Do(After(s, run), a)
  {
    assert (run + [a])[..|run|] == run;
  }

  /** Any pool with two or more workers can execute two jobs of one connection in the opposite order. */
  lemma OrderCanInvert(n: nat) returns (run: seq<Action>)
    requires n >= 2
    ensures var s := After(Init(n), run);
      |s.accepted| == 2 && s.accepted[0].conn == s.accepted[1].conn && s.executed == [1, 0]
  {
    run := TwoWaiting(n);
    hide After;
    AfterOneMore(Init(n), run, Lock(1));
    run := run + [Lock(1)];
    AfterOneMore(Init(n), run, Return(1, 0));
    run := run + [Return(1, 0)];
    AfterOneMore(Init(n), run, Lock(0));
    run := run + [Lock(0)];
  }

  /** Two workers have taken two jobs of connection 7 and want the lock. */
  lemma TwoWaiting(n: nat) returns (run: seq<Action>)
    requires n >= 2
    ensures var s := After(Init(n), run);
      && |s.workers| == n && s.workers[0] == Waiting(Job(0, 7, 0, 0), 0) && s.workers[1] == Waiting(Job(1, 7, 0, 0), 0)
      && s.locks[7] == UNLOCKED && s.executed == [] && s.accepted == [Job(0, 7, 0, 0), Job(1, 7, 0, 0)]
  {
    var j0, j1 := Job(0, 7, 0, 0), Job(1, 7, 0, 0);
    run := [Submit(7, 0, 0)];
    AfterOneMore(Init(n), [], Submit(7, 0, 0));
    AfterOneMore(Init(n), run, Submit(7, 0, 0));
    run := run + [Submit(7, 0, 0)];
    assert After(Init(n), run).sh.queue == [j0, j1];
    hide After;
    AfterOneMore(Init(n), run, Fetch(0));
    run := run + [Fetch(0)];
    AfterOneMore(Init(n), run, Fetch(1));
    run := run + [Fetch(1)];
    assert After(Init(n), run).workers[..2] == [Taken(j0), Taken(j1)];
    AfterOneMore(Init(n), run, Look(0));
    run := run + [Look(0)];
    AfterOneMore(Init(n), run, Look(1));
    run := run + [Look(1)];
  }

  /** The pool keeps the order of each connection in every run if and only if it has one worker;
      and then it keeps the order of all jobs. */
  lemma OrderKeptIff(n: nat)
    requires n > 0
    ensures (forall run :: InOrder(After(Init(n), run))) <==> n == 1
    ensures (forall run :: Increasing(After(Init(n), run).executed)) <==> n == 1
  {
    if n == 1 {
      forall run ensures Increasing(After(Init(1), run).executed) {
        LoneWorkerKeepsOrder(run);
      }
      forall run ensures InOrder(After(Init(1), run)) {
        LoneWorkerKeepsOrder(run);
      }
    } else {
      var run := OrderCanInvert(n);
      var s := After(Init(n), run);
      assert SameConn(s, s.executed[0], s.executed[1]) && s.executed[0] > s.executed[1];
    }
  }

  // ----- callers that wait -----

  /** Every job is submitted while its slot has none queued or in flight. */
  predicate Careful(n: nat, run: seq<Action>) {
    forall i :: 0 <= i < |run| && run[i].Submit? ==> After(Init(n), run[..i]).sh.pending[Slot(run[i].conn)] == 0
  }

  lemma {:induction false} QueuedCounts(jobs: seq<Job>, i: nat)
    requires i < |jobs|
    ensures Queued(Slot(jobs[i].conn), jobs) > 0
  {
    if i > 0 {
      QueuedCounts(jobs[1..], i - 1);
    }
  }

  /** No job accepted after job k is for the same slot. */
  predicate Newest(accepted: seq<Job>, k: nat)
    requires k < |accepted|
  {
    forall m :: k < m < |accepted| ==> Slot(accepted[m].conn) != Slot(accepted[k].conn)
  }

  /** Every job that is queued or held by a worker is the newest of its slot. */
  predicate LiveIsNewest(s: State) {
    && (forall k :: s.taken <= k < |s.accepted| ==> Newest(s.accepted, k))
    && (forall w :: 0 <= w < |s.workers| && HasJob(s.workers[w]) ==>
          s.workers[w].job.no < |s.accepted| && Newest(s.accepted, s.workers[w].job.no))
  }

  lemma SubmitNewest(s: State, a: Action)
    requires Inv(s) && LiveIsNewest(s) && Enabled(s, a) && a.Submit?
    requires s.sh.pending[Slot(a.conn)] == 0
    ensures LiveIsNewest(Do(s, a))
  {
    hide TimesOk, TallyOk, RepliesOk, ExecutedOk, StatsOk, LocksOk;
    var s' := Do(s, a);
    SlotFact(s, Slot(a.conn));
    forall k | s'.taken <= k < |s'.accepted| ensures Newest(s'.accepted, k) {
      if k < |s.accepted| {
        assert Newest(s.accepted, k) && s.sh.queue[k - s.taken] == s.accepted[k];
        QueuedCounts(s.sh.queue, k - s.taken);
      }
    }
    forall w | 0 <= w < |s'.workers| && HasJob(s'.workers[w]) ensures Newest(s'.accepted, s'.workers[w].job.no) {
      assert Newest(s.accepted, s.workers[w].job.no);
      HolderCounts(s.workers, w);
    }
  }

  lemma OtherNewest(s: State, a: Action)
    requires QueueOk(s) && LiveIsNewest(s) && Enabled(s, a) && !a.Submit?
    ensures LiveIsNewest(Do(s, a))
  {
    hide Newest;
    if a.Fetch? && s.sh.queue != [] {
      NextJob(s);
      assert Newest(s.accepted, s.taken);
    }
  }

  /** The jobs of one slot have been executed in the order in which they were accepted. */
  predicate SlotsInOrder(s: State) {
    forall i, j :: 0 <= i < j < |s.executed| && SameSlot(s, s.executed[i], s.executed[j]) ==> s.executed[i] < s.executed[j]
  }

  lemma StepSlotsInOrder(s: State, a: Action)
    requires Inv(s) && LiveIsNewest(s) && SlotsInOrder(s) && Enabled(s, a)
    ensures SlotsInOrder(Do(s, a))
  {
    hide QueueOk, PendingOk, LocksOk, RepliesOk, DeliveryOk, StatsOk, ExitOk, TimesOk, TallyOk;
    assert forall i :: 0 <= i < |s.executed| ==> s.executed[i] < s.taken;
    if a.Lock? {
      var k := s.workers[a.w].job.no;
      assert Newest(s.accepted, k) && k !in s.executed;
    }
  }

  /** Callers that submit only while nothing is pending for the slot get the jobs of each connection
      executed in the order of acceptance, with any number of workers. */
  lemma {:induction false} CarefulCallersKeepOrder(n: nat, run: seq<Action>)
    requires n > 0 && Careful(n, run)
    ensures var s := After(Init(n), run); LiveIsNewest(s) && SlotsInOrder(s) && InOrder(s)
  {
    if run != [] {
      var most, a := run[..|run| - 1], run[|run| - 1];
      var s := After(Init(n), most);
      assert Careful(n, most) by {
        assert forall i :: 0 <= i < |most| ==> most[..i] == run[..i];
      }
      CarefulCallersKeepOrder(n, most);
      RunInv(n, most);
      if Enabled(s, a) {
        hide Do, Inv;
        if a.Submit? {
          SubmitNewest(s, a);
        } else {
          OtherNewest(s, a);
        }
        StepSlotsInOrder(s, a);
      }
    }
  }
}
