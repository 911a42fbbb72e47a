/** The life of a sleeping aio in nng: begin, schedule, cancel, expire, finish.

    Any number of aios share one expire queue.  For every aio a user calls `nni_sleep_aio` again
    and again; any number of other threads call abort, stop and close on any of them; the expire
    thread scans the queue and calls the cancel functions of what it took off, dropping the lock
    around each call.  Every critical section is one step. */
module AioSleep {
  import opened ExpireQueue

  const NNG_ETIMEDOUT := 5
  const NNG_ECLOSED := 7
  const NNG_ECANCELED := 20

  /** Where an operation is.  The last three cases all look the same to the user, who waits for
      the callback; they tell who is going to finish the operation. */
  datatype Op =
    | Rest                   // none outstanding
    | Begun                  // nni_aio_begin has succeeded
    | Asleep                 // a_expire_ok and a_sleep are set
    | Timed                  // a_expire is set, about to call nni_aio_schedule
    | Failing(rv: int)       // nni_aio_schedule has returned rv, about to call nni_aio_finish_error
    | Scheduled              // the cancel function is stored
    | Held(holder: Who)      // somebody took the cancel function
    | Lost                   // nni_aio_schedule returned 0 without storing it

  datatype Who = Caller(p: nat) | Expirer

  const NNG_DURATION_INFINITE := -1
  const NNG_DURATION_DEFAULT := -2

  /** What the user asked for: to sleep for ms, with the timeout that the aio had, at this time. */
  datatype Asked = Asked(ms: int, timeout: int, clock: nat)

  const NOTHING := Asked(0, NNG_DURATION_DEFAULT, 0)

  /** Who has ended an operation: a thread that aborts, stops or closes, the expire thread, or the
      user himself, whose nni_aio_schedule failed. */
  datatype Ender = ByCaller(p: nat) | ByExpirer | ByUser

  datatype Outcome = Outcome(who: Ender, rv: int, asked: Asked)

  datatype Aio = Aio(
    op: Op,
    cancel: bool,            // a_cancel_fn != NULL
    sleep: bool,
    abort: bool,
    stop: bool,
    expireOk: bool,
    result: int,
    asked: Asked,                       // a history: what the last sleep was set up for
    begun: nat, outcomes: seq<Outcome>, // successful begins, and what the finish functions were called with
    stored: nat, taken: nat)            // cancel functions stored, and taken away to be called
  {
    function Finishes(): nat { |outcomes| }
  }

  /** A thread that aborts, stops or closes: it has taken the cancel function, or is inside it
      and has cleared a_sleep. */
  datatype CallPc = Free | Took(a: nat, rv: int) | InCancel(a: nat, rv: int)

  datatype ExpPc =
    | Top                    // at the head of the loop
    | Waiting(until: nat)    // in nni_cv_until
    | Batch(rest: seq<nat>, now: nat)
    | Calling(pc: CallPc, rest: seq<nat>, now: nat)

  datatype State = State(
    aios: seq<Aio>,
    expire: seq<nat>,        // a_expire of every aio
    list: seq<nat>,          // eq_list
    next: nat,               // eq_next
    woken: bool,             // eq_cv has been signalled
    calls: seq<CallPc>,
    exp: ExpPc,
    scanned: seq<nat>)       // a history: how many operations of each aio had begun at the last scan

  predicate Init(s: State) {
    && |s.expire| == |s.aios|
    && (forall a :: 0 <= a < |s.aios| ==> s.expire[a] == NNI_TIME_NEVER)
    && (forall a :: 0 <= a < |s.aios| ==> s.aios[a] == Aio(Rest, false, false, false, false, false, 0, NOTHING, 0, [], 0, 0))
    && (forall p :: 0 <= p < |s.calls| ==> s.calls[p] == Free)
    && s.list == [] && s.next == NNI_TIME_NEVER && !s.woken && s.exp == Top
    && |s.scanned| == |s.aios|
  }

  datatype Step =
    | Begin(a: nat)
    | SetSleep(a: nat)
    | SetExpire(a: nat, ms: int, timeout: int, clock: nat)
    | Schedule(a: nat)
    | FailFinish(a: nat)
    | Abort(p: nat, a: nat, rv: int)
    | Stop(p: nat, a: nat, close: bool) // nni_aio_stop, or nni_aio_close
    | Cancel(p: nat)                    // the critical section of nni_sleep_cancel
    | Finish(p: nat)                    // nni_aio_finish_error from there
    | Look(now: nat)                    // the expire thread scans, or goes back to sleep
    | Take                              // ... takes the next cancel function of its batch
    | ExpCancel
    | ExpFinish
    | BatchDone
    | Wake(now: nat)

  function BegunCounts(aios: seq<Aio>): seq<nat> {
    seq(|aios|, a requires 0 <= a < |aios| => aios[a].begun)
  }

  function Set(s: State, a: nat, x: Aio): (r: State)
    requires a < |s.aios|
  {
    s.(aios := s.aios[a := x])
  }

  /** The timeout of the aio ends the sleep. */
  predicate CutShort(ms: int, timeout: int) {
    timeout != NNG_DURATION_DEFAULT && timeout != NNG_DURATION_INFINITE && ms > timeout
  }

  /** The time that `nni_sleep_aio` adds to the clock. */
  function WakesAfter(ms: int, timeout: int): int {
    if CutShort(ms, timeout) then timeout else ms
  }

  predicate Enabled(s: State, st: Step) {
    match st
    case Begin(a) => a < |s.aios| && s.aios[a].op == Rest
    case SetSleep(a) => a < |s.aios| && s.aios[a].op == Begun
    case SetExpire(a, ms, timeout, clock) =>
      a < |s.aios| && s.aios[a].op == Asleep && 0 <= clock + WakesAfter(ms, timeout) < NNI_TIME_NEVER
    case Schedule(a) => a < |s.aios| && s.aios[a].op == Timed
    case FailFinish(a) => a < |s.aios| && s.aios[a].op.Failing?
    case Abort(p, a, _) => p < |s.calls| && s.calls[p] == Free && a < |s.aios|
    case Stop(p, a, _) => p < |s.calls| && s.calls[p] == Free && a < |s.aios|
    case Cancel(p) => p < |s.calls| && s.calls[p].Took? && s.calls[p].a < |s.aios|
    case Finish(p) => p < |s.calls| && s.calls[p].InCancel? && s.calls[p].a < |s.aios|
    case Look(_) => s.exp == Top && forall i :: 0 <= i < |s.list| ==> s.list[i] < |s.expire|
    case Take => s.exp.Batch? && s.exp.rest != [] && s.exp.rest[0] < |s.aios|
    case ExpCancel => s.exp.Calling? && s.exp.pc.Took? && s.exp.pc.a < |s.aios|
    case ExpFinish => s.exp.Calling? && s.exp.pc.InCancel? && s.exp.pc.a < |s.aios|
    case BatchDone => s.exp.Batch? && s.exp.rest == []
    case Wake(now) => s.exp.Waiting? && (s.woken || now >= s.exp.until)
  }

  /** nni_aio_finish_impl, with the outcome of the operation. */
  function Finished(x: Aio, who: Ender, rv: int): Aio {
    x.(op := Rest, cancel := false, sleep := false, result := rv, outcomes := x.outcomes + [Outcome(who, rv, x.asked)])
  }

  /** Takes the cancel function away, if there is one. */
  function TakenBy(x: Aio, w: Who): Aio {
    if x.cancel then x.(cancel := false, taken := x.taken + 1, op := if x.op == Scheduled then Held(w) else x.op) else x
  }

  /** The critical section of nni_sleep_cancel: a_sleep decides whether there is anything to finish. */
  function Awoken(x: Aio): Aio {
    x.(sleep := false)
  }

  /** The steps of the user of an aio. */
  function UserNext(s: State, st: Step): State
    requires Enabled(s, st)
    requires |s.expire| == |s.aios|
  {
    match st
    case Begin(a) =>
      var x := s.aios[a].(result := 0, cancel := false, abort := false);
      if x.stop then
        Set(s, a, x.(result := NNG_ECANCELED, sleep := false, expireOk := false)).(expire := s.expire[a := NNI_TIME_NEVER])
      else Set(s, a, x.(op := Begun, begun := x.begun + 1))
    case SetSleep(a) => Set(s, a, s.aios[a].(op := Asleep, expireOk := true, sleep := true))
    case SetExpire(a, ms, timeout, clock) =>
      var x := s.aios[a].(op := Timed, asked := Asked(ms, timeout, clock));
      Set(s, a, if CutShort(ms, timeout) then x.(expireOk := false) else x)
        .(expire := s.expire[a := clock + WakesAfter(ms, timeout)])
    case Schedule(a) =>
      var x := s.aios[a];
      if x.abort then Set(s, a, x.(op := if x.result == 0 then Lost else Failing(x.result)))
      else if x.stop then Set(s, a, x.(op := Failing(NNG_ECLOSED)))
      else
        var r := Set(s, a, x.(op := Scheduled, cancel := true, stored := x.stored + 1));
        if s.expire[a] == NNI_TIME_NEVER then r
        else r.(list := s.list + [a], next := Min(s.next, s.expire[a]), woken := s.woken || s.next > s.expire[a])
    case FailFinish(a) =>
      Set(s, a, Finished(s.aios[a], ByUser, s.aios[a].op.rv))
        .(list := Without(s.list, a), expire := s.expire[a := NNI_TIME_NEVER])
    case _ => s
  }

  /** The steps of the threads that abort, stop and close. */
  function CallNext(s: State, st: Step): State
    requires Enabled(s, st)
    requires |s.expire| == |s.aios|
  {
    match st
    case Abort(p, a, rv) =>
      var x := s.aios[a];
      var r := s.(list := Without(s.list, a));
      if x.cancel then Set(r, a, TakenBy(x, Caller(p))).(calls := s.calls[p := Took(a, rv)])
      else Set(r, a, x.(abort := true, result := rv))
    case Stop(p, a, close) =>
      var x := s.aios[a];
      var r := Set(s, a, TakenBy(x, Caller(p)).(stop := true)).(list := Without(s.list, a));
      if x.cancel then r.(calls := s.calls[p := Took(a, if close then NNG_ECLOSED else NNG_ECANCELED)]) else r
    case Cancel(p) =>
      var a := s.calls[p].a;
      if !s.aios[a].sleep then s.(calls := s.calls[p := Free])
      else Set(s, a, Awoken(s.aios[a])).(list := Without(s.list, a), calls := s.calls[p := InCancel(a, s.calls[p].rv)])
    case Finish(p) =>
      var a := s.calls[p].a;
      Set(s, a, Finished(s.aios[a], ByCaller(p), s.calls[p].rv))
        .(list := Without(s.list, a), expire := s.expire[a := NNI_TIME_NEVER], calls := s.calls[p := Free])
    case _ => s
  }

  /** The steps of the expire thread. */
  function ExpireNext(s: State, st: Step): State
    requires Enabled(s, st)
    requires |s.expire| == |s.aios|
  {
    match st
    case Look(now) =>
      if now < s.next then s.(exp := Waiting(s.next), woken := false)
      else
        var r := Split(s.list, s.expire, now, NNI_EXPIRE_BATCH);
        s.(list := r.kept, next := r.next, exp := Batch(r.batch, now), scanned := BegunCounts(s.aios))
    case Take =>
      var a := s.exp.rest[0];
      var x := s.aios[a];
      var rest := s.exp.rest[1..];
      if x.cancel then
        Set(s, a, TakenBy(x, Expirer)).(exp := Calling(Took(a, if x.expireOk then 0 else NNG_ETIMEDOUT), rest, s.exp.now))
      else s.(exp := Batch(rest, s.exp.now))
    case ExpCancel =>
      var a := s.exp.pc.a;
      if !s.aios[a].sleep then s.(exp := Batch(s.exp.rest, s.exp.now))
      else Set(s, a, Awoken(s.aios[a])).(list := Without(s.list, a), exp := s.exp.(pc := InCancel(a, s.exp.pc.rv)))
    case ExpFinish =>
      var a := s.exp.pc.a;
      Set(s, a, Finished(s.aios[a], ByExpirer, s.exp.pc.rv))
        .(list := Without(s.list, a), expire := s.expire[a := NNI_TIME_NEVER], exp := Batch(s.exp.rest, s.exp.now))
    case BatchDone =>
      if s.exp.now < s.next then s.(exp := Waiting(s.next), woken := false) else s.(exp := Top)
    case Wake(_) => s.(exp := Top)
    case _ => s
  }

  function Next(s: State, st: Step): State
    requires Enabled(s, st)
    requires |s.expire| == |s.aios|
  {
    if st.Begin? || st.SetSleep? || st.SetExpire? || st.Schedule? || st.FailFinish? then UserNext(s, st)
    else if st.Abort? || st.Stop? || st.Cancel? || st.Finish? then CallNext(s, st)
    else ExpireNext(s, st)
  }

  // ----- the invariant -----

  /** The sleep was set up for its full time: the aio has no timeout, or none that is shorter. */
  predicate FullTime(q: Asked) {
    q.timeout in {NNG_DURATION_INFINITE, NNG_DURATION_DEFAULT} || q.ms <= q.timeout
  }

  /** The code that a sleep owes to its user when its time has come. */
  function DueCode(q: Asked): int {
    if FullTime(q) then 0 else NNG_ETIMEDOUT
  }

  /** The time at which it is due. */
  function DueTime(q: Asked): int {
    q.clock + if FullTime(q) then q.ms else q.timeout
  }

  /** The result of an aio at rest is the code with which its last operation ended, as long as nobody
      stops it, and nobody aborts what is not under way. */
  predicate ResultOk(x: Aio) {
    x.op == Rest && x.outcomes != [] && !x.abort && !x.stop ==> x.result == x.outcomes[|x.outcomes| - 1].rv
  }

  /** What one aio's own fields say about each other. */
  predicate AioOk(x: Aio) {
    && x.begun == x.Finishes() + (if x.op == Rest then 0 else 1)
    && x.stored == x.taken + (if x.cancel then 1 else 0)
    && (x.cancel <==> x.op == Scheduled)
    && (x.op == Rest || x.op == Begun ==> !x.sleep)
    && (x.op == Asleep || x.op == Timed || x.op.Failing? || x.op == Scheduled || x.op == Lost ==> x.sleep)
    && (x.op == Asleep ==> x.expireOk)
    && (x.op == Timed || x.op == Scheduled ==> (x.expireOk <==> FullTime(x.asked)))
    && ResultOk(x)
  }

  /** A thread that has taken a cancel function is the one who will finish that operation. */
  predicate CallOk(s: State, pc: CallPc, w: Who) {
    pc != Free ==>
      && pc.a < |s.aios| && s.aios[pc.a].op == Held(w) && (s.aios[pc.a].sleep <==> pc.Took?)
      && (w == Expirer ==> pc.rv == DueCode(s.aios[pc.a].asked))
  }

  /** An operation whose cancel function has been taken is in the hands of that thread. */
  predicate HolderOk(s: State, a: nat)
    requires a < |s.aios|
  {
    match s.aios[a].op
    case Held(Caller(p)) => p < |s.calls| && s.calls[p] != Free && s.calls[p].a == a
    case Held(Expirer) => s.exp.Calling? && s.exp.pc != Free && s.exp.pc.a == a
    case _ => true
  }

  /** The aios the expire thread has taken off the list and not looked at yet. */
  function BatchLeft(e: ExpPc): seq<nat> {
    match e
    case Batch(rest, _) => rest
    case Calling(_, rest, _) => rest
    case _ => []
  }

  /** A scheduled sleep expires when it is due, and until then it is on its way to the expire thread. */
  predicate Expiring(s: State, a: nat)
    requires a < |s.aios| && a < |s.expire|
  {
    && (s.aios[a].op == Timed || s.aios[a].op == Scheduled ==> s.expire[a] == DueTime(s.aios[a].asked) < NNI_TIME_NEVER)
    && (s.aios[a].op == Scheduled ==> a in s.list || a in BatchLeft(s.exp))
  }

  /** A listed aio is scheduled, or the expire thread has just taken its cancel function: it works
      through an old batch, and the aio may have been used again since it was put there. */
  predicate Listed(x: Aio) {
    x.op == Scheduled || (x.op == Held(Expirer) && x.sleep)
  }

  predicate ListOk(s: State) {
    && (forall a :: a in s.list ==> a < |s.aios| && a < |s.expire| && Listed(s.aios[a]) && s.next <= s.expire[a])
    && (forall i, j :: 0 <= i < j < |s.list| ==> s.list[i] != s.list[j])
    && (forall a :: a in BatchLeft(s.exp) ==> a < |s.aios|)
    && (s.exp.Waiting? && !s.woken ==> s.exp.until <= s.next)
  }

  ghost predicate Inv(s: State) {
    && |s.expire| == |s.aios|
    && (forall a :: 0 <= a < |s.aios| ==> AioOk(s.aios[a]))
    && (forall a :: 0 <= a < |s.aios| ==> HolderOk(s, a))
    && (forall a :: 0 <= a < |s.aios| ==> Expiring(s, a))
    && (forall p :: 0 <= p < |s.calls| ==> CallOk(s, s.calls[p], Caller(p)))
    && (s.exp.Calling? ==> s.exp.pc != Free && CallOk(s, s.exp.pc, Expirer))
    && ListOk(s)
  }

  lemma InitInv(s: State)
    requires Init(s)
    ensures Inv(s)
  {
  }

  predicate About(pc: CallPc, a: nat) {
    pc == Free || pc.a == a
  }

  function ExpCall(e: ExpPc): CallPc {
    if e.Calling? then e.pc else Free
  }

  /** A step that concerns aio a alone. */
  ghost predicate Only(s: State, s': State, a: nat) {
    && |s'.aios| == |s.aios| == |s.expire| == |s'.expire| && |s'.calls| == |s.calls|
    && (forall b :: 0 <= b < |s.aios| && b != a ==> s'.aios[b] == s.aios[b] && s'.expire[b] == s.expire[b])
    && (forall p :: 0 <= p < |s.calls| ==> s'.calls[p] == s.calls[p] || (About(s.calls[p], a) && About(s'.calls[p], a)))
    && (ExpCall(s'.exp) == ExpCall(s.exp) || (About(ExpCall(s.exp), a) && About(ExpCall(s'.exp), a)))
    && (forall b :: b != a ==> (b in s'.list <==> b in s.list))
    && (forall b :: b != a && b in BatchLeft(s.exp) ==> b in BatchLeft(s'.exp))
  }

  /** Then nothing changes for the other aios and for the threads that deal with them. */
  lemma OthersKept(s: State, s': State, a: nat)
    requires Inv(s) && Only(s, s', a)
    ensures forall b :: 0 <= b < |s'.aios| && b != a ==> AioOk(s'.aios[b])
    ensures forall b :: 0 <= b < |s'.aios| && b != a ==> HolderOk(s', b)
    ensures forall b :: 0 <= b < |s'.aios| && b != a ==> Expiring(s', b)
    ensures forall p :: 0 <= p < |s'.calls| && !About(s'.calls[p], a) ==> CallOk(s', s'.calls[p], Caller(p))
    ensures !About(ExpCall(s'.exp), a) ==> CallOk(s', ExpCall(s'.exp), Expirer)
  {
    forall b | 0 <= b < |s'.aios| && b != a ensures AioOk(s'.aios[b]) && HolderOk(s', b) && Expiring(s', b) {
      assert AioOk(s.aios[b]) && HolderOk(s, b) && Expiring(s, b);
    }
    forall p | 0 <= p < |s'.calls| && !About(s'.calls[p], a) ensures CallOk(s', s'.calls[p], Caller(p)) {
      assert CallOk(s, s.calls[p], Caller(p));
    }
  }

  /** What remains to be shown is about a. */
  lemma InvIntro(s: State, s': State, a: nat)
    requires Inv(s) && Only(s, s', a) && a < |s.aios|
    requires AioOk(s'.aios[a]) && HolderOk(s', a) && Expiring(s', a) && ListOk(s')
    requires forall p :: 0 <= p < |s'.calls| && s'.calls[p] != Free && s'.calls[p].a == a ==> CallOk(s', s'.calls[p], Caller(p))
    requires s'.exp.Calling? ==> s'.exp.pc != Free && (s'.exp.pc.a == a ==> CallOk(s', s'.exp.pc, Expirer))
    ensures Inv(s')
  {
    OthersKept(s, s', a);
  }

  lemma BeginInv(s: State, a: nat)
    requires Inv(s) && Enabled(s, Begin(a))
    ensures Inv(Next(s, Begin(a)))
  {
    hide CallNext, ExpireNext;
    var s' := Next(s, Begin(a));
    assert AioOk(s.aios[a]) && HolderOk(s, a);
    InvIntro(s, s', a);
  }

  lemma SetupInv(s: State, st: Step)
    requires Inv(s) && Enabled(s, st) && (st.SetSleep? || st.SetExpire?)
    ensures Inv(Next(s, st))
  {
    hide CallNext, ExpireNext;
    assert AioOk(s.aios[st.a]) && HolderOk(s, st.a);
    InvIntro(s, Next(s, st), st.a);
  }

  /** The case in which the cancel function is stored. */
  lemma StoreInv(s: State, a: nat)
    requires Inv(s) && Enabled(s, Schedule(a))
    requires !s.aios[a].abort && !s.aios[a].stop
    ensures Inv(Next(s, Schedule(a)))
  {
    hide CallNext, ExpireNext;
    assert AioOk(s.aios[a]) && HolderOk(s, a) && Expiring(s, a);
    assert a !in s.list;
    InvIntro(s, Next(s, Schedule(a)), a);
  }

  lemma ScheduleInv(s: State, a: nat)
    requires Inv(s) && Enabled(s, Schedule(a))
    ensures Inv(Next(s, Schedule(a)))
  {
    hide CallNext, ExpireNext;
    if !s.aios[a].abort && !s.aios[a].stop {
      StoreInv(s, a);
    } else {
      assert AioOk(s.aios[a]) && HolderOk(s, a);
      InvIntro(s, Next(s, Schedule(a)), a);
    }
  }

  lemma FailFinishInv(s: State, a: nat)
    requires Inv(s) && Enabled(s, FailFinish(a))
    ensures Inv(Next(s, FailFinish(a)))
  {
    hide CallNext, ExpireNext;
    assert AioOk(s.aios[a]) && HolderOk(s, a);
    WithoutDistinct(s.list, a);
    InvIntro(s, Next(s, FailFinish(a)), a);
  }

  /** Abort, when there is a cancel function to take. */
  lemma AbortTakesInv(s: State, st: Step)
    requires Inv(s) && Enabled(s, st) && st.Abort? && s.aios[st.a].cancel
    ensures Inv(CallNext(s, st))
  {
    hide DueCode, DueTime;
    assert AioOk(s.aios[st.a]) && HolderOk(s, st.a) && Expiring(s, st.a);
    WithoutDistinct(s.list, st.a);
    InvIntro(s, CallNext(s, st), st.a);
  }

  /** ... and when there is none. */
  lemma AbortMarksInv(s: State, st: Step)
    requires Inv(s) && Enabled(s, st) && st.Abort? && !s.aios[st.a].cancel
    ensures Inv(CallNext(s, st))
  {
    hide DueCode, DueTime;
    assert AioOk(s.aios[st.a]) && HolderOk(s, st.a) && Expiring(s, st.a);
    WithoutDistinct(s.list, st.a);
    InvIntro(s, CallNext(s, st), st.a);
  }

  /** The same for stop and close. */
  lemma StopTakesInv(s: State, st: Step)
    requires Inv(s) && Enabled(s, st) && st.Stop? && s.aios[st.a].cancel
    ensures Inv(CallNext(s, st))
  {
    hide DueCode, DueTime;
    assert AioOk(s.aios[st.a]) && HolderOk(s, st.a) && Expiring(s, st.a);
    WithoutDistinct(s.list, st.a);
    InvIntro(s, CallNext(s, st), st.a);
  }

  lemma StopMarksInv(s: State, st: Step)
    requires Inv(s) && Enabled(s, st) && st.Stop? && !s.aios[st.a].cancel
    ensures Inv(CallNext(s, st))
  {
    hide DueCode, DueTime;
    assert AioOk(s.aios[st.a]) && HolderOk(s, st.a) && Expiring(s, st.a);
    WithoutDistinct(s.list, st.a);
    InvIntro(s, CallNext(s, st), st.a);
  }

  lemma AbortInv(s: State, st: Step)
    requires Inv(s) && Enabled(s, st) && (st.Abort? || st.Stop?)
    ensures Inv(Next(s, st))
  {
    InvLengths(s);
    hide Inv, CallNext;
    if st.Abort? {
      if s.aios[st.a].cancel {
        AbortTakesInv(s, st);
      } else {
        AbortMarksInv(s, st);
      }
    } else if s.aios[st.a].cancel {
      StopTakesInv(s, st);
    } else {
      StopMarksInv(s, st);
    }
  }

  lemma InvLengths(s: State)
    requires Inv(s)
    ensures |s.expire| == |s.aios|
  {
  }

  lemma CancelInv(s: State, p: nat)
    requires Inv(s) && Enabled(s, Cancel(p))
    ensures Inv(Next(s, Cancel(p)))
  {
    hide UserNext, ExpireNext;
    var a := s.calls[p].a;
    assert AioOk(s.aios[a]) && HolderOk(s, a) && CallOk(s, s.calls[p], Caller(p));
    WithoutDistinct(s.list, a);
    InvIntro(s, Next(s, Cancel(p)), a);
  }

  lemma FinishInv(s: State, p: nat)
    requires Inv(s) && Enabled(s, Finish(p))
    ensures Inv(Next(s, Finish(p)))
  {
    hide UserNext, ExpireNext;
    var a := s.calls[p].a;
    assert AioOk(s.aios[a]) && HolderOk(s, a) && CallOk(s, s.calls[p], Caller(p));
    WithoutDistinct(s.list, a);
    InvIntro(s, Next(s, Finish(p)), a);
  }

  /** A step of the expire thread that touches no aio. */
  lemma QuietInv(s: State, s': State)
    requires Inv(s) && ListOk(s')
    requires s'.aios == s.aios && s'.expire == s.expire && s'.calls == s.calls
    requires !s.exp.Calling? && !s'.exp.Calling?
    requires forall b :: b in s.list || b in BatchLeft(s.exp) ==> b in s'.list || b in BatchLeft(s'.exp)
    ensures Inv(s')
  {
    forall a | 0 <= a < |s'.aios| ensures HolderOk(s', a) && Expiring(s', a) {
      assert HolderOk(s, a) && Expiring(s, a);
    }
    forall p | 0 <= p < |s'.calls| ensures CallOk(s', s'.calls[p], Caller(p)) {
      assert CallOk(s, s.calls[p], Caller(p));
    }
  }

  lemma LookInv(s: State, now: nat)
    requires Inv(s) && Enabled(s, Look(now))
    ensures Inv(Next(s, Look(now)))
  {
    hide UserNext, CallNext;
    hide Split;
    var s' := Next(s, Look(now));
    if now >= s.next {
      SplitMembers(s.list, s.expire, now, NNI_EXPIRE_BATCH);
      SplitMeaning(s.list, s.expire, now, NNI_EXPIRE_BATCH);
      KeptIsDistinct(s.list, s.expire, now, NNI_EXPIRE_BATCH);
      var r := Split(s.list, s.expire, now, NNI_EXPIRE_BATCH);
      assert forall a :: a in s.list <==> a in r.batch || a in r.kept;
      assert s'.list == r.kept && BatchLeft(s'.exp) == r.batch && s'.next == r.next;
    }
    QuietInv(s, s');
  }

  lemma TakeInv(s: State)
    requires Inv(s) && Enabled(s, Take)
    ensures Inv(Next(s, Take))
  {
    hide UserNext, CallNext;
    var a := s.exp.rest[0];
    var s' := Next(s, Take);
    assert s.exp.rest == [a] + s.exp.rest[1..];
    assert a in BatchLeft(s.exp) && forall b :: b in s.exp.rest[1..] ==> b in BatchLeft(s.exp);
    assert BatchLeft(s'.exp) == s.exp.rest[1..];
    assert AioOk(s.aios[a]) && HolderOk(s, a) && Expiring(s, a);
    assert ListOk(s');
    InvIntro(s, s', a);
  }

  lemma ExpCancelInv(s: State)
    requires Inv(s) && Enabled(s, ExpCancel)
    ensures Inv(Next(s, ExpCancel))
  {
    hide UserNext, CallNext;
    var a := s.exp.pc.a;
    assert AioOk(s.aios[a]) && HolderOk(s, a) && CallOk(s, s.exp.pc, Expirer);
    WithoutDistinct(s.list, a);
    assert BatchLeft(Next(s, ExpCancel).exp) == BatchLeft(s.exp);
    InvIntro(s, Next(s, ExpCancel), a);
  }

  lemma ExpFinishInv(s: State)
    requires Inv(s) && Enabled(s, ExpFinish)
    ensures Inv(Next(s, ExpFinish))
  {
    hide UserNext, CallNext;
    var a := s.exp.pc.a;
    assert AioOk(s.aios[a]) && HolderOk(s, a) && CallOk(s, s.exp.pc, Expirer);
    WithoutDistinct(s.list, a);
    assert BatchLeft(Next(s, ExpFinish).exp) == BatchLeft(s.exp);
    InvIntro(s, Next(s, ExpFinish), a);
  }

  lemma SleepInv(s: State, st: Step)
    requires Inv(s) && Enabled(s, st) && (st.BatchDone? || st.Wake?)
    ensures Inv(Next(s, st))
  {
    hide UserNext, CallNext;
    QuietInv(s, Next(s, st));
  }

  lemma StepInv(s: State, st: Step)
    requires Inv(s) && Enabled(s, st)
    ensures Inv(Next(s, st))
  {
    hide Next, Enabled, Inv;
    match st
    case Begin(a) => BeginInv(s, a);
    case SetSleep(_) => SetupInv(s, st);
    case SetExpire(_, _, _, _) => SetupInv(s, st);
    case Schedule(a) => ScheduleInv(s, a);
    case FailFinish(a) => FailFinishInv(s, a);
    case Abort(_, _, _) => AbortInv(s, st);
    case Stop(_, _, _) => AbortInv(s, st);
    case Cancel(p) => CancelInv(s, p);
    case Finish(p) => FinishInv(s, p);
    case Look(now) => LookInv(s, now);
    case Take => TakeInv(s);
    case ExpCancel => ExpCancelInv(s);
    case ExpFinish => ExpFinishInv(s);
    case BatchDone => SleepInv(s, st);
    case Wake(_) => SleepInv(s, st);
  }

  // ----- runs -----

  /** The state that a sequence of steps leads to. */
  ghost predicate Leads(s: State, steps: seq<Step>, t: State)
    decreases |steps|
  {
    if steps == [] then s == t
    else |s.expire| == |s.aios| && Enabled(s, steps[0]) && Leads(Next(s, steps[0]), steps[1..], t)
  }

  ghost predicate Reachable(t: State) {
    exists s, steps :: Init(s) && Leads(s, steps, t)
  }

  lemma {:induction false} LeadsInv(s: State, steps: seq<Step>, t: State)
    requires Inv(s) && Leads(s, steps, t)
    ensures Inv(t)
    decreases |steps|
  {
    hide Inv, Next, Enabled;
    if steps != [] {
      StepInv(s, steps[0]);
      LeadsInv(Next(s, steps[0]), steps[1..], t);
    }
  }

  lemma ReachableInv(t: State)
    requires Reachable(t)
    ensures Inv(t)
  {
    var s, steps :| Init(s) && Leads(s, steps, t);
    InitInv(s);
    LeadsInv(s, steps, t);
  }

  /** Whatever abort, stop, close and the expire thread do, also while the expire thread holds a
      batch and the aio is used again: an operation that has begun is finished at most once, none is
      finished that has not begun, and of the parties that could finish it exactly one will. */
  lemma FinishedOnce(t: State, a: nat)
    requires Reachable(t) && a < |t.aios|
    ensures var x := t.aios[a];
            && x.Finishes() <= x.begun <= x.Finishes() + 1
            && (x.begun == x.Finishes() + 1 <==> x.op != Rest)
            && x.taken <= x.stored <= x.taken + 1
            && (x.stored == x.taken + 1 <==> x.cancel)
    ensures forall p :: 0 <= p < |t.calls| && t.calls[p] != Free && t.calls[p].a == a ==>
              t.aios[a].op == Held(Caller(p)) && !t.aios[a].cancel
    ensures forall p, q :: 0 <= p < q < |t.calls| && t.calls[p] != Free && t.calls[p].a == a && t.calls[q] != Free ==>
              t.calls[q].a != a
    ensures ExpCall(t.exp) != Free && ExpCall(t.exp).a == a ==> t.aios[a].op == Held(Expirer) && !t.aios[a].cancel
  {
    ReachableInv(t);
    assert AioOk(t.aios[a]);
    forall p | 0 <= p < |t.calls| && t.calls[p] != Free && t.calls[p].a == a
      ensures t.aios[a].op == Held(Caller(p))
    {
      assert CallOk(t, t.calls[p], Caller(p));
    }
  }

  /** What the user reads after an operation is the code with which it was ended. */
  lemma ResultIsOutcome(t: State, a: nat)
    requires Reachable(t) && a < |t.aios| && t.aios[a].op == Rest && !t.aios[a].abort && !t.aios[a].stop
    ensures t.aios[a].begun > 0 ==>
      var os := t.aios[a].outcomes; os != [] && t.aios[a].result == os[|os| - 1].rv
  {
    ReachableInv(t);
    assert AioOk(t.aios[a]);
  }

  /** An abort that comes when nothing is under way replaces it by its own code. */
  lemma LateAbortReplacesResult(t: State, p: nat, a: nat, rv: int)
    requires Reachable(t) && Enabled(t, Abort(p, a, rv)) && t.aios[a].op == Rest
    ensures |t.expire| == |t.aios|
    ensures var x := Next(t, Abort(p, a, rv)).aios[a]; x.result == rv && x.op == Rest && x.outcomes == t.aios[a].outcomes
  {
    ReachableInv(t);
    assert AioOk(t.aios[a]);
  }

  /** When no thread is in the middle of anything, an operation is either over, waiting for its
      expiration, or lost. */
  lemma AtRest(t: State, a: nat)
    requires Reachable(t) && a < |t.aios|
    requires forall p :: 0 <= p < |t.calls| ==> t.calls[p] == Free
    requires t.exp.Waiting?
    requires t.aios[a].op == Rest || t.aios[a].op == Scheduled || t.aios[a].op.Held? || t.aios[a].op == Lost
    ensures |t.expire| == |t.aios|
    ensures t.aios[a].op == Rest ==> t.aios[a].begun == t.aios[a].Finishes()
    ensures t.aios[a].op == Rest || t.aios[a].op == Scheduled || t.aios[a].op == Lost
    ensures t.aios[a].op == Scheduled ==> a in t.list
  {
    ReachableInv(t);
    assert AioOk(t.aios[a]) && HolderOk(t, a) && Expiring(t, a);
  }

  /** Whoever takes a cancel function finishes the operation: neither a caller nor the expire thread
      finds a_sleep cleared. */
  lemma TakingIsFinishing(t: State, st: Step)
    requires Reachable(t) && Enabled(t, st) && (st.Cancel? || st.ExpCancel?)
    ensures |t.expire| == |t.aios|
    ensures st.Cancel? ==> var u := Next(t, st); u.calls[st.p].InCancel? && u.calls[st.p].a == t.calls[st.p].a
    ensures st.ExpCancel? ==> var u := Next(t, st); u.exp.Calling? && u.exp.pc.InCancel? && u.exp.pc.a == t.exp.pc.a
  {
    ReachableInv(t);
    hide UserNext;
    if st.Cancel? {
      assert CallOk(t, t.calls[st.p], Caller(st.p));
    }
  }

  /** No timeout is slept past: a scheduled sleep expires after the time that was asked for, or after the
      aio's timeout if that is shorter; it is on the list or in the batch at hand, and
      unless it has been signalled the expire thread does not sleep beyond the expiration of anything listed. */
  lemma NoTimeoutSleptPast(t: State, a: nat)
    requires Reachable(t) && a < |t.aios|
    ensures |t.expire| == |t.aios|
    ensures t.aios[a].op == Scheduled ==> t.expire[a] == DueTime(t.aios[a].asked) && (a in t.list || a in BatchLeft(t.exp))
    ensures a in t.list ==> t.next <= t.expire[a]
    ensures a in t.list && t.exp.Waiting? && !t.woken ==> t.exp.until <= t.expire[a]
  {
    ReachableInv(t);
    assert Expiring(t, a);
  }

  /** How far an operation is from its end. */
  function Distance(x: Aio): nat {
    match x.op
    case Begun => 7
    case Asleep => 6
    case Timed => 5
    case Scheduled => 4
    case Held(_) => if x.sleep then 3 else 2
    case Failing(_) => 1
    case _ => 0
  }

  /** The step of the thread that has taken the cancel function. */
  lemma HolderMovesOn(t: State, a: nat) returns (st: Step)
    requires Inv(t) && a < |t.aios| && t.aios[a].op.Held?
    ensures Enabled(t, st)
    ensures a < |Next(t, st).aios| && Distance(Next(t, st).aios[a]) < Distance(t.aios[a])
  {
    assert HolderOk(t, a);
    match t.aios[a].op {
      case Held(Caller(p)) =>
        assert CallOk(t, t.calls[p], Caller(p));
        st := if t.aios[a].sleep then Cancel(p) else Finish(p);
      case Held(Expirer) => st := if t.aios[a].sleep then ExpCancel else ExpFinish;
    }
  }

  /** An operation that is neither over nor waiting for its expiration is never stuck: whoever has
      it in hand can take a step that brings it closer to its end. */
  lemma InFlightMovesOn(t: State, a: nat) returns (st: Step)
    requires Reachable(t) && a < |t.aios|
    requires t.aios[a].op != Rest && t.aios[a].op != Lost && t.aios[a].op != Scheduled
    ensures |t.expire| == |t.aios| && Enabled(t, st)
    ensures a < |Next(t, st).aios| && Distance(Next(t, st).aios[a]) < Distance(t.aios[a])
  {
    ReachableInv(t);
    match t.aios[a].op {
      case Begun => st := SetSleep(a);
      case Asleep => st := SetExpire(a, 0, NNG_DURATION_DEFAULT, 0);
      case Timed => st := Schedule(a);
      case Failing(_) => st := FailFinish(a);
      case Held(_) => st := HolderMovesOn(t, a);
    }
  }

  /** And the expire thread can always go on, at the latest when the time it sleeps until has come. */
  lemma ExpirerMovesOn(t: State) returns (st: Step)
    requires Reachable(t)
    ensures Enabled(t, st)
    ensures st.Look? || st.Take? || st.ExpCancel? || st.ExpFinish? || st.BatchDone? || st.Wake?
  {
    ReachableInv(t);
    assert forall i :: 0 <= i < |t.list| ==> t.list[i] in t.list;
    match t.exp {
      case Top => st := Look(0);
      case Waiting(until) => st := Wake(until);
      case Batch(rest, _) => st := if rest == [] then BatchDone else Take;
      case Calling(pc, _, _) => st := if pc.Took? then ExpCancel else ExpFinish;
    }
    assert t.exp.Batch? && t.exp.rest != [] ==> t.exp.rest[0] in BatchLeft(t.exp);
  }

  // ----- nothing moves back -----

  lemma UserNeverBack(s: State, st: Step, a: nat)
    requires |s.expire| == |s.aios| && Enabled(s, st) && a < |s.aios| && AioOk(s.aios[a]) && s.aios[a].op != Rest
    ensures |UserNext(s, st).aios| == |s.aios| && Distance(UserNext(s, st).aios[a]) <= Distance(s.aios[a])
  {
  }

  lemma CallNeverBack(s: State, st: Step, a: nat)
    requires Inv(s) && Enabled(s, st) && a < |s.aios| && s.aios[a].op != Rest
    ensures |CallNext(s, st).aios| == |s.aios| && Distance(CallNext(s, st).aios[a]) <= Distance(s.aios[a])
  {
    assert AioOk(s.aios[a]);
    if st.Cancel? || st.Finish? {
      assert CallOk(s, s.calls[st.p], Caller(st.p));
    }
  }

  lemma ExpireNeverBack(s: State, st: Step, a: nat)
    requires Inv(s) && Enabled(s, st) && a < |s.aios| && s.aios[a].op != Rest
    ensures |ExpireNext(s, st).aios| == |s.aios| && Distance(ExpireNext(s, st).aios[a]) <= Distance(s.aios[a])
  {
    assert AioOk(s.aios[a]);
  }

  /** No step of anybody moves an operation back. */
  lemma NeverBack(t: State, st: Step, a: nat)
    requires Reachable(t) && Enabled(t, st) && a < |t.aios| && t.aios[a].op != Rest
    ensures |t.expire| == |t.aios| && |Next(t, st).aios| == |t.aios|
    ensures Distance(Next(t, st).aios[a]) <= Distance(t.aios[a])
  {
    ReachableInv(t);
    assert AioOk(t.aios[a]);
    UserNeverBack(t, st, a);
    CallNeverBack(t, st, a);
    ExpireNeverBack(t, st, a);
    hide UserNext, CallNext, ExpireNext, Inv;
  }

  // ----- a sleep that is due is finished, whatever the other threads do -----

  predicate ExpirerStep(st: Step) {
    st.Look? || st.Take? || st.ExpCancel? || st.ExpFinish? || st.BatchDone? || st.Wake?
  }

  /** If the step reads the clock, that has passed the given time. */
  predicate Late(st: Step, time: nat) {
    (st.Look? || st.Wake?) ==> st.now > time
  }

  predicate AllLate(steps: seq<Step>, time: nat) {
    forall i :: 0 <= i < |steps| ==> Late(steps[i], time)
  }

  /** The turns of the expire thread in a run of all threads. */
  function Turns(steps: seq<Step>): nat {
    if steps == [] then 0 else (if ExpirerStep(steps[0]) then 1 else 0) + Turns(steps[1..])
  }

  /** A sleep that the expire thread is to end, or is about to. */
  predicate Pursued(s: State, a: nat) {
    && a < |s.aios| && a < |s.expire|
    && (s.aios[a].op == Scheduled || s.aios[a].op == Held(Expirer))
  }

  /** How many steps the expire thread still needs for the cancel function in hand. */
  function CallLeft(e: ExpPc): nat {
    if e.Calling? then if e.pc.Took? then 2 else 1 else 0
  }

  /** How far the expire thread is from its next scan, once the batch is empty. */
  function Phase(e: ExpPc): nat {
    match e
    case Top => 0
    case Waiting(_) => 1
    case _ => 2
  }

  /** How many turns the expire thread needs at most before a is over: for what comes before a in the
      batch, or else for the batch and for what stands before a on the list.  Nothing that is
      scheduled later counts. */
  function Ahead(s: State, a: nat): nat
    requires a < |s.aios|
  {
    var rest := BatchLeft(s.exp);
    if s.aios[a].op == Held(Expirer) then CallLeft(s.exp)
    else if a in rest then 3 * Position(rest, a) + 3 + CallLeft(s.exp)
    else 3 * |rest| + CallLeft(s.exp) + Phase(s.exp) + 4 * (Position(s.list, a) + 1)
  }

  /** The operation has been finished. */
  predicate Over(s: State, t: State, a: nat) {
    a < |s.aios| && a < |t.aios| && t.aios[a].Finishes() > s.aios[a].Finishes()
  }

  /** The outcomes of an aio once its operation has been ended like this. */
  function With(x: Aio, who: Ender, rv: int): seq<Outcome> {
    x.outcomes + [Outcome(who, rv, x.asked)]
  }

  /** The operation that was under way in s has been ended like this. */
  predicate EndedWith(s: State, t: State, a: nat, who: Ender, rv: int) {
    a < |s.aios| && a < |t.aios| && With(s.aios[a], who, rv) <= t.aios[a].outcomes
  }

  /** The expire thread has ended it, with the code that it owes. */
  predicate Ended(s: State, t: State, a: nat) {
    && a < |s.aios| && a < |t.aios| && t.aios[a].op == Rest
    && t.aios[a].outcomes == With(s.aios[a], ByExpirer, DueCode(s.aios[a].asked))
  }

  /** A caller of abort, stop or close has taken the cancel function. */
  predicate TakenByCaller(t: State, a: nat) {
    a < |t.aios| && t.aios[a].op.Held? && t.aios[a].op.holder.Caller?
  }

  /** The pursuit goes on where it was, or closer to its end. */
  predicate GoesOn(s: State, t: State, a: nat) {
    && Pursued(s, a) && Pursued(t, a) && t.expire[a] == s.expire[a]
    && t.aios[a].outcomes == s.aios[a].outcomes && t.aios[a].asked == s.aios[a].asked
  }

  lemma SetupDelaysNot(s: State, st: Step, a: nat)
    requires Inv(s) && Pursued(s, a) && Enabled(s, st) && (st.Begin? || st.SetSleep? || st.SetExpire?)
    ensures var t := UserNext(s, st); GoesOn(s, t, a) && Ahead(t, a) <= Ahead(s, a)
  {
    hide ResultOk, DueCode, DueTime, FullTime;
    assert Expiring(s, a);
  }

  lemma UserDelaysNot(s: State, st: Step, a: nat)
    requires Inv(s) && Pursued(s, a) && Enabled(s, st) && (st.Schedule? || st.FailFinish?)
    ensures var t := UserNext(s, st); GoesOn(s, t, a) && Ahead(t, a) <= Ahead(s, a)
  {
    hide ResultOk, DueCode, DueTime, FullTime;
    assert Expiring(s, a);
    if st.Schedule? {
      PositionAppends(s.list, st.a, a);
    } else {
      PositionWithout(s.list, st.a, a);
    }
  }

  /** The code that caller p has passed. */
  function CallCode(s: State, p: nat): int {
    if p < |s.calls| && s.calls[p] != Free then s.calls[p].rv else 0
  }

  /** With this step, caller p passes the code rv to an aio: any code to abort, and the one that stands
      for the other two. */
  predicate Calls(st: Step, p: nat, a: nat, rv: int) {
    || st == Abort(p, a, rv)
    || (st == Stop(p, a, false) && rv == NNG_ECANCELED)
    || (st == Stop(p, a, true) && rv == NNG_ECLOSED)
  }

  /** With this step, a caller takes the cancel function of a. */
  predicate TakenIn(s: State, st: Step, t: State, a: nat) {
    && TakenByCaller(t, a) && a < |s.aios|
    && Calls(st, t.aios[a].op.holder.p, a, CallCode(t, t.aios[a].op.holder.p))
    && t.aios[a].outcomes == s.aios[a].outcomes && t.aios[a].asked == s.aios[a].asked
  }

  lemma AbortTakes(s: State, st: Step, a: nat)
    requires Inv(s) && Pursued(s, a) && Enabled(s, st) && (st.Abort? || st.Stop?) && st.a == a && s.aios[a].op == Scheduled
    ensures TakenIn(s, st, CallNext(s, st), a)
  {
    hide ResultOk, DueCode, DueTime, FullTime;
    assert AioOk(s.aios[a]);
  }

  lemma AbortMarks(s: State, st: Step, a: nat)
    requires Inv(s) && Pursued(s, a) && Enabled(s, st) && (st.Abort? || st.Stop?) && st.a == a && s.aios[a].op != Scheduled
    ensures var t := CallNext(s, st); GoesOn(s, t, a) && Ahead(t, a) <= Ahead(s, a)
  {
    hide ResultOk, DueCode, DueTime, FullTime;
    assert AioOk(s.aios[a]);
  }

  /** Unlinking another aio. */
  lemma UnlinkDelaysNot(s: State, t: State, b: nat, a: nat)
    requires Pursued(s, a) && a < |t.aios| && a < |t.expire| && b != a
    requires t.aios[a] == s.aios[a] && t.expire[a] == s.expire[a] && t.exp == s.exp && t.list == Without(s.list, b)
    ensures GoesOn(s, t, a) && Ahead(t, a) <= Ahead(s, a)
  {
    PositionWithout(s.list, b, a);
  }

  lemma AbortPasses(s: State, st: Step, a: nat)
    requires Inv(s) && Pursued(s, a) && Enabled(s, st) && (st.Abort? || st.Stop?) && st.a != a
    ensures var t := CallNext(s, st); GoesOn(s, t, a) && Ahead(t, a) <= Ahead(s, a)
  {
    InvLengths(s);
    hide Inv, Ahead, Without, GoesOn;
    UnlinkDelaysNot(s, CallNext(s, st), st.a, a);
  }

  lemma AbortDelaysNot(s: State, st: Step, a: nat)
    requires Inv(s) && Pursued(s, a) && Enabled(s, st) && (st.Abort? || st.Stop?)
    ensures var t := CallNext(s, st);
      TakenIn(s, st, t, a) || (GoesOn(s, t, a) && Ahead(t, a) <= Ahead(s, a))
  {
    hide CallNext, Inv, Enabled, TakenIn, GoesOn, Ahead;
    if st.a != a {
      AbortPasses(s, st, a);
    } else if s.aios[a].op == Scheduled {
      AbortTakes(s, st, a);
    } else {
      AbortMarks(s, st, a);
    }
  }

  lemma CancelDelaysNot(s: State, st: Step, a: nat)
    requires Inv(s) && Pursued(s, a) && Enabled(s, st) && (st.Cancel? || st.Finish?)
    ensures var t := CallNext(s, st); GoesOn(s, t, a) && Ahead(t, a) <= Ahead(s, a)
  {
    assert Expiring(s, a) && CallOk(s, s.calls[st.p], Caller(st.p));
    PositionWithout(s.list, s.calls[st.p].a, a);
  }

  /** No step of another thread delays the expire thread on its way to a, or takes a away from it,
      unless a caller takes a. */
  lemma OthersDelayNot(s: State, st: Step, a: nat)
    requires Inv(s) && Pursued(s, a) && Enabled(s, st) && !ExpirerStep(st)
    ensures var t := Next(s, st); TakenIn(s, st, t, a) || (GoesOn(s, t, a) && Ahead(t, a) <= Ahead(s, a))
  {
    hide UserNext, CallNext, ExpireNext, Ahead, Pursued, GoesOn, Inv, Enabled;
    if st.Begin? || st.SetSleep? || st.SetExpire? {
      SetupDelaysNot(s, st, a);
    } else if st.Schedule? || st.FailFinish? {
      UserDelaysNot(s, st, a);
    } else if st.Abort? || st.Stop? {
      AbortDelaysNot(s, st, a);
    } else {
      CancelDelaysNot(s, st, a);
    }
  }

  lemma LookCloser(s: State, now: nat, a: nat)
    requires Inv(s) && Pursued(s, a) && Enabled(s, Look(now)) && now > s.expire[a]
    ensures var t := ExpireNext(s, Look(now)); GoesOn(s, t, a) && Ahead(t, a) < Ahead(s, a)
  {
    hide Split;
    assert HolderOk(s, a) && Expiring(s, a);
    assert a in s.list;
    SplitMembers(s.list, s.expire, now, NNI_EXPIRE_BATCH);
    PositionSplit(s.list, s.expire, now, NNI_EXPIRE_BATCH, a);
  }

  lemma TakeCloser(s: State, a: nat)
    requires Inv(s) && Pursued(s, a) && Enabled(s, Take)
    ensures var t := ExpireNext(s, Take); GoesOn(s, t, a) && Ahead(t, a) < Ahead(s, a)
  {
    assert AioOk(s.aios[a]) && HolderOk(s, a) && Expiring(s, a);
  }

  lemma CallCloser(s: State, st: Step, a: nat)
    requires Inv(s) && Pursued(s, a) && Enabled(s, st) && (st.ExpCancel? || st.ExpFinish?)
    ensures var t := ExpireNext(s, st);
      if st.ExpFinish? && s.exp.pc.a == a
      then Ended(s, t, a)
      else GoesOn(s, t, a) && Ahead(t, a) < Ahead(s, a)
  {
    assert AioOk(s.aios[a]) && HolderOk(s, a) && Expiring(s, a);
    PositionWithout(s.list, s.exp.pc.a, a);
  }

  lemma PauseCloser(s: State, st: Step, a: nat)
    requires Inv(s) && Pursued(s, a) && Enabled(s, st) && (st.BatchDone? || st.Wake?)
    ensures var t := ExpireNext(s, st); GoesOn(s, t, a) && Ahead(t, a) < Ahead(s, a)
  {
    assert AioOk(s.aios[a]) && HolderOk(s, a) && Expiring(s, a);
  }

  /** Every late turn of the expire thread brings it closer to a, or finishes a: with code 0 if the sleep
      had its full time, and with NNG_ETIMEDOUT if the aio's timeout was shorter. */
  lemma ExpirerCloser(s: State, st: Step, a: nat)
    requires Inv(s) && Pursued(s, a) && Enabled(s, st) && ExpirerStep(st) && Late(st, s.expire[a])
    ensures var t := Next(s, st);
      || Ended(s, t, a)
      || (GoesOn(s, t, a) && Ahead(t, a) < Ahead(s, a))
  {
    hide UserNext, CallNext, ExpireNext, Inv, Ahead, GoesOn, Enabled;
    InvLengths(s);
    match st {
      case Look(now) => LookCloser(s, now, a);
      case Take => TakeCloser(s, a);
      case ExpCancel => CallCloser(s, st, a);
      case ExpFinish => CallCloser(s, st, a);
      case BatchDone => PauseCloser(s, st, a);
      case Wake(_) => PauseCloser(s, st, a);
    }
  }

  /** What the holder of a cancel function still has to do. */
  predicate StillHeld(s: State, t: State, a: nat, p: nat, turn: bool)
    requires a < |s.aios|
  {
    && a < |t.aios| && t.aios[a].op == Held(Caller(p))
    && t.aios[a].outcomes == s.aios[a].outcomes && t.aios[a].asked == s.aios[a].asked
    && CallCode(t, p) == CallCode(s, p)
    && Distance(t.aios[a]) + (if turn then 1 else 0) <= Distance(s.aios[a])
  }

  lemma UserLeavesHeld(s: State, st: Step, a: nat, p: nat)
    requires |s.expire| == |s.aios| && Enabled(s, st) && a < |s.aios| && s.aios[a].op == Held(Caller(p))
    requires st.Begin? || st.SetSleep? || st.SetExpire? || st.Schedule? || st.FailFinish?
    ensures StillHeld(s, UserNext(s, st), a, p, false)
  {
  }

  lemma MarkingLeavesHeld(s: State, st: Step, a: nat, p: nat)
    requires Inv(s) && Enabled(s, st) && a < |s.aios| && s.aios[a].op == Held(Caller(p)) && (st.Abort? || st.Stop?)
    ensures StillHeld(s, CallNext(s, st), a, p, false)
  {
    assert AioOk(s.aios[a]) && HolderOk(s, a);
  }

  lemma CallLeavesHeld(s: State, st: Step, a: nat, p: nat)
    requires Inv(s) && Enabled(s, st) && a < |s.aios| && s.aios[a].op == Held(Caller(p)) && (st.Cancel? || st.Finish?)
    ensures var t := CallNext(s, st);
      EndedWith(s, t, a, ByCaller(p), CallCode(s, p)) || StillHeld(s, t, a, p, st == Cancel(p) || st == Finish(p))
  {
    hide ResultOk, DueCode, DueTime, FullTime;
    assert AioOk(s.aios[a]) && HolderOk(s, a);
    assert CallOk(s, s.calls[st.p], Caller(st.p));
  }

  lemma ExpireLeavesHeld(s: State, st: Step, a: nat, p: nat)
    requires Inv(s) && Enabled(s, st) && a < |s.aios| && s.aios[a].op == Held(Caller(p)) && ExpirerStep(st)
    ensures StillHeld(s, ExpireNext(s, st), a, p, false)
  {
    assert AioOk(s.aios[a]);
  }

  lemma CallerCloser(s: State, st: Step, a: nat, p: nat)
    requires Inv(s) && Enabled(s, st) && a < |s.aios| && s.aios[a].op == Held(Caller(p))
    ensures var t := Next(s, st);
      EndedWith(s, t, a, ByCaller(p), CallCode(s, p)) || StillHeld(s, t, a, p, st == Cancel(p) || st == Finish(p))
  {
    hide UserNext, CallNext, ExpireNext, Inv, Enabled, StillHeld;
    InvLengths(s);
    if st.Begin? || st.SetSleep? || st.SetExpire? || st.Schedule? || st.FailFinish? {
      UserLeavesHeld(s, st, a, p);
    } else if ExpirerStep(st) {
      ExpireLeavesHeld(s, st, a, p);
    } else if st.Abort? || st.Stop? {
      MarkingLeavesHeld(s, st, a, p);
    } else {
      CallLeavesHeld(s, st, a, p);
    }
  }

  /** What a caller has taken stays with it until that finishes it. */
  lemma TakenStays(s: State, st: Step, a: nat)
    requires Inv(s) && Enabled(s, st) && TakenByCaller(s, a)
    ensures var t := Next(s, st);
      Over(s, t, a) || (TakenByCaller(t, a) && t.aios[a].op == s.aios[a].op && t.aios[a].Finishes() == s.aios[a].Finishes())
  {
    hide Next, Inv, Enabled;
    InvLengths(s);
    CallerCloser(s, st, a, s.aios[a].op.holder.p);
  }

  /** Nothing is removed, no outcome is taken back, and a stopped aio stays stopped and begins nothing. */
  predicate Grown(s: State, t: State, a: nat) {
    && a < |s.aios| == |t.aios| && |t.expire| == |s.expire|
    && s.aios[a].outcomes <= t.aios[a].outcomes
    && (s.aios[a].stop ==> t.aios[a].stop && t.aios[a].begun == s.aios[a].begun)
  }

  lemma UserGrows(s: State, st: Step, a: nat)
    requires |s.expire| == |s.aios| && Enabled(s, st) && a < |s.aios|
    ensures Grown(s, UserNext(s, st), a)
  {
  }

  lemma CallGrows(s: State, st: Step, a: nat)
    requires |s.expire| == |s.aios| && Enabled(s, st) && a < |s.aios|
    ensures Grown(s, CallNext(s, st), a)
  {
  }

  lemma ExpireGrows(s: State, st: Step, a: nat)
    requires |s.expire| == |s.aios| && Enabled(s, st) && a < |s.aios|
    ensures Grown(s, ExpireNext(s, st), a)
  {
  }

  lemma OutcomesGrow(s: State, st: Step, a: nat)
    requires |s.expire| == |s.aios| && Enabled(s, st) && a < |s.aios|
    ensures Grown(s, Next(s, st), a)
  {
    hide UserNext, CallNext, ExpireNext, Enabled, Grown;
    UserGrows(s, st, a);
    CallGrows(s, st, a);
    ExpireGrows(s, st, a);
  }

  lemma {:induction false} OutcomesStay(s: State, steps: seq<Step>, t: State, a: nat)
    requires |s.expire| == |s.aios| && a < |s.aios| && Leads(s, steps, t)
    ensures a < |t.aios| && s.aios[a].outcomes <= t.aios[a].outcomes
    decreases |steps|
  {
    hide Next, Enabled;
    if steps != [] {
      OutcomesGrow(s, steps[0], a);
      OutcomesStay(Next(s, steps[0]), steps[1..], t, a);
    }
  }

  lemma {:induction false} TakenStaysOrEnds(s: State, steps: seq<Step>, t: State, a: nat)
    requires Inv(s) && TakenByCaller(s, a) && Leads(s, steps, t)
    ensures Over(s, t, a) || (TakenByCaller(t, a) && t.aios[a].op == s.aios[a].op)
    decreases |steps|
  {
    hide Next, Enabled, Inv;
    if steps != [] {
      var u := Next(s, steps[0]);
      InvLengths(s);
      TakenStays(s, steps[0], a);
      StepInv(s, steps[0]);
      InvLengths(u);
      if Over(s, u, a) {
        OutcomesStay(u, steps[1..], t, a);
      } else {
        TakenStaysOrEnds(u, steps[1..], t, a);
      }
    }
  }

  /** One step of anybody. */
  lemma StepPursues(s: State, st: Step, a: nat)
    requires Inv(s) && Pursued(s, a) && Enabled(s, st) && Late(st, s.expire[a])
    ensures var t := Next(s, st);
      || Over(s, t, a)
      || TakenByCaller(t, a)
      || (GoesOn(s, t, a) && Ahead(t, a) + (if ExpirerStep(st) then 1 else 0) <= Ahead(s, a))
  {
    hide Next, Enabled, Inv, Ahead, GoesOn;
    if ExpirerStep(st) {
      ExpirerCloser(s, st, a);
    } else {
      OthersDelayNot(s, st, a);
    }
  }

  /** In any run of all threads after the expiration of a pursued sleep: it has been finished, or a
      caller has taken it, or the expire thread is still after it and every turn it has had since
      counts. */
  lemma {:induction false} PursuitGoesOn(s: State, steps: seq<Step>, t: State, a: nat)
    requires Inv(s) && Pursued(s, a) && Leads(s, steps, t) && AllLate(steps, s.expire[a])
    ensures Inv(t)
    ensures Over(s, t, a) || TakenByCaller(t, a) || (GoesOn(s, t, a) && Ahead(t, a) + Turns(steps) <= Ahead(s, a))
    decreases |steps|
  {
    hide Next, Enabled, Inv, Ahead;
    if steps != [] {
      var u := Next(s, steps[0]);
      assert Late(steps[0], s.expire[a]);
      InvLengths(s);
      StepPursues(s, steps[0], a);
      StepInv(s, steps[0]);
      InvLengths(u);
      assert forall i :: 0 <= i < |steps[1..]| ==> steps[1..][i] == steps[i + 1];
      LeadsInv(u, steps[1..], t);
      OutcomesGrow(s, steps[0], a);
      OutcomesStay(u, steps[1..], t, a);
      if Over(s, u, a) {
      } else if TakenByCaller(u, a) {
        TakenStaysOrEnds(u, steps[1..], t, a);
      } else {
        PursuitGoesOn(u, steps[1..], t, a);
      }
    }
  }

  // ----- the code with which it ends -----

  /** Caller p has passed the code rv to a in one of the steps. */
  ghost predicate Called(steps: seq<Step>, p: nat, a: nat, rv: int) {
    exists i :: 0 <= i < |steps| && Calls(steps[i], p, a, rv)
  }

  /** The operation that was under way in s has been ended by the expire thread, with 0 or NNG_ETIMEDOUT
      as the sleep was set up, or by a caller, with the code that it passed. */
  ghost predicate EndedRight(s: State, steps: seq<Step>, t: State, a: nat) {
    || EndedWith(s, t, a, ByExpirer, DueCode(if a < |s.aios| then s.aios[a].asked else NOTHING))
    || exists p, rv :: EndedWith(s, t, a, ByCaller(p), rv) && Called(steps, p, a, rv)
  }

  /** It has not been ended, and whoever holds it has passed its code before. */
  ghost predicate Undecided(s: State, steps: seq<Step>, t: State, a: nat) {
    && a < |s.aios| && a < |t.aios| && a < |t.expire|
    && t.aios[a].outcomes == s.aios[a].outcomes && t.aios[a].asked == s.aios[a].asked
    && (Pursued(t, a) || (TakenByCaller(t, a) && Called(steps, t.aios[a].op.holder.p, a, CallCode(t, t.aios[a].op.holder.p))))
  }

  /** A step of the expire thread, late or not. */
  lemma ExpirerPursues(s: State, st: Step, a: nat)
    requires Inv(s) && Pursued(s, a) && Enabled(s, st) && ExpirerStep(st)
    ensures var t := Next(s, st); Ended(s, t, a) || GoesOn(s, t, a)
  {
    hide UserNext, CallNext, Inv, Ahead, Enabled;
    InvLengths(s);
    match st {
      case Look(now) =>
      case Take => TakeCloser(s, a);
      case ExpCancel => CallCloser(s, st, a);
      case ExpFinish => CallCloser(s, st, a);
      case BatchDone => PauseCloser(s, st, a);
      case Wake(_) => PauseCloser(s, st, a);
    }
  }

  /** One step of anybody ends the operation in the right way, or leaves it undecided. */
  lemma StepDecides(s: State, pre: seq<Step>, u: State, st: Step, a: nat)
    requires Inv(u) && Undecided(s, pre, u, a) && Enabled(u, st)
    ensures var t := Next(u, st); EndedRight(s, pre + [st], t, a) || Undecided(s, pre + [st], t, a)
  {
    hide Next, Inv, Enabled, Calls, Ahead;
    InvLengths(u);
    var t := Next(u, st);
    OutcomesGrow(u, st, a);
    assert (pre + [st])[|pre|] == st && forall i :: 0 <= i < |pre| ==> (pre + [st])[i] == pre[i];
    if TakenByCaller(u, a) {
      var p := u.aios[a].op.holder.p;
      CallerCloser(u, st, a, p);
      assert Called(pre + [st], p, a, CallCode(u, p));
    } else if ExpirerStep(st) {
      ExpirerPursues(u, st, a);
    } else {
      OthersDelayNot(u, st, a);
    }
  }

  /** In any run, a sleep that the expire thread is to end gets the right code. */
  lemma {:induction false} FirstOutcome(s: State, pre: seq<Step>, u: State, steps: seq<Step>, t: State, a: nat)
    requires Inv(u) && Leads(u, steps, t)
    requires EndedRight(s, pre, u, a) || Undecided(s, pre, u, a)
    ensures EndedRight(s, pre + steps, t, a) || Undecided(s, pre + steps, t, a)
    decreases |steps|
  {
    hide Next, Inv, Enabled, EndedRight, Undecided;
    if steps == [] {
      assert pre + steps == pre;
    } else {
      var st, v := steps[0], Next(u, steps[0]);
      InvLengths(u);
      if EndedRight(s, pre, u, a) {
        RightStays(s, pre, u, st, a);
      } else {
        StepDecides(s, pre, u, st, a);
      }
      StepInv(u, st);
      FirstOutcome(s, pre + [st], v, steps[1..], t, a);
      assert pre + [st] + steps[1..] == pre + steps;
    }
  }

  lemma RightStays(s: State, pre: seq<Step>, u: State, st: Step, a: nat)
    requires Inv(u) && EndedRight(s, pre, u, a) && Enabled(u, st)
    ensures EndedRight(s, pre + [st], Next(u, st), a)
  {
    hide Next, Inv, Enabled, Calls;
    InvLengths(u);
    OutcomesGrow(u, st, a);
    assert forall i :: 0 <= i < |pre| ==> (pre + [st])[i] == pre[i];
    if p, rv :| EndedWith(s, u, a, ByCaller(p), rv) && Called(pre, p, a, rv) {
      assert EndedWith(s, Next(u, st), a, ByCaller(p), rv) && Called(pre + [st], p, a, rv);
    }
  }

  /** At any such time the expire thread can take a turn: it does not sleep past the expiration. */
  lemma ExpirerIsAwake(s: State, a: nat, now: nat) returns (st: Step)
    requires Inv(s) && Pursued(s, a) && now > s.expire[a]
    ensures Enabled(s, st) && ExpirerStep(st) && Late(st, s.expire[a])
    ensures (st.Look? || st.Wake?) ==> st.now == now
  {
    assert HolderOk(s, a) && Expiring(s, a);
    assert forall i :: 0 <= i < |s.list| ==> s.list[i] in s.list;
    match s.exp {
      case Top => st := Look(now);
      case Waiting(_) => st := Wake(now);
      case Batch(rest, _) => st := if rest == [] then BatchDone else Take;
      case Calling(pc, _, _) => st := if pc.Took? then ExpCancel else ExpFinish;
    }
    assert s.exp.Batch? && s.exp.rest != [] ==> s.exp.rest[0] in BatchLeft(s.exp);
  }

  /** A scheduled sleep whose expiration has passed is finished or taken by a caller as soon as the
      expire thread has had more than Ahead turns, however all other threads begin, schedule, abort,
      stop, close and finish in between, also for a itself; until then it is pursued, so that by
      ExpirerIsAwake the expire thread can take a turn.  It ends with the code 0, or NNG_ETIMEDOUT if
      the aio's timeout was shorter than the sleep, or with the code of a caller who took it. */
  lemma DueSleepIsFinished(s: State, steps: seq<Step>, t: State, a: nat)
    requires Inv(s) && a < |s.aios| && a < |s.expire| && s.aios[a].op == Scheduled
    requires Leads(s, steps, t) && AllLate(steps, s.expire[a])
    ensures Turns(steps) > Ahead(s, a) ==> Over(s, t, a) || TakenByCaller(t, a)
    ensures !Over(s, t, a) && !TakenByCaller(t, a) ==> Inv(t) && Pursued(t, a) && t.expire[a] == s.expire[a]
    ensures Over(s, t, a) ==> EndedRight(s, steps, t, a)
  {
    hide Next, Enabled, Ahead, EndedRight;
    assert Expiring(s, a);
    hide Inv;
    PursuitGoesOn(s, steps, t, a);
    FirstOutcome(s, [], s, steps, t, a);
    assert [] + steps == steps;
  }

  /** The turns of caller p. */
  function CallerTurns(steps: seq<Step>, p: nat): nat {
    if steps == [] then 0
    else (if steps[0] == Cancel(p) || steps[0] == Finish(p) then 1 else 0) + CallerTurns(steps[1..], p)
  }

  /** And what a caller has taken is finished by that caller's next two turns, whatever the others do,
      and with the code that the caller has passed. */
  lemma TakenIsFinished(s: State, steps: seq<Step>, t: State, a: nat, p: nat)
    requires Inv(s) && a < |s.aios| && s.aios[a].op == Held(Caller(p)) && Leads(s, steps, t)
    ensures |t.aios| > a
    ensures EndedWith(s, t, a, ByCaller(p), CallCode(s, p))
         || (t.aios[a].op == Held(Caller(p)) && CallerTurns(steps, p) + Distance(t.aios[a]) <= 3)
    ensures CallerTurns(steps, p) >= 2 ==> EndedWith(s, t, a, ByCaller(p), CallCode(s, p))
  {
    CallerRun(s, steps, t, a, p);
  }

  lemma {:induction false} CallerRun(s: State, steps: seq<Step>, t: State, a: nat, p: nat)
    requires Inv(s) && a < |s.aios| && s.aios[a].op == Held(Caller(p)) && Leads(s, steps, t)
    ensures |t.aios| > a
    ensures EndedWith(s, t, a, ByCaller(p), CallCode(s, p)) ||
      (t.aios[a].op == Held(Caller(p)) && CallerTurns(steps, p) + Distance(t.aios[a]) <= Distance(s.aios[a]))
    decreases |steps|
  {
    hide Next, Enabled, Inv, CallCode;
    if steps != [] {
      var u := Next(s, steps[0]);
      InvLengths(s);
      CallerCloser(s, steps[0], a, p);
      StepInv(s, steps[0]);
      InvLengths(u);
      if EndedWith(s, u, a, ByCaller(p), CallCode(s, p)) {
        OutcomesStay(u, steps[1..], t, a);
      } else {
        CallerRun(u, steps[1..], t, a, p);
      }
    }
  }

  lemma CallerTakes(s: State, st: Step, a: nat, p: nat, rv: int)
    requires Inv(s) && a < |s.aios| && s.aios[a].op == Scheduled && Enabled(s, st) && Calls(st, p, a, rv)
    ensures var u := CallNext(s, st);
      && a < |u.aios| && u.aios[a].op == Held(Caller(p)) && CallCode(u, p) == rv
      && u.aios[a].outcomes == s.aios[a].outcomes && u.aios[a].asked == s.aios[a].asked
  {
    assert AioOk(s.aios[a]);
  }

  /** Who aborts, stops or closes a scheduled sleep ends it, by two more turns and with the code of that
      call, whatever the others do. */
  lemma CallerDecides(s: State, st: Step, steps: seq<Step>, t: State, a: nat, p: nat, rv: int)
    requires Inv(s) && a < |s.aios| && s.aios[a].op == Scheduled && Enabled(s, st) && Calls(st, p, a, rv)
    requires |s.expire| == |s.aios| && Leads(Next(s, st), steps, t) && CallerTurns(steps, p) >= 2
    ensures EndedWith(s, t, a, ByCaller(p), rv)
  {
    hide Inv, Leads, CallNext, Enabled;
    StepInv(s, st);
    CallerTakes(s, st, a, p, rv);
    TakenIsFinished(Next(s, st), steps, t, a, p);
  }

  /** So every scheduled sleep can be finished by the expire thread alone, with the code that it owes, from
      every reachable state, as soon as the clock has passed its expiration. */
  lemma {:induction false} DueSleepEnds(s: State, a: nat, now: nat) returns (steps: seq<Step>, t: State)
    requires Inv(s) && Pursued(s, a) && now > s.expire[a]
    ensures Leads(s, steps, t) && AllLate(steps, s.expire[a]) && Turns(steps) == |steps|
    ensures Ended(s, t, a)
    decreases Ahead(s, a)
  {
    hide Next, Enabled, Inv, Ahead;
    var st := ExpirerIsAwake(s, a, now);
    InvLengths(s);
    ExpirerCloser(s, st, a);
    StepInv(s, st);
    var u := Next(s, st);
    if Over(s, u, a) {
      steps, t := [st], u;
      assert Leads(u, [], u);
    } else {
      var rest;
      rest, t := DueSleepEnds(u, a, now);
      steps := [st] + rest;
    }
  }

  // ----- the codes of a whole run -----

  ghost predicate Aborted(steps: seq<Step>, a: nat, rv: int) {
    exists i :: 0 <= i < |steps| && steps[i].Abort? && steps[i].a == a && steps[i].rv == rv
  }

  ghost predicate StopCalled(steps: seq<Step>, a: nat) {
    exists i :: 0 <= i < |steps| && steps[i].Stop? && steps[i].a == a
  }

  /** A code with which nni_aio_schedule can fail. */
  ghost predicate Refused(steps: seq<Step>, a: nat, rv: int) {
    (rv == NNG_ECLOSED && StopCalled(steps, a)) || (rv != 0 && Aborted(steps, a, rv))
  }

  /** The code of an operation of a that has been ended. */
  ghost predicate CodeOk(steps: seq<Step>, a: nat, o: Outcome) {
    match o.who
    case ByExpirer => o.rv == DueCode(o.asked)
    case ByCaller(p) => Called(steps, p, a, o.rv)
    case ByUser => Refused(steps, a, o.rv)
  }

  /** Where the codes in and around an aio come from. */
  ghost predicate Known(steps: seq<Step>, a: nat, x: Aio) {
    && (x.stop ==> StopCalled(steps, a))
    && (x.abort && (x.op == Begun || x.op == Asleep || x.op == Timed) ==> Aborted(steps, a, x.result))
    && (x.op.Failing? ==> Refused(steps, a, x.op.rv))
    && forall k :: 0 <= k < |x.outcomes| ==> CodeOk(steps, a, x.outcomes[k])
  }

  ghost predicate CallKnown(steps: seq<Step>, p: nat, pc: CallPc) {
    pc != Free ==> Called(steps, p, pc.a, pc.rv)
  }

  ghost predicate AllKnown(steps: seq<Step>, s: State) {
    && (forall a :: 0 <= a < |s.aios| ==> Known(steps, a, s.aios[a]))
    && (forall p :: 0 <= p < |s.calls| ==> CallKnown(steps, p, s.calls[p]))
  }

  lemma StillCalled(pre: seq<Step>, st: Step, p: nat, a: nat, rv: int)
    ensures Called(pre, p, a, rv) || Calls(st, p, a, rv) ==> Called(pre + [st], p, a, rv)
  {
    assert (pre + [st])[|pre|] == st && forall i :: 0 <= i < |pre| ==> (pre + [st])[i] == pre[i];
  }

  lemma StillRefused(pre: seq<Step>, st: Step, a: nat, rv: int)
    ensures StopCalled(pre, a) || (st.Stop? && st.a == a) ==> StopCalled(pre + [st], a)
    ensures Aborted(pre, a, rv) || (st.Abort? && st.a == a && st.rv == rv) ==> Aborted(pre + [st], a, rv)
  {
    assert (pre + [st])[|pre|] == st && forall i :: 0 <= i < |pre| ==> (pre + [st])[i] == pre[i];
  }

  lemma StillOk(pre: seq<Step>, st: Step, a: nat, o: Outcome)
    requires CodeOk(pre, a, o)
    ensures CodeOk(pre + [st], a, o)
  {
    hide Called, Aborted, StopCalled;
    StillRefused(pre, st, a, o.rv);
    if o.who.ByCaller? {
      StillCalled(pre, st, o.who.p, a, o.rv);
    }
  }

  /** What the next step makes of an aio that it does not end. */
  lemma StillKnown(pre: seq<Step>, st: Step, a: nat, x: Aio)
    requires Known(pre, a, x)
    ensures Known(pre + [st], a, x)
  {
    hide Called, Aborted, StopCalled, CodeOk;
    StillRefused(pre, st, a, x.result);
    if x.op.Failing? {
      StillRefused(pre, st, a, x.op.rv);
    }
    forall k | 0 <= k < |x.outcomes| ensures CodeOk(pre + [st], a, x.outcomes[k]) {
      StillOk(pre, st, a, x.outcomes[k]);
    }
  }

  lemma UserKnown(pre: seq<Step>, s: State, st: Step, a: nat)
    requires Inv(s) && Enabled(s, st) && AllKnown(pre, s) && a < |s.aios|
    ensures |UserNext(s, st).aios| == |s.aios| && Known(pre + [st], a, UserNext(s, st).aios[a])
  {
    hide Called, Aborted, StopCalled;
    StillKnown(pre, st, a, s.aios[a]);
    StillRefused(pre, st, a, s.aios[a].result);
  }

  lemma CallKnows(pre: seq<Step>, s: State, st: Step, a: nat)
    requires Inv(s) && Enabled(s, st) && AllKnown(pre, s) && a < |s.aios|
    ensures |CallNext(s, st).aios| == |s.aios| && Known(pre + [st], a, CallNext(s, st).aios[a])
  {
    hide Called, Aborted, StopCalled;
    StillKnown(pre, st, a, s.aios[a]);
    if st.Abort? || st.Stop? {
      StillRefused(pre, st, a, if st.Abort? then st.rv else 0);
    } else if st.Finish? {
      assert CallKnown(pre, st.p, s.calls[st.p]) && CallOk(s, s.calls[st.p], Caller(st.p));
      StillCalled(pre, st, st.p, s.calls[st.p].a, s.calls[st.p].rv);
    }
  }

  lemma ExpireKnows(pre: seq<Step>, s: State, st: Step, a: nat)
    requires Inv(s) && Enabled(s, st) && AllKnown(pre, s) && a < |s.aios|
    ensures |ExpireNext(s, st).aios| == |s.aios| && Known(pre + [st], a, ExpireNext(s, st).aios[a])
  {
    hide Called, Aborted, StopCalled;
    StillKnown(pre, st, a, s.aios[a]);
  }

  lemma CallsKnown(pre: seq<Step>, s: State, st: Step, p: nat)
    requires Inv(s) && Enabled(s, st) && AllKnown(pre, s) && p < |s.calls|
    ensures |CallNext(s, st).calls| == |s.calls| && CallKnown(pre + [st], p, CallNext(s, st).calls[p])
  {
    hide Called;
    var pc := CallNext(s, st).calls[p];
    assert CallKnown(pre, p, s.calls[p]);
    if pc != Free {
      StillCalled(pre, st, p, pc.a, pc.rv);
    }
  }

  lemma StepKnown(pre: seq<Step>, s: State, st: Step)
    requires Inv(s) && Enabled(s, st) && AllKnown(pre, s)
    ensures AllKnown(pre + [st], Next(s, st))
  {
    InvLengths(s);
    var t := Next(s, st);
    assert t.calls == s.calls || t == CallNext(s, st);
    hide UserNext, CallNext, ExpireNext, Inv, Enabled, Known, CallKnown;
    forall a | 0 <= a < |t.aios| ensures Known(pre + [st], a, t.aios[a]) {
      SameAios(s, st);
      UserKnown(pre, s, st, a);
      CallKnows(pre, s, st, a);
      ExpireKnows(pre, s, st, a);
    }
    forall p | 0 <= p < |t.calls| ensures CallKnown(pre + [st], p, t.calls[p]) {
      if t.calls == s.calls {
        CallStays(pre, st, p, s.calls[p]);
      } else {
        CallLengths(s, st);
        CallsKnown(pre, s, st, p);
      }
    }
  }

  lemma CallLengths(s: State, st: Step)
    requires |s.expire| == |s.aios| && Enabled(s, st)
    ensures |CallNext(s, st).calls| == |s.calls|
  {
  }

  lemma CallStays(pre: seq<Step>, st: Step, p: nat, pc: CallPc)
    requires CallKnown(pre, p, pc)
    ensures CallKnown(pre + [st], p, pc)
  {
    if pc != Free {
      StillCalled(pre, st, p, pc.a, pc.rv);
    }
  }

  lemma {:induction false} LeadsKnown(pre: seq<Step>, s: State, steps: seq<Step>, t: State)
    requires Inv(s) && AllKnown(pre, s) && Leads(s, steps, t)
    ensures AllKnown(pre + steps, t)
    decreases |steps|
  {
    hide Inv, Next, Enabled, AllKnown;
    if steps == [] {
      assert pre + steps == pre;
    } else {
      InvLengths(s);
      StepInv(s, steps[0]);
      StepKnown(pre, s, steps[0]);
      LeadsKnown(pre + [steps[0]], Next(s, steps[0]), steps[1..], t);
      assert pre + [steps[0]] + steps[1..] == pre + steps;
    }
  }

  /** Every operation that has been ended in a run has the right code: 0 or NNG_ETIMEDOUT from the expire
      thread, as the sleep was set up; from a caller, the code of a call by it; and from a failed
      nni_aio_schedule, NNG_ECLOSED after a stop or the nonzero code of an abort. */
  lemma OutcomesAreRight(s: State, steps: seq<Step>, t: State, a: nat, k: nat)
    requires Init(s) && Leads(s, steps, t) && a < |t.aios| && k < |t.aios[a].outcomes|
    ensures CodeOk(steps, a, t.aios[a].outcomes[k])
  {
    InitInv(s);
    assert AllKnown([], s);
    LeadsKnown([], s, steps, t);
    assert [] + steps == steps;
    assert Known(steps, a, t.aios[a]);
  }

  // ----- a sleep that ends too early -----

  function BatchTime(e: ExpPc): nat {
    match e
    case Batch(_, now) => now
    case Calling(_, _, now) => now
    case _ => 0
  }

  /** An aio in the batch, of which n operations had begun at the scan: if no other one has begun
      since, the one that was scanned has expired, or is being finished, or is over. */
  predicate InBatchOk(x: Aio, n: nat, expire: nat, now: nat) {
    n <= x.begun && (n == x.begun ==> x.op == Rest || x.op.Held? || (x.op == Scheduled && expire < now))
  }

  predicate BatchOk(s: State) {
    && |s.scanned| == |s.aios| == |s.expire|
    && forall b :: b in BatchLeft(s.exp) ==>
        b < |s.aios| && InBatchOk(s.aios[b], s.scanned[b], s.expire[b], BatchTime(s.exp))
  }

  lemma UserKeepsBatch(s: State, st: Step, b: nat, n: nat, now: nat)
    requires |s.expire| == |s.aios| && Enabled(s, st) && b < |s.aios| && InBatchOk(s.aios[b], n, s.expire[b], now)
    ensures var t := UserNext(s, st);
      |t.aios| == |t.expire| == |s.aios| && t.scanned == s.scanned && InBatchOk(t.aios[b], n, t.expire[b], now)
  {
  }

  lemma CallKeepsBatch(s: State, st: Step, b: nat, n: nat, now: nat)
    requires Inv(s) && Enabled(s, st) && b < |s.aios| && InBatchOk(s.aios[b], n, s.expire[b], now)
    ensures var t := CallNext(s, st);
      |t.aios| == |t.expire| == |s.aios| && t.scanned == s.scanned && InBatchOk(t.aios[b], n, t.expire[b], now)
  {
    assert AioOk(s.aios[b]);
  }

  lemma ExpireKeepsBatch(s: State, st: Step, b: nat, n: nat, now: nat)
    requires Inv(s) && Enabled(s, st) && ExpirerStep(st) && !st.Look?
    requires b < |s.aios| && InBatchOk(s.aios[b], n, s.expire[b], now)
    ensures var t := ExpireNext(s, st);
      |t.aios| == |t.expire| == |s.aios| && t.scanned == s.scanned && InBatchOk(t.aios[b], n, t.expire[b], now)
  {
    assert AioOk(s.aios[b]);
  }

  lemma LookFillsBatch(s: State, now: nat)
    requires Inv(s) && BatchOk(s) && Enabled(s, Look(now))
    ensures BatchOk(ExpireNext(s, Look(now)))
  {
    hide Split;
    if now >= s.next {
      SplitMembers(s.list, s.expire, now, NNI_EXPIRE_BATCH);
      SplitMeaning(s.list, s.expire, now, NNI_EXPIRE_BATCH);
      var r := Split(s.list, s.expire, now, NNI_EXPIRE_BATCH);
      forall b | b in r.batch ensures b < |s.aios| && InBatchOk(s.aios[b], s.aios[b].begun, s.expire[b], now) {
        assert b in s.list && HolderOk(s, b);
        var i :| 0 <= i < |r.batch| && r.batch[i] == b;
        assert s.expire[r.batch[i]] < now;
      }
    }
  }

  lemma StepBatch(s: State, st: Step)
    requires Inv(s) && BatchOk(s) && Enabled(s, st)
    ensures BatchOk(Next(s, st))
  {
    var t := Next(s, st);
    if st.Look? {
      LookFillsBatch(s, st.now);
    } else {
      BatchMoves(s, st);
      hide Next, InBatchOk, Inv, Enabled;
      forall b | b in BatchLeft(t.exp) ensures b < |t.aios| && InBatchOk(t.aios[b], t.scanned[b], t.expire[b], BatchTime(t.exp)) {
        OneKeepsBatch(s, st, b, s.scanned[b], BatchTime(s.exp));
      }
    }
  }

  lemma OneKeepsBatch(s: State, st: Step, b: nat, n: nat, now: nat)
    requires Inv(s) && Enabled(s, st) && !st.Look? && b < |s.aios| && InBatchOk(s.aios[b], n, s.expire[b], now)
    ensures |s.expire| == |s.aios|
    ensures var t := Next(s, st); |t.aios| == |t.expire| == |s.aios| && InBatchOk(t.aios[b], n, t.expire[b], now)
  {
    InvLengths(s);
    hide UserNext, CallNext, ExpireNext, InBatchOk, Inv, Enabled;
    if st.Begin? || st.SetSleep? || st.SetExpire? || st.Schedule? || st.FailFinish? {
      UserKeepsBatch(s, st, b, n, now);
    } else if ExpirerStep(st) {
      ExpireKeepsBatch(s, st, b, n, now);
    } else {
      CallKeepsBatch(s, st, b, n, now);
    }
  }

  /** Between two scans the batch only shrinks. */
  lemma BatchMoves(s: State, st: Step)
    requires |s.expire| == |s.aios| && Enabled(s, st) && !st.Look?
    ensures var t := Next(s, st);
      && t.scanned == s.scanned && |t.aios| == |s.aios| && |t.expire| == |s.expire|
      && (forall b :: b in BatchLeft(t.exp) ==> b in BatchLeft(s.exp))
      && (BatchLeft(t.exp) != [] ==> BatchTime(t.exp) == BatchTime(s.exp))
  {
    assert st.Take? ==> forall b :: b in s.exp.rest[1..] ==> b in s.exp.rest;
  }

  lemma {:induction false} LeadsBatch(s: State, steps: seq<Step>, t: State)
    requires Inv(s) && BatchOk(s) && Leads(s, steps, t)
    ensures BatchOk(t)
    decreases |steps|
  {
    hide Inv, Next, Enabled, BatchOk;
    if steps != [] {
      InvLengths(s);
      StepInv(s, steps[0]);
      StepBatch(s, steps[0]);
      LeadsBatch(Next(s, steps[0]), steps[1..], t);
    }
  }

  /** The expire thread ends a sleep before its expiration only if it works off a batch into which the
      aio was put for an earlier operation: another one has begun since that scan. */
  lemma EarlyOnlyIfStale(t: State)
    requires Reachable(t) && Enabled(t, Take) && t.aios[t.exp.rest[0]].cancel
    ensures t.exp.rest[0] < |t.expire| && t.exp.rest[0] < |t.scanned|
    ensures t.expire[t.exp.rest[0]] >= t.exp.now ==> t.aios[t.exp.rest[0]].begun > t.scanned[t.exp.rest[0]]
  {
    var s, steps :| Init(s) && Leads(s, steps, t);
    InitInv(s);
    LeadsBatch(s, steps, t);
    LeadsInv(s, steps, t);
    var a := t.exp.rest[0];
    assert a in BatchLeft(t.exp) && AioOk(t.aios[a]);
  }

  lemma LeadsOneMore(s: State, steps: seq<Step>, t: State, st: Step)
    requires Leads(s, steps, t) && |t.expire| == |t.aios| && Enabled(t, st)
    ensures Leads(s, steps + [st], Next(t, st))
    decreases |steps|
  {
    hide Next, Enabled;
    if steps == [] {
      assert [st][1..] == [];
    } else {
      assert (steps + [st])[1..] == steps[1..] + [st];
      LeadsOneMore(Next(s, steps[0]), steps[1..], t, st);
    }
  }

  lemma ReachesOneMore(t: State, st: Step)
    requires Reachable(t) && |t.expire| == |t.aios| && Enabled(t, st)
    ensures Reachable(Next(t, st))
  {
    hide Next, Enabled;
    var s, steps :| Init(s) && Leads(s, steps, t);
    LeadsOneMore(s, steps, t, st);
  }

  /** A lone aio, with the batch that the expire thread holds. */
  function Lone(x: Aio, expire: nat, list: seq<nat>, next: nat, woken: bool, pc: CallPc, exp: ExpPc, n: nat): State {
    State([x], [expire], list, next, woken, [pc], exp, [n])
  }

  lemma InitIsReachable(s: State)
    requires Init(s)
    ensures Reachable(s)
  {
    assert Leads(s, [], s);
  }

  /** A lone aio at rest is put to sleep until the given time, with no timeout. */
  lemma SleepsUntil(x: Aio, time: nat, exp: ExpPc, n: nat)
    requires !x.stop && x.op == Rest && time < NNI_TIME_NEVER
    requires Reachable(Lone(x, NNI_TIME_NEVER, [], NNI_TIME_NEVER, true, Free, exp, n))
          || (!x.abort && Reachable(Lone(x, NNI_TIME_NEVER, [], NNI_TIME_NEVER, false, Free, exp, n)))
    ensures Reachable(Lone(x.(op := Scheduled, cancel := true, sleep := true, abort := false, expireOk := true, result := 0,
                             asked := Untimed(time), begun := x.begun + 1, stored := x.stored + 1),
                           time, [0], time, true, Free, exp, n))
  {
    hide Reachable;
    var b := Reachable(Lone(x, NNI_TIME_NEVER, [], NNI_TIME_NEVER, true, Free, exp, n));
    var t := Lone(x, NNI_TIME_NEVER, [], NNI_TIME_NEVER, b, Free, exp, n);
    var y := x.(op := Begun, cancel := false, abort := false, result := 0, begun := x.begun + 1);
    ReachesOneMore(t, Begin(0));
    assert Next(t, Begin(0)) == Lone(y, NNI_TIME_NEVER, [], NNI_TIME_NEVER, b, Free, exp, n);
    t := Next(t, Begin(0));
    y := y.(op := Asleep, expireOk := true, sleep := true);
    ReachesOneMore(t, SetSleep(0));
    assert Next(t, SetSleep(0)) == Lone(y, NNI_TIME_NEVER, [], NNI_TIME_NEVER, b, Free, exp, n);
    t := Next(t, SetSleep(0));
    y := y.(op := Timed, asked := Untimed(time));
    var st := SetExpire(0, time, NNG_DURATION_DEFAULT, 0);
    ReachesOneMore(t, st);
    assert Next(t, st) == Lone(y, time, [], NNI_TIME_NEVER, b, Free, exp, n);
    t := Next(t, st);
    ReachesOneMore(t, Schedule(0));
    y := y.(op := Scheduled, cancel := true, stored := y.stored + 1);
    assert Next(t, Schedule(0)) == Lone(y, time, [0], time, true, Free, exp, n);
  }

  /** At the time 0, a sleep for ms by an aio without a timeout. */
  function Untimed(ms: nat): Asked {
    Asked(ms, NNG_DURATION_DEFAULT, 0)
  }

  /** The first sleep of an aio. */
  const FIRST := Aio(Scheduled, true, true, false, false, true, 0, Untimed(5), 1, [], 1, 0)

  /** It expires at 5, and the scan at 10 puts it into the batch. */
  lemma FirstIsScanned()
    ensures Reachable(Lone(FIRST, 5, [], NNI_TIME_NEVER, true, Free, Batch([0], 10), 1))
  {
    var x := Aio(Rest, false, false, false, false, false, 0, NOTHING, 0, [], 0, 0);
    InitIsReachable(Lone(x, NNI_TIME_NEVER, [], NNI_TIME_NEVER, false, Free, Top, 0));
    hide Reachable;
    SleepsUntil(x, 5, Top, 0);
    var t := Lone(FIRST, 5, [0], 5, true, Free, Top, 0);
    ReachesOneMore(t, Look(10));
    assert Split([0], [5], 10, NNI_EXPIRE_BATCH) == Scan([0], [], NNI_TIME_NEVER);
    assert BegunCounts([FIRST]) == [1];
    assert Next(t, Look(10)) == Lone(FIRST, 5, [], NNI_TIME_NEVER, true, Free, Batch([0], 10), 1);
  }

  /** The aio after an abort with code 20 has ended its first sleep. */
  const ABORTED := Aio(Rest, false, false, false, false, true, 20, Untimed(5), 1, [Outcome(ByCaller(0), 20, Untimed(5))], 1, 1)

  /** An abort ends the first sleep before the expire thread gets to it. */
  lemma FirstIsAborted()
    ensures Reachable(Lone(ABORTED, NNI_TIME_NEVER, [], NNI_TIME_NEVER, true, Free, Batch([0], 10), 1))
  {
    FirstIsScanned();
    hide Reachable;
    var y := FIRST;
    var t := Lone(y, 5, [], NNI_TIME_NEVER, true, Free, Batch([0], 10), 1);
    ReachesOneMore(t, Abort(0, 0, 20));
    y := y.(op := Held(Caller(0)), cancel := false, taken := 1);
    assert Next(t, Abort(0, 0, 20)) == Lone(y, 5, [], NNI_TIME_NEVER, true, Took(0, 20), Batch([0], 10), 1);
    t := Next(t, Abort(0, 0, 20));
    ReachesOneMore(t, Cancel(0));
    y := y.(sleep := false);
    assert Next(t, Cancel(0)) == Lone(y, 5, [], NNI_TIME_NEVER, true, InCancel(0, 20), Batch([0], 10), 1);
    t := Next(t, Cancel(0));
    ReachesOneMore(t, Finish(0));
    assert [] + [Outcome(ByCaller(0), 20, Untimed(5))] == [Outcome(ByCaller(0), 20, Untimed(5))];
    assert Next(t, Finish(0)) == Lone(ABORTED, NNI_TIME_NEVER, [], NNI_TIME_NEVER, true, Free, Batch([0], 10), 1);
  }

  /** The second sleep, due at 100, while the expire thread still works off the batch of the scan at 10. */
  lemma SecondIsScheduled(y: Aio, t: State)
    requires y == ABORTED.(op := Scheduled, cancel := true, sleep := true, result := 0, asked := Untimed(100), begun := 2, stored := 2)
    requires t == Lone(y, 100, [0], 100, true, Free, Batch([0], 10), 1)
    ensures Reachable(t)
  {
    FirstIsAborted();
    hide Reachable;
    SleepsUntil(ABORTED, 100, Batch([0], 10), 1);
  }

  /** From s on, the expire thread ends a sleep that is due at 100, with code 0, after a scan at 10. */
  ghost predicate EndsEarly(s: State, t: State) {
    && Reachable(s) && Leads(s, [Take, ExpCancel, ExpFinish], t)
    && s.expire == [100] && s.exp == Batch([0], 10)
    && EndedWith(s, t, 0, ByExpirer, 0)
  }

  /** The expire thread ends a sleep of a lone aio. */
  lemma LoneEnds(y: Aio, time: nat) returns (t: State)
    requires y.op == Scheduled && y.cancel && y.sleep && y.expireOk
    ensures Leads(Lone(y, time, [0], time, true, Free, Batch([0], 10), 1), [Take, ExpCancel, ExpFinish], t)
    ensures t.aios == [t.aios[0]] && t.aios[0].outcomes == With(y, ByExpirer, 0)
  {
    var s := Lone(y, time, [0], time, true, Free, Batch([0], 10), 1);
    var y1 := y.(op := Held(Expirer), cancel := false, taken := y.taken + 1);
    assert [0][1..] == [];
    assert Next(s, Take) == Lone(y1, time, [0], time, true, Free, Calling(Took(0, 0), [], 10), 1);
    t := Next(s, Take);
    assert Next(t, ExpCancel) == Lone(y1.(sleep := false), time, [], time, true, Free, Calling(InCancel(0, 0), [], 10), 1);
    t := Next(t, ExpCancel);
    ThreeSteps(s, Take, ExpCancel, ExpFinish);
    t := Next(t, ExpFinish);
  }

  /** And it does happen: a sleep that is due at 100 ends with code 0 while the last scan of the
      expire thread was at 10. */
  lemma EarlyCanHappen()
    ensures exists s, t :: EndsEarly(s, t)
  {
    var y := ABORTED.(op := Scheduled, cancel := true, sleep := true, result := 0, asked := Untimed(100), begun := 2, stored := 2);
    var s := Lone(y, 100, [0], 100, true, Free, Batch([0], 10), 1);
    SecondIsScheduled(y, s);
    hide Reachable, Leads;
    var t := LoneEnds(y, 100);
    assert EndsEarly(s, t);
  }

  lemma ThreeSteps(s: State, x: Step, y: Step, z: Step)
    requires |s.expire| == |s.aios| && Enabled(s, x)
    requires var t := Next(s, x); |t.expire| == |t.aios| && Enabled(t, y)
    requires var u := Next(Next(s, x), y); |u.expire| == |u.aios| && Enabled(u, z)
    ensures Leads(s, [x, y, z], Next(Next(Next(s, x), y), z))
  {
    hide Next, Enabled;
    assert [x, y, z][1..] == [y, z] && [y, z][1..] == [z] && [z][1..] == [];
    var u := Next(Next(Next(s, x), y), z);
    assert Leads(u, [], u);
    assert Leads(Next(Next(s, x), y), [z], u);
    assert Leads(Next(s, x), [y, z], u);
  }

  // ----- what can go wrong: an abort with code 0 -----

  /** No abort carries the code 0. */
  ghost predicate NonzeroAborts(steps: seq<Step>) {
    forall i :: 0 <= i < |steps| && steps[i].Abort? ==> steps[i].rv != 0
  }

  /** The code left by an abort that came before the cancel function was stored. */
  predicate NotLost(x: Aio) {
    && x.op != Lost
    && (x.abort && (x.op == Begun || x.op == Asleep || x.op == Timed) ==> x.result != 0)
  }

  ghost predicate NoneLost(s: State) {
    forall a :: 0 <= a < |s.aios| ==> NotLost(s.aios[a])
  }

  lemma UserKeepsOne(s: State, st: Step, a: nat)
    requires |s.expire| == |s.aios| && Enabled(s, st) && a < |s.aios| && NotLost(s.aios[a])
    ensures |UserNext(s, st).aios| == |s.aios| && NotLost(UserNext(s, st).aios[a])
  {
  }

  lemma CallKeepsOne(s: State, st: Step, a: nat)
    requires |s.expire| == |s.aios| && Enabled(s, st) && a < |s.aios| && NotLost(s.aios[a])
    requires st.Abort? ==> st.rv != 0
    ensures |CallNext(s, st).aios| == |s.aios| && NotLost(CallNext(s, st).aios[a])
  {
  }

  lemma ExpireKeepsOne(s: State, st: Step, a: nat)
    requires |s.expire| == |s.aios| && Enabled(s, st) && a < |s.aios| && NotLost(s.aios[a])
    ensures |ExpireNext(s, st).aios| == |s.aios| && NotLost(ExpireNext(s, st).aios[a])
  {
  }

  lemma StepKeepsOne(s: State, st: Step, a: nat)
    requires |s.expire| == |s.aios| && Enabled(s, st) && a < |s.aios| && NotLost(s.aios[a])
    requires st.Abort? ==> st.rv != 0
    ensures |Next(s, st).aios| == |s.aios| && NotLost(Next(s, st).aios[a])
  {
    hide UserNext, CallNext, ExpireNext, NotLost, Enabled;
    UserKeepsOne(s, st, a);
    CallKeepsOne(s, st, a);
    ExpireKeepsOne(s, st, a);
  }

  lemma StepKeepsNoneLost(s: State, st: Step)
    requires |s.expire| == |s.aios| && Enabled(s, st) && NoneLost(s)
    requires st.Abort? ==> st.rv != 0
    ensures NoneLost(Next(s, st))
  {
    hide Next, Enabled, NotLost;
    forall a | 0 <= a < |Next(s, st).aios| ensures NotLost(Next(s, st).aios[a]) {
      SameAios(s, st);
      StepKeepsOne(s, st, a);
    }
  }

  lemma SameAios(s: State, st: Step)
    requires |s.expire| == |s.aios| && Enabled(s, st)
    ensures |Next(s, st).aios| == |s.aios|
  {
  }

  /** With nonzero abort codes `nni_aio_schedule` never swallows an operation, in any run. */
  lemma {:induction false} NothingIsLost(s: State, steps: seq<Step>, t: State)
    requires NoneLost(s) && NonzeroAborts(steps) && Leads(s, steps, t)
    ensures NoneLost(t)
    decreases |steps|
  {
    hide Next, Enabled, NoneLost;
    if steps != [] {
      StepKeepsNoneLost(s, steps[0]);
      assert forall i :: 0 <= i < |steps[1..]| ==> steps[1..][i] == steps[i + 1];
      NothingIsLost(Next(s, steps[0]), steps[1..], t);
    }
  }

  lemma NoRunLoses(s: State, steps: seq<Step>, t: State, a: nat)
    requires Init(s) && NonzeroAborts(steps) && Leads(s, steps, t) && a < |t.aios|
    ensures t.aios[a].op != Lost
  {
    NothingIsLost(s, steps, t);
  }

  predicate StaysLost(s: State, t: State, a: nat) {
    && a < |s.aios| && a < |t.aios| && s.aios[a].op == Lost && t.aios[a].op == Lost
    && t.aios[a].outcomes == s.aios[a].outcomes
  }

  lemma CallLeavesLost(s: State, st: Step, a: nat)
    requires Inv(s) && Enabled(s, st) && a < |s.aios| && s.aios[a].op == Lost
    ensures StaysLost(s, CallNext(s, st), a)
  {
    hide ResultOk, DueCode, DueTime, FullTime;
    assert AioOk(s.aios[a]);
    if st.Cancel? || st.Finish? {
      assert CallOk(s, s.calls[st.p], Caller(st.p));
    }
  }

  lemma ExpireLeavesLost(s: State, st: Step, a: nat)
    requires Inv(s) && Enabled(s, st) && a < |s.aios| && s.aios[a].op == Lost
    ensures StaysLost(s, ExpireNext(s, st), a)
  {
    hide ResultOk, DueCode, DueTime, FullTime;
    assert AioOk(s.aios[a]);
  }

  /** An aio that has been stopped or closed begins nothing any more, in any run. */
  lemma {:induction false} NothingBeginsAfterStop(s: State, steps: seq<Step>, t: State, a: nat)
    requires |s.expire| == |s.aios| && a < |s.aios| && s.aios[a].stop && Leads(s, steps, t)
    ensures a < |t.aios| && t.aios[a].stop && t.aios[a].begun == s.aios[a].begun
    decreases |steps|
  {
    hide Next, Enabled;
    if steps != [] {
      OutcomesGrow(s, steps[0], a);
      NothingBeginsAfterStop(Next(s, steps[0]), steps[1..], t, a);
    }
  }

  /** A lost operation stays lost: no further step of anybody finishes it. */
  lemma LostForever(s: State, st: Step, a: nat)
    requires Reachable(s) && Enabled(s, st) && |s.expire| == |s.aios|
    requires a < |s.aios| && s.aios[a].op == Lost
    ensures Next(s, st).aios[a].op == Lost && Next(s, st).aios[a].outcomes == s.aios[a].outcomes
  {
    ReachableInv(s);
    CallLeavesLost(s, st, a);
    ExpireLeavesLost(s, st, a);
    hide CallNext, ExpireNext, Inv, Reachable;
  }

  /** A run from s that leaves the operation of a lost. */
  ghost predicate CanLose(s: State, a: nat) {
    exists steps, u :: Leads(s, steps, u) && a < |u.aios| && u.aios[a].op == Lost
  }

  lemma CanLoseStep(s: State, st: Step, a: nat)
    requires |s.expire| == |s.aios| && Enabled(s, st) && CanLose(Next(s, st), a)
    ensures CanLose(s, a)
  {
    hide Next, Enabled;
    var steps, u :| Leads(Next(s, st), steps, u) && a < |u.aios| && u.aios[a].op == Lost;
    assert ([st] + steps)[1..] == steps;
    assert Leads(s, [st] + steps, u);
  }

  /** The user goes on setting up an operation for which an abort has left the code 0. */
  lemma UserLoses(s: State, a: nat)
    requires |s.expire| == |s.aios| && a < |s.aios|
    requires s.aios[a].op == Begun || s.aios[a].op == Asleep || s.aios[a].op == Timed
    requires s.aios[a].abort && s.aios[a].result == 0
    ensures CanLose(s, a)
    decreases s.aios[a].op == Begun, s.aios[a].op == Asleep
  {
    if s.aios[a].op == Begun {
      UserLoses(Next(s, SetSleep(a)), a);
      CanLoseStep(s, SetSleep(a), a);
    } else if s.aios[a].op == Asleep {
      UserLoses(Next(s, SetExpire(a, 0, NNG_DURATION_DEFAULT, 0)), a);
      CanLoseStep(s, SetExpire(a, 0, NNG_DURATION_DEFAULT, 0), a);
    } else {
      var u := Next(s, Schedule(a));
      assert Leads(u, [], u) && u.aios[a].op == Lost;
      CanLoseStep(s, Schedule(a), a);
    }
  }

  /** And the code 0 does lose one: whenever an abort with code 0 meets an operation that has begun
      and is not yet scheduled, that operation is lost if nobody but its user moves on. */
  lemma ZeroAbortLoses(s: State, p: nat, a: nat)
    requires Reachable(s) && Enabled(s, Abort(p, a, 0))
    requires s.aios[a].op == Begun || s.aios[a].op == Asleep || s.aios[a].op == Timed
    ensures |s.expire| == |s.aios| && CanLose(Next(s, Abort(p, a, 0)), a)
  {
    ReachableInv(s);
    assert AioOk(s.aios[a]);
    UserLoses(Next(s, Abort(p, a, 0)), a);
  }
}
