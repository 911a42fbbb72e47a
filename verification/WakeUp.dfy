/** The handshake by which other threads and signal handlers wake a libev loop.

    A sender marks its item, raises the flag of its kind, notes in `pipe_write_skipped` that it
    might not write to the pipe, and writes only if `pipe_write_wanted` says that the loop may be
    blocking.  The loop does the reverse.  Every read or write of a shared variable is one step;
    the memory fences make their interleaving sequentially consistent. */
module WakeUp {

  datatype Kind = Sig | Async

  /** A signal number or an async watcher. */
  datatype Item = Item(kind: Kind, id: nat)

  /** The next step of a thread inside `ev_feed_signal` or `ev_async_send`. */
  datatype Sender =
    | Idle
    | Check(item: Item)          // marked; will read the flag
    | SetFlag(item: Item)        // saw the flag clear
    | SetSkipped(item: Item)
    | CheckWanted(item: Item)
    | ClearSkipped(item: Item)   // saw the loop wanting a write
    | Write(item: Item)

  /** The next step of the loop thread. */
  datatype LoopPc =
    | Work                       // callbacks, timers, fd changes
    | WantSet                    // pipe_write_wanted raised; will read pipe_write_skipped
    | Poll(block: bool)
    | Polled(readable: bool)     // returned from polling, with or without the pipe
    | Unwanted(readable: bool)   // pipe_write_wanted lowered; will read pipe_write_skipped
    | Ready(events: bool, readable: bool)   // is the pipe watcher pending, and with EV_READ?
    | CbSkip                     // in pipecb, after reading the pipe
    | CbFlag(kind: Kind)         // will read the flag
    | CbClear(kind: Kind)        // saw the flag set
    | CbScan(kind: Kind, todo: set<Item>)
    | CbTake(kind: Kind, todo: set<Item>, item: Item)   // saw the item marked

  datatype State = State(
    sent: set<Item>,             // the marks: w->sent and signals[].pending
    sigPending: bool,
    asyncPending: bool,
    skipped: bool,
    wanted: bool,
    pipe: nat,                   // unread bytes, or the eventfd counter
    watched: set<Item>,          // the signals, and the started async watchers
    loop: LoopPc,
    senders: seq<Sender>,
    sends: multiset<Item>,       // a history: every entry into ev_feed_signal or ev_async_send
    delivered: multiset<Item>)   // a history: every item that pipecb has fed to its watchers

  function Flag(s: State, k: Kind): bool {
    if k.Sig? then s.sigPending else s.asyncPending
  }

  predicate Init(s: State) {
    && s.sent == {} && !s.sigPending && !s.asyncPending && !s.skipped && !s.wanted && s.pipe == 0
    && s.loop == Work && s.sends == multiset{} && s.delivered == multiset{}
    && forall t :: 0 <= t < |s.senders| ==> s.senders[t] == Idle
  }

  // ----- senders -----

  /** A thread enters `ev_feed_signal` or `ev_async_send`. */
  predicate Send(s: State, s': State, t: nat, item: Item) {
    && t < |s.senders| && s.senders[t] == Idle
    && s' == s.(senders := s.senders[t := Check(item)], sent := s.sent + {item}, sends := s.sends + multiset{item})
  }

  /** A thread continues inside `evpipe_write`; a write to a full pipe adds nothing. */
  predicate Continue(s: State, s': State, t: nat) {
    && t < |s.senders|
    && match s.senders[t]
       case Idle => false
       case Check(i) =>
         s' == s.(senders := s.senders[t := if Flag(s, i.kind) then Idle else SetFlag(i)])
       case SetFlag(i) =>
         s' == s.(senders := s.senders[t := SetSkipped(i)],
                  sigPending := s.sigPending || i.kind == Sig, asyncPending := s.asyncPending || i.kind == Async)
       case SetSkipped(i) =>
         s' == s.(senders := s.senders[t := CheckWanted(i)], skipped := true)
       case CheckWanted(i) =>
         s' == s.(senders := s.senders[t := if s.wanted then ClearSkipped(i) else Idle])
       case ClearSkipped(i) =>
         s' == s.(senders := s.senders[t := Write(i)], skipped := false)
       case Write(i) =>
         && s' == s.(senders := s.senders[t := Idle], pipe := s'.pipe)
         && (s'.pipe == s.pipe + 1 || (s'.pipe == s.pipe && s.pipe > 0))
  }

  // ----- the loop -----

  /** Between two polls, callbacks start and stop async watchers. */
  ghost predicate UserStep(s: State, s': State) {
    && s.loop == Work
    && (|| (exists i: Item :: i.kind == Async && i !in s.watched &&
              s' == s.(sent := s.sent - {i}, watched := s.watched + {i}))
        || (exists i: Item :: i.kind == Async && i in s.watched &&
              s' == s.(watched := s.watched - {i})))
  }

  function ItemsOf(s: State, k: Kind): set<Item> {
    set i | i in s.watched && i.kind == k
  }

  function AfterScan(k: Kind): LoopPc {
    if k.Sig? then CbFlag(Async) else Work
  }

  /** pipecb looks at one of the items it has not looked at yet. */
  function Looked(s: State, k: Kind, todo: set<Item>, i: Item): State {
    s.(loop := if i in s.sent then CbTake(k, todo - {i}, i) else CbScan(k, todo - {i}))
  }

  ghost predicate LoopStep(s: State, s': State) {
    match s.loop
    case Work => s' == s.(loop := WantSet, wanted := true)
    case WantSet => s' == s.(loop := Poll(false)) || (!s.skipped && s' == s.(loop := Poll(true)))
    case Poll(_) => s' == s.(loop := Polled(s.pipe > 0))
    case Polled(r) => s' == s.(loop := Unwanted(r), wanted := false)
    case Unwanted(r) => s' == s.(loop := Ready(r || s.skipped, r))
    case Ready(ev, r) =>
      if !ev then s' == s.(loop := Work)
      else if r then
        // one read empties an eventfd and takes up to four bytes from a pipe
        && s' == s.(loop := CbSkip, pipe := s'.pipe)
        && (s'.pipe == 0 || s'.pipe + 4 == s.pipe)
      else s' == s.(loop := CbSkip)
    case CbSkip => s' == s.(loop := CbFlag(Sig), skipped := false)
    case CbFlag(k) => s' == s.(loop := if Flag(s, k) then CbClear(k) else AfterScan(k))
    case CbClear(k) =>
      s' == s.(loop := CbScan(k, ItemsOf(s, k)),
               sigPending := s.sigPending && k == Async, asyncPending := s.asyncPending && k == Sig)
    case CbScan(k, todo) =>
      if todo == {} then s' == s.(loop := AfterScan(k))
      else (exists i :: i in todo && s' == Looked(s, k, todo, i))
    case CbTake(k, todo, i) =>
      s' == s.(loop := CbScan(k, todo), sent := s.sent - {i}, delivered := s.delivered + multiset{i})
  }

  ghost predicate Next(s: State, s': State) {
    || (exists t: nat, i: Item :: Send(s, s', t, i))
    || (exists t: nat :: Continue(s, s', t))
    || UserStep(s, s')
    || LoopStep(s, s')
  }

  ghost predicate IsRun(run: seq<State>) {
    && run != [] && Init(run[0])
    && forall i :: 0 <= i < |run| - 1 ==> Next(run[i], run[i + 1])
  }

  ghost predicate Reachable(s: State) {
    exists run :: IsRun(run) && run[|run| - 1] == s
  }

  // ----- the invariant -----

  /** pipecb has yet to look at item i. */
  predicate Scanning(s: State, i: Item) {
    match s.loop
    case CbScan(_, todo) => i in todo
    case CbTake(_, todo, j) => i in todo || i == j
    case _ => false
  }

  predicate Raising(pc: Sender, i: Item) {
    pc == Check(i) || pc == SetFlag(i)
  }

  predicate SomeRaising(s: State, i: Item) {
    exists t :: 0 <= t < |s.senders| && Raising(s.senders[t], i)
  }

  /** A marked item is announced by its flag, about to be, or about to be looked at. */
  predicate Announced(s: State, i: Item) {
    Flag(s, i.kind) || SomeRaising(s, i) || Scanning(s, i)
  }

  predicate Pushes(pc: Sender) {
    pc.SetSkipped? || pc.ClearSkipped? || pc.Write?
  }

  predicate SomePushes(s: State) {
    exists t :: 0 <= t < |s.senders| && Pushes(s.senders[t])
  }

  predicate SomeCheckWanted(s: State) {
    exists t :: 0 <= t < |s.senders| && s.senders[t].CheckWanted?
  }

  /** pipecb is running and will still read the flag of kind k. */
  predicate WillRead(pc: LoopPc, k: Kind) {
    match pc
    case CbSkip => true
    case CbFlag(j) => k.Async? || j.Sig?
    case CbClear(j) => k == j || (j.Sig? && k.Async?)
    case CbScan(j, _) => j.Sig? && k.Async?
    case CbTake(j, _, _) => j.Sig? && k.Async?
    case _ => false
  }

  /** A raised flag will be read before the loop can block, or the loop will be woken. */
  predicate Handled(s: State, k: Kind) {
    || s.pipe > 0
    || SomePushes(s)
    || (s.skipped && (s.loop != Poll(true) || SomeCheckWanted(s)))
    || WillRead(s.loop, k)
  }

  /** What a scan has still to look at is watched, and what it has seen marked still is. */
  ghost predicate ScanOk(s: State) {
    && (s.loop.CbScan? || s.loop.CbTake? ==> forall i :: i in s.loop.todo ==> i.kind == s.loop.kind && i in s.watched)
    && (s.loop.CbTake? ==>
          && s.loop.item.kind == s.loop.kind && s.loop.item in s.watched
          && s.loop.item in s.sent && s.loop.item !in s.loop.todo)
  }

  ghost predicate Inv(s: State) {
    && (s.wanted <==> s.loop.WantSet? || s.loop.Poll? || s.loop.Polled?)
    && (forall i :: i in s.sent && i in s.watched ==> Announced(s, i))
    && (forall k :: Flag(s, k) ==> Handled(s, k))
    && (s.loop.CbClear? ==> Flag(s, s.loop.kind))
    && ScanOk(s)
  }

  lemma InitInv(s: State)
    requires Init(s)
    ensures Inv(s)
  {
  }

  /** Only thread t has moved. */
  predicate Moved(s: State, s': State, t: nat) {
    && t < |s.senders| == |s'.senders|
    && forall u :: 0 <= u < |s.senders| && u != t ==> s'.senders[u] == s.senders[u]
  }

  lemma OthersGoOn(s: State, s': State, t: nat)
    requires Moved(s, s', t)
    ensures forall i :: SomeRaising(s, i) && !Raising(s.senders[t], i) ==> SomeRaising(s', i)
    ensures SomePushes(s) && !Pushes(s.senders[t]) ==> SomePushes(s')
    ensures SomeCheckWanted(s) && !s.senders[t].CheckWanted? ==> SomeCheckWanted(s')
    ensures Pushes(s'.senders[t]) ==> SomePushes(s')
    ensures s'.senders[t].CheckWanted? ==> SomeCheckWanted(s')
    ensures forall i :: Raising(s'.senders[t], i) ==> SomeRaising(s', i)
  {
    forall i | SomeRaising(s, i) && !Raising(s.senders[t], i) ensures SomeRaising(s', i) {
      var u :| 0 <= u < |s.senders| && Raising(s.senders[u], i);
      assert Raising(s'.senders[u], i);
    }
    if SomePushes(s) && !Pushes(s.senders[t]) {
      var u :| 0 <= u < |s.senders| && Pushes(s.senders[u]);
      assert Pushes(s'.senders[u]);
    }
    if SomeCheckWanted(s) && !s.senders[t].CheckWanted? {
      var u :| 0 <= u < |s.senders| && s.senders[u].CheckWanted?;
      assert s'.senders[u].CheckWanted?;
    }
  }

  lemma SendInv(s: State, s': State, t: nat, item: Item)
    requires Inv(s) && Send(s, s', t, item)
    ensures Inv(s')
  {
    OthersGoOn(s, s', t);
    forall i | i in s'.sent && i in s'.watched ensures Announced(s', i) {
      assert i != item ==> Announced(s, i);
      assert Raising(s'.senders[t], item);
    }
    forall k | Flag(s', k) ensures Handled(s', k) {
      assert Flag(s, k) && Handled(s, k);
    }
  }

  lemma ContinueFacts(s: State, s': State, t: nat)
    requires Continue(s, s', t)
    ensures Moved(s, s', t)
    ensures s'.loop == s.loop && s'.wanted == s.wanted && s'.sent == s.sent && s'.watched == s.watched
    ensures Flag(s, Sig) ==> Flag(s', Sig)
    ensures Flag(s, Async) ==> Flag(s', Async)
    ensures s.senders[t].SetFlag? ==> Flag(s', s.senders[t].item.kind)
    ensures s.senders[t].Check? && !Flag(s, s.senders[t].item.kind) ==> s'.senders[t] == SetFlag(s.senders[t].item)
  {
  }

  lemma ContinueAnnounces(s: State, s': State, t: nat, i: Item)
    requires Announced(s, i) && Continue(s, s', t)
    ensures Announced(s', i)
  {
    hide Continue;
    ContinueFacts(s, s', t);
    if !Flag(s', i.kind) && SomeRaising(s, i) {
      assert Raising(s.senders[t], i) ==> Raising(s'.senders[t], i);
    }
  }

  lemma ContinueHandles(s: State, s': State, t: nat, k: Kind)
    requires Continue(s, s', t)
    requires s.loop.Poll? ==> s.wanted
    requires Flag(s, k) ==> Handled(s, k)
    requires Flag(s', k)
    ensures Handled(s', k)
  {
    OthersGoOn(s, s', t);
  }

  lemma ContinueInv(s: State, s': State, t: nat)
    requires Inv(s) && Continue(s, s', t)
    ensures Inv(s')
  {
    hide Announced, Handled, Continue;
    ContinueFacts(s, s', t);
    forall i | i in s'.sent && i in s'.watched ensures Announced(s', i) {
      ContinueAnnounces(s, s', t, i);
    }
    forall k | Flag(s', k) ensures Handled(s', k) {
      ContinueHandles(s, s', t, k);
    }
  }

  /** A step of the loop thread leaves the senders where they are. */
  lemma SendersStay(s: State, s': State)
    requires s'.senders == s.senders
    ensures forall i :: SomeRaising(s', i) <==> SomeRaising(s, i)
    ensures SomePushes(s') <==> SomePushes(s)
    ensures SomeCheckWanted(s') <==> SomeCheckWanted(s)
  {
  }

  lemma UserInv(s: State, s': State)
    requires Inv(s) && UserStep(s, s')
    ensures Inv(s')
  {
    SendersStay(s, s');
    forall i | i in s'.sent && i in s'.watched ensures Announced(s', i) {
      assert Announced(s, i);
    }
    forall k | Flag(s', k) ensures Handled(s', k) {
      assert Handled(s, k);
    }
  }

  lemma LoopAnnounces(s: State, s': State, i: Item)
    requires Inv(s) && LoopStep(s, s')
    requires i in s'.sent && i in s'.watched
    ensures Announced(s', i)
  {
    SendersStay(s, s');
    assert Announced(s, i);
  }

  lemma LoopHandles(s: State, s': State, k: Kind)
    requires Inv(s) && LoopStep(s, s')
    requires Flag(s', k)
    ensures Handled(s', k)
  {
    SendersStay(s, s');
    assert Flag(s, k) && Handled(s, k);
  }

  lemma ScanningStaysOk(s: State, s': State)
    requires ScanOk(s) && LoopStep(s, s') && (s.loop.CbScan? || s.loop.CbTake?)
    ensures ScanOk(s')
  {
  }

  lemma ScanBeginsOk(s: State, s': State)
    requires LoopStep(s, s') && !s.loop.CbScan? && !s.loop.CbTake?
    ensures ScanOk(s')
  {
  }

  /** pipe_write_wanted tells where the loop is. */
  lemma LoopWants(s: State, s': State)
    requires s.wanted <==> s.loop.WantSet? || s.loop.Poll? || s.loop.Polled?
    requires LoopStep(s, s')
    ensures s'.wanted <==> s'.loop.WantSet? || s'.loop.Poll? || s'.loop.Polled?
  {
  }

  lemma LoopClears(s: State, s': State)
    requires LoopStep(s, s')
    ensures s'.loop.CbClear? ==> Flag(s', s'.loop.kind)
  {
  }

  lemma LoopInv(s: State, s': State)
    requires Inv(s) && LoopStep(s, s')
    ensures Inv(s')
  {
    if s.loop.CbScan? || s.loop.CbTake? {
      ScanningStaysOk(s, s');
    } else {
      ScanBeginsOk(s, s');
    }
    LoopWants(s, s');
    LoopClears(s, s');
    hide Announced, Handled, ScanOk, LoopStep;
    forall i | i in s'.sent && i in s'.watched ensures Announced(s', i) {
      LoopAnnounces(s, s', i);
    }
    forall k | Flag(s', k) ensures Handled(s', k) {
      LoopHandles(s, s', k);
    }
  }

  lemma StepInv(s: State, s': State)
    requires Inv(s) && Next(s, s')
    ensures Inv(s')
  {
    hide Inv, Send, Continue, UserStep, LoopStep;
    if t: nat, i: Item :| Send(s, s', t, i) {
      SendInv(s, s', t, i);
    } else if t: nat :| Continue(s, s', t) {
      ContinueInv(s, s', t);
    } else if UserStep(s, s') {
      UserInv(s, s');
    } else {
      LoopInv(s, s');
    }
  }

  lemma {:induction false} RunInv(run: seq<State>)
    requires IsRun(run)
    ensures Inv(run[|run| - 1])
  {
    var n := |run| - 1;
    if n == 0 {
      InitInv(run[0]);
    } else {
      RunInv(run[..n]);
      StepInv(run[n - 1], run[n]);
    }
  }

  // ----- no wake-up is lost -----

  /** Left alone, this sender will write to the pipe. */
  predicate WillWrite(s: State, t: nat) {
    && t < |s.senders|
    && match s.senders[t]
       case Idle => false
       case Check(i) => !Flag(s, i.kind)
       case CheckWanted(_) => s.wanted
       case _ => true
  }

  lemma ReachableInv(s: State)
    requires Reachable(s)
    ensures Inv(s)
  {
    var run :| IsRun(run) && run[|run| - 1] == s;
    RunInv(run);
  }

  /** Whatever the senders are doing: while a flag is raised the loop does not block, or the pipe is
      readable, or some sender in flight will write to it. */
  lemma RaisedFlagWakes(s: State, k: Kind)
    requires Reachable(s) && Flag(s, k)
    ensures s.loop != Poll(true) || s.pipe > 0 || exists t :: WillWrite(s, t)
  {
    ReachableInv(s);
    assert Handled(s, k);
    if s.loop == Poll(true) && s.pipe == 0 {
      if SomePushes(s) {
        var t :| 0 <= t < |s.senders| && Pushes(s.senders[t]);
        assert WillWrite(s, t);
      } else {
        var t :| 0 <= t < |s.senders| && s.senders[t].CheckWanted?;
        assert WillWrite(s, t);
      }
    }
  }

  /** A sender that skips the write leaves a loop that is not polling, and as long as nobody lowers
      the flag the loop cannot go to sleep before a write is under way. */
  lemma SkippedWriteIsSafe(s: State, s': State, t: nat)
    requires Reachable(s) && Continue(s, s', t)
    requires s.senders[t].CheckWanted? && s'.senders[t] == Idle
    ensures !s'.loop.Poll? && !s'.loop.WantSet?
    ensures Flag(s', s.senders[t].item.kind) ==>
      s'.skipped || s'.pipe > 0 || SomePushes(s') || WillRead(s'.loop, s.senders[t].item.kind)
  {
    ReachableInv(s);
    StepReaches(s, s');
    ReachableInv(s');
    assert Flag(s', s.senders[t].item.kind) ==> Handled(s', s.senders[t].item.kind);
  }

  /** While the loop blocks and a watched item is marked, the pipe is readable or a sender in
      flight is about to make it so. */
  lemma NoLostWakeUp(s: State, item: Item)
    requires Reachable(s) && s.loop == Poll(true)
    requires item in s.sent && item in s.watched
    ensures s.pipe > 0 || exists t :: WillWrite(s, t)
  {
    ReachableInv(s);
    assert Announced(s, item);
    if Flag(s, item.kind) {
      RaisedFlagWakes(s, item.kind);
    } else {
      var t :| 0 <= t < |s.senders| && Raising(s.senders[t], item);
      assert WillWrite(s, t);
    }
  }

  predicate AllIdle(s: State) {
    forall t :: 0 <= t < |s.senders| ==> s.senders[t] == Idle
  }

  /** How many steps a sender has left at most. */
  function Left(pc: Sender): nat {
    match pc
    case Idle => 0
    case Write(_) => 1
    case ClearSkipped(_) => 2
    case CheckWanted(_) => 3
    case SetSkipped(_) => 4
    case SetFlag(_) => 5
    case Check(_) => 6
  }

  function Remaining(senders: seq<Sender>): nat {
    if senders == [] then 0 else Left(senders[0]) + Remaining(senders[1..])
  }

  lemma {:induction false} RemainingUpdate(senders: seq<Sender>, t: nat, pc: Sender)
    requires t < |senders|
    ensures Remaining(senders[t := pc]) == Remaining(senders) - Left(senders[t]) + Left(pc)
  {
    if t > 0 {
      assert senders[t := pc][1..] == senders[1..][t - 1 := pc];
      RemainingUpdate(senders[1..], t - 1, pc);
    } else {
      assert senders[0 := pc][1..] == senders[1..];
    }
  }

  /** Senders finish by themselves: whatever they do shortens what is left. */
  lemma SendersFinish(s: State, s': State, t: nat)
    requires Continue(s, s', t)
    ensures Remaining(s'.senders) < Remaining(s.senders)
  {
    RemainingUpdate(s.senders, t, s'.senders[t]);
    assert s'.senders == s.senders[t := s'.senders[t]];
  }

  /** Some sender continues. */
  ghost predicate SomeContinue(s: State, s': State) {
    exists t: nat :: Continue(s, s', t)
  }

  /** Senders that run on, in any order, while the loop blocks. */
  ghost predicate SendersRun(run: seq<State>) {
    && run != []
    && forall i :: 0 <= i < |run| - 1 ==> SomeContinue(run[i], run[i + 1])
  }

  lemma SenderStep(s: State, s': State)
    requires Reachable(s) && SomeContinue(s, s')
    ensures Reachable(s') && Remaining(s'.senders) < Remaining(s.senders)
    ensures s'.loop == s.loop && s'.sent == s.sent && s'.watched == s.watched
  {
    var t: nat :| Continue(s, s', t);
    SendersFinish(s, s', t);
    ContinueFacts(s, s', t);
    StepReaches(s, s');
  }

  /** Once the loop blocks with a watched item marked, the senders under way make the pipe readable,
      in whatever order they run on, within a number of steps known from the start. */
  lemma {:induction false} SendersWakeTheLoop(run: seq<State>, item: Item)
    requires SendersRun(run) && Reachable(run[0])
    requires run[0].loop == Poll(true) && item in run[0].sent && item in run[0].watched
    requires AllIdle(run[|run| - 1])
    ensures run[|run| - 1].pipe > 0
    ensures |run| - 1 <= Remaining(run[0].senders)
    decreases |run|
  {
    hide Reachable, SomeContinue, Remaining;
    if |run| == 1 {
      NoLostWakeUp(run[0], item);
    } else {
      SenderStep(run[0], run[1]);
      SendersWakeTheLoop(run[1..], item);
    }
  }

  lemma StepReaches(s: State, s': State)
    requires Reachable(s) && Next(s, s')
    ensures Reachable(s')
  {
    var run :| IsRun(run) && run[|run| - 1] == s;
    var longer := run + [s'];
    forall i | 0 <= i < |longer| - 1 ensures Next(longer[i], longer[i + 1]) {
      if i < |run| - 1 { assert Next(run[i], run[i + 1]); }
    }
    assert IsRun(longer) && longer[|longer| - 1] == s';
  }

  // ----- a raised flag is noticed -----

  /** Steps until the flag of kind k is read, from inside pipecb. */
  function Near(pc: LoopPc, n: nat): nat {
    match pc
    case CbClear(k) => if k.Async? then 1 else 4 + 2 * n
    case CbFlag(k) => if k.Async? then 2 else 5 + 2 * n
    case CbScan(_, todo) => 3 + 2 * |todo|
    case CbTake(_, todo, _) => 4 + 2 * |todo|
    case _ => 6 + 2 * n
  }

  /** Steps until pipecb starts, from anywhere else. */
  function Far(s: State, n: nat): nat {
    match s.loop
    case Ready(ev, _) => if ev then 0 else 6
    case Unwanted(r) => if r || s.skipped then 1 else 7
    case Polled(r) => if r || s.skipped then 2 else 8
    case Poll(_) => 3
    case WantSet => 4
    case Work => 5
    case CbScan(k, todo) => 6 + 2 * |todo| + if k.Sig? then 3 + 2 * n else 0
    case CbTake(k, todo, _) => 7 + 2 * |todo| + if k.Sig? then 3 + 2 * n else 0
    case CbClear(_) => 7 + 2 * n
    case _ => 8 + 2 * n
  }

  /** Steps of the loop until it reads the flag of kind k. */
  function Distance(s: State, k: Kind): nat {
    var n := |s.watched|;
    if WillRead(s.loop, k) then Near(s.loop, n) else 7 + 2 * n + Far(s, n)
  }

  lemma SubsetSize<T>(a: set<T>, b: set<T>)
    requires a <= b
    ensures |a| <= |b|
  {
    if a != {} {
      var x :| x in a;
      SubsetSize(a - {x}, b - {x});
    }
  }

  lemma ScanStep(s: State, s': State)
    requires LoopStep(s, s') && s.loop.CbScan? && s.loop.todo != {}
    ensures s'.loop.CbScan? || s'.loop.CbTake?
    ensures s' == s.(loop := s'.loop) && s'.loop.kind == s.loop.kind
    ensures exists i :: i in s.loop.todo && s'.loop.todo == s.loop.todo - {i}
  {
  }

  lemma NearScanStep(s: State, s': State, k: Kind)
    requires LoopStep(s, s') && Flag(s, k) && WillRead(s.loop, k) && (s.loop.CbScan? || s.loop.CbTake?)
    ensures Flag(s', k) && Distance(s', k) < Distance(s, k)
  {
    if s.loop.CbScan? && s.loop.todo != {} {
      ScanStep(s, s');
      hide LoopStep, AfterScan;
      assert |s'.loop.todo| == |s.loop.todo| - 1;
    } else {
      assert s' == if s.loop.CbScan? then s.(loop := AfterScan(s.loop.kind))
                   else s.(loop := CbScan(s.loop.kind, s.loop.todo), sent := s.sent - {s.loop.item},
                           delivered := s.delivered + multiset{s.loop.item});
      hide LoopStep;
    }
  }

  lemma NearStep(s: State, s': State, k: Kind)
    requires LoopStep(s, s') && Flag(s, k) && WillRead(s.loop, k)
    ensures !Flag(s', k) ==> s'.loop == CbScan(k, ItemsOf(s, k))
    ensures Flag(s', k) ==> Distance(s', k) < Distance(s, k)
  {
    if s.loop.CbScan? || s.loop.CbTake? {
      NearScanStep(s, s', k);
      hide LoopStep, Distance;
    } else if s.loop.CbClear? {
      SubsetSize(ItemsOf(s, s.loop.kind), s.watched);
    }
  }

  predicate InPipeCb(pc: LoopPc) {
    pc.CbSkip? || pc.CbFlag? || pc.CbClear? || pc.CbScan? || pc.CbTake?
  }

  lemma FarScanStep(s: State, s': State, k: Kind)
    requires LoopStep(s, s') && Flag(s, k) && !WillRead(s.loop, k) && s.loop.CbScan?
    ensures Flag(s', k) && Distance(s', k) < Distance(s, k)
  {
    var todo := s.loop.todo;
    if todo == {} {
      assert s' == s.(loop := AfterScan(s.loop.kind));
    } else {
      hide LoopStep, AfterScan;
      ScanStep(s, s');
      assert |s'.loop.todo| == |todo| - 1;
    }
  }

  lemma FarCbStep(s: State, s': State, k: Kind)
    requires LoopStep(s, s') && Flag(s, k) && !WillRead(s.loop, k) && InPipeCb(s.loop) && !s.loop.CbScan?
    requires s.loop.CbClear? ==> s.loop.kind != k
    ensures Flag(s', k) && Distance(s', k) < Distance(s, k)
  {
    if s.loop.CbClear? {
      SubsetSize(ItemsOf(s, s.loop.kind), s.watched);
    }
  }

  lemma FarStep(s: State, s': State, k: Kind)
    requires LoopStep(s, s') && Flag(s, k) && !WillRead(s.loop, k) && !InPipeCb(s.loop)
    requires s.pipe > 0 || (s.skipped && s.loop != Poll(true))
    ensures Flag(s', k) && Distance(s', k) < Distance(s, k)
  {
  }

  /** With no sender under way, every step of the loop thread brings it closer to the moment at
      which it takes down a raised flag and looks at every watched item of its kind; in particular
      it does not stay in a blocking poll, whether the senders wrote or skipped the write. */
  lemma RaisedFlagIsNoticed(s: State, s': State, k: Kind)
    requires Reachable(s) && AllIdle(s) && Flag(s, k) && LoopStep(s, s')
    ensures !Flag(s', k) ==> s'.loop == CbScan(k, ItemsOf(s, k))
    ensures Flag(s', k) ==> Distance(s', k) < Distance(s, k)
    ensures s.loop == Poll(true) ==> s.pipe > 0
  {
    hide LoopStep, Distance;
    ReachableInv(s);
    assert Handled(s, k);
    if WillRead(s.loop, k) {
      NearStep(s, s', k);
    } else if s.loop.CbScan? {
      FarScanStep(s, s', k);
    } else if InPipeCb(s.loop) {
      FarCbStep(s, s', k);
    } else {
      FarStep(s, s', k);
    }
  }

  // ----- with senders under way -----

  /** Past its first check: the sender will go on to the write, or find that none is wanted. */
  predicate Busy(pc: Sender) {
    !pc.Idle? && !pc.Check?
  }

  predicate Quiet(s: State) {
    forall t :: 0 <= t < |s.senders| ==> !Busy(s.senders[t])
  }

  function Other(k: Kind): Kind {
    if k.Sig? then Async else Sig
  }

  /** While flag k is up and the loop lowers no flag, how many steps past its first check a sender can
      still take: what is left of its call, and one more call if the other flag is down, since with both
      flags up every call ends at the first check. */
  function Potential(pc: Sender, k: Kind, down: bool): nat {
    match pc
    case Idle => if down then 6 else 0
    case Check(_) => if down then 6 else 0
    case SetFlag(i) => if down && i.kind == k then 11 else 5
    case SetSkipped(_) => if down then 10 else 4
    case CheckWanted(_) => if down then 9 else 3
    case ClearSkipped(_) => if down then 8 else 2
    case Write(_) => if down then 7 else 1
  }

  function Potentials(senders: seq<Sender>, k: Kind, down: bool): nat {
    if senders == [] then 0 else Potential(senders[0], k, down) + Potentials(senders[1..], k, down)
  }

  lemma {:induction false} PotentialsUpdate(senders: seq<Sender>, k: Kind, down: bool, t: nat, pc: Sender)
    requires t < |senders|
    ensures Potentials(senders[t := pc], k, down)
         == Potentials(senders, k, down) - Potential(senders[t], k, down) + Potential(pc, k, down)
  {
    if t > 0 {
      assert senders[t := pc][1..] == senders[1..][t - 1 := pc];
      PotentialsUpdate(senders[1..], k, down, t - 1, pc);
    } else {
      assert senders[0 := pc][1..] == senders[1..];
    }
  }

  /** Raising the other flag takes potential away from everybody. */
  lemma {:induction false} PotentialsFall(senders: seq<Sender>, k: Kind)
    ensures Potentials(senders, k, false) <= Potentials(senders, k, true)
  {
    if senders != [] {
      PotentialsFall(senders[1..], k);
    }
  }

  function AllPotential(s: State, k: Kind): nat {
    Potentials(s.senders, k, !Flag(s, Other(k)))
  }

  /** How many turns are left at most until pipecb starts: a turn is a step of a sender past its first
      check, or a step of the loop while there is no such sender. */
  function ToGo(s: State, k: Kind): nat {
    9 * AllPotential(s, k) + if Quiet(s) && Far(s, 0) < 8 then Far(s, 0) else 8
  }

  /** A sender takes a step that is not the start of a call, nor its end at the first check. */
  ghost predicate Works(s: State, s': State, t: nat) {
    Continue(s, s', t) && (Busy(s.senders[t]) || Busy(s'.senders[t]))
  }

  ghost predicate Turn(s: State, s': State) {
    (exists t: nat :: Works(s, s', t)) || (LoopStep(s, s') && Quiet(s))
  }

  /** A working sender uses potential up. */
  lemma WorkUsesPotential(s: State, s': State, k: Kind, t: nat)
    requires Flag(s, k) && Works(s, s', t)
    ensures Flag(s', k) && s'.loop == s.loop && AllPotential(s', k) < AllPotential(s, k)
  {
    hide Potentials;
    var down := !Flag(s, Other(k));
    assert s'.senders == s.senders[t := s'.senders[t]];
    if down && s.senders[t].SetFlag? && s.senders[t].item.kind != k {
      FallsAt(s.senders, k, t, s'.senders[t]);
    } else {
      assert Flag(s', Other(k)) == !down;
      PotentialsUpdate(s.senders, k, down, t, s'.senders[t]);
    }
  }

  /** The sender that raises the other flag comes out with less than it had. */
  lemma {:induction false} FallsAt(senders: seq<Sender>, k: Kind, t: nat, pc: Sender)
    requires t < |senders| && Potential(pc, k, false) < Potential(senders[t], k, true)
    ensures Potentials(senders[t := pc], k, false) < Potentials(senders, k, true)
  {
    if t > 0 {
      assert senders[t := pc][1..] == senders[1..][t - 1 := pc];
      FallsAt(senders[1..], k, t - 1, pc);
    } else {
      assert senders[0 := pc][1..] == senders[1..];
      PotentialsFall(senders[1..], k);
    }
  }

  /** The start of a call, and its end at the first check, change nothing that matters. */
  lemma IdleStepKeeps(s: State, s': State, k: Kind, t: nat)
    requires Flag(s, k) && t < |s.senders|
    requires (exists i :: Send(s, s', t, i)) || (Continue(s, s', t) && !Works(s, s', t))
    ensures Flag(s', k) && s'.loop == s.loop && ToGo(s', k) == ToGo(s, k)
  {
    var down := !Flag(s, Other(k));
    assert s'.senders == s.senders[t := s'.senders[t]];
    PotentialsUpdate(s.senders, k, down, t, s'.senders[t]);
    assert Quiet(s) <==> Quiet(s') by {
      assert Busy(s.senders[t]) <==> Busy(s'.senders[t]);
      assert forall u :: 0 <= u < |s.senders| && u != t ==> s'.senders[u] == s.senders[u];
    }
  }

  /** Outside pipecb the loop lowers no flag, and with no busy sender it comes closer to pipecb. */
  lemma LoopComesCloser(s: State, s': State, k: Kind)
    requires Inv(s) && Flag(s, k) && !InPipeCb(s.loop) && LoopStep(s, s')
    ensures Flag(s', k) && (InPipeCb(s'.loop) ==> WillRead(s'.loop, k))
    ensures !InPipeCb(s'.loop) ==> ToGo(s', k) + (if Quiet(s) then 1 else 0) <= ToGo(s, k)
  {
    assert Handled(s, k);
    assert s'.senders == s.senders && Quiet(s') == Quiet(s);
  }

  /** One step of anybody while a flag is up and the loop is not in pipecb. */
  lemma OutsideStep(s: State, s': State, k: Kind)
    requires Inv(s) && Flag(s, k) && !InPipeCb(s.loop) && Next(s, s')
    ensures Flag(s', k) && (InPipeCb(s'.loop) ==> WillRead(s'.loop, k))
    ensures !InPipeCb(s'.loop) ==> ToGo(s', k) + (if Turn(s, s') then 1 else 0) <= ToGo(s, k)
  {
    hide Inv, Flag, LoopStep, Continue, Send, ToGo, Quiet;
    if t: nat :| Works(s, s', t) {
      WorkIsATurn(s, s', k, t);
    } else if LoopStep(s, s') {
      LoopComesCloser(s, s', k);
    } else if UserStep(s, s') {
      UserKeeps(s, s', k);
    } else if t: nat :| Continue(s, s', t) {
      ContinueInRange(s, s', t);
      IdleStepKeeps(s, s', k, t);
    } else {
      var t: nat, i: Item :| Send(s, s', t, i);
      SendInRange(s, s', t, i);
      IdleStepKeeps(s, s', k, t);
    }
  }

  lemma WorkIsATurn(s: State, s': State, k: Kind, t: nat)
    requires Flag(s, k) && Works(s, s', t)
    ensures Flag(s', k) && s'.loop == s.loop && ToGo(s', k) < ToGo(s, k)
  {
    WorkUsesPotential(s, s', k, t);
  }

  lemma ContinueInRange(s: State, s': State, t: nat)
    requires Continue(s, s', t)
    ensures t < |s.senders|
  {
  }

  lemma SendInRange(s: State, s': State, t: nat, i: Item)
    requires Send(s, s', t, i)
    ensures t < |s.senders|
  {
  }

  lemma UserKeeps(s: State, s': State, k: Kind)
    requires Flag(s, k) && UserStep(s, s')
    ensures Flag(s', k) && s'.loop == s.loop && ToGo(s', k) == ToGo(s, k)
  {
    assert s'.senders == s.senders && Quiet(s') == Quiet(s);
  }

  /** The turns of a run. */
  ghost function Turns(run: seq<State>): nat {
    if |run| <= 1 then 0 else (if Turn(run[0], run[1]) then 1 else 0) + Turns(run[1..])
  }

  /** However senders and users interleave with the loop: once a flag is up, it stays up until the loop
      is in pipecb, and after at most ToGo turns the loop is there. */
  lemma {:induction false} PipeCbStarts(run: seq<State>, k: Kind)
    requires run != [] && Inv(run[0]) && Flag(run[0], k)
    requires forall i :: 0 <= i < |run| - 1 ==> Next(run[i], run[i + 1])
    requires forall i :: 0 <= i < |run| ==> !InPipeCb(run[i].loop)
    ensures Flag(run[|run| - 1], k) && Turns(run) <= ToGo(run[0], k)
    decreases |run|
  {
    hide Inv, Next, Turn, ToGo;
    if |run| > 1 {
      OutsideStep(run[0], run[1], k);
      StepInv(run[0], run[1]);
      forall i | 0 <= i < |run[1..]| - 1 ensures Next(run[1..][i], run[1..][i + 1]) {
        assert Next(run[i + 1], run[i + 2]);
      }
      PipeCbStarts(run[1..], k);
    }
  }

  /** Nobody else moves the loop, and users act only outside pipecb. */
  lemma OthersLeavePipeCb(s: State, s': State)
    requires Next(s, s') && !LoopStep(s, s') && InPipeCb(s.loop)
    ensures s'.loop == s.loop && s'.watched == s.watched
    ensures forall k :: Flag(s, k) ==> Flag(s', k)
  {
    hide LoopStep;
  }

  /** Inside pipecb, as long as it has yet to read the flag, every step of the loop brings it closer to
      lowering the flag and scanning all watched items of its kind, and no other step delays it. */
  lemma PipeCbReads(s: State, s': State, k: Kind)
    requires Flag(s, k) && WillRead(s.loop, k) && Next(s, s')
    ensures !Flag(s', k) ==> s'.loop == CbScan(k, ItemsOf(s, k))
    ensures Flag(s', k) ==> WillRead(s'.loop, k)
    ensures Flag(s', k) ==> Distance(s', k) + (if LoopStep(s, s') then 1 else 0) <= Distance(s, k)
  {
    if LoopStep(s, s') {
      NearStep(s, s', k);
      ReadsOn(s, s', k);
    } else {
      OthersLeavePipeCb(s, s');
      hide LoopStep, Next;
    }
  }

  lemma ReadsOn(s: State, s': State, k: Kind)
    requires Flag(s, k) && WillRead(s.loop, k) && LoopStep(s, s')
    ensures Flag(s', k) ==> WillRead(s'.loop, k)
  {
  }

  // ----- no mark is lowered in vain -----

  /** What a step does to the marks and to the set of watched items. */
  datatype Change = Nothing | Marked(i: Item) | Started(i: Item) | Stopped(i: Item) | Delivered(i: Item)

  predicate Changed(s: State, s': State, c: Change) {
    match c
    case Nothing => s'.sent == s.sent && s'.sends == s.sends && s'.delivered == s.delivered && s'.watched == s.watched
    case Marked(i) =>
      && s'.sent == s.sent + {i} && s'.sends == s.sends + multiset{i} && s'.delivered == s.delivered
      && s'.watched == s.watched && s'.loop == s.loop
    case Started(i) =>
      && s.loop == Work && i !in s.watched && s'.sent == s.sent - {i} && s'.sends == s.sends
      && s'.delivered == s.delivered && s'.watched == s.watched + {i} && s'.loop == s.loop
    case Stopped(i) =>
      && s.loop == Work && s'.sent == s.sent && s'.sends == s.sends && s'.delivered == s.delivered
      && s'.watched == s.watched - {i} && s'.loop == s.loop
    case Delivered(i) =>
      && s.loop.CbTake? && s.loop.item == i && s'.sent == s.sent - {i} && s'.sends == s.sends
      && s'.delivered == s.delivered + multiset{i} && s'.watched == s.watched
      && s'.loop == CbScan(s.loop.kind, s.loop.todo)
  }

  lemma LoopChange(s: State, s': State) returns (c: Change)
    requires LoopStep(s, s')
    ensures Changed(s, s', c) && c == if s.loop.CbTake? then Delivered(s.loop.item) else Nothing
  {
    c := if s.loop.CbTake? then Delivered(s.loop.item) else Nothing;
  }

  lemma UserChange(s: State, s': State) returns (c: Change)
    requires UserStep(s, s')
    ensures Changed(s, s', c)
  {
    if i: Item :| i.kind == Async && i !in s.watched && s' == s.(sent := s.sent - {i}, watched := s.watched + {i}) {
      c := Started(i);
    } else {
      var i: Item :| i.kind == Async && i in s.watched && s' == s.(watched := s.watched - {i});
      c := Stopped(i);
    }
  }

  lemma SenderChange(s: State, s': State, t: nat)
    requires Continue(s, s', t)
    ensures Changed(s, s', Nothing) && s'.loop == s.loop
  {
  }

  lemma SendChange(s: State, s': State, t: nat, i: Item)
    requires Send(s, s', t, i)
    ensures Changed(s, s', Marked(i))
  {
  }

  /** What one step of anybody does; only a step of the loop moves the loop. */
  lemma ChangeOf(s: State, s': State) returns (c: Change)
    requires Next(s, s')
    ensures Changed(s, s', c) && (LoopStep(s, s') || s'.loop == s.loop)
  {
    hide Send, Continue, UserStep, LoopStep, Changed;
    if LoopStep(s, s') {
      c := LoopChange(s, s');
    } else if UserStep(s, s') {
      c := UserChange(s, s');
      hide UserStep;
      UserLeavesLoop(s, s');
    } else if t: nat :| Continue(s, s', t) {
      SenderChange(s, s', t);
      c := Nothing;
    } else {
      var t: nat, i: Item :| Send(s, s', t, i);
      SendChange(s, s', t, i);
      SendLeavesLoop(s, s', t, i);
      c := Marked(i);
    }
  }

  lemma UserLeavesLoop(s: State, s': State)
    requires UserStep(s, s')
    ensures s'.loop == s.loop
  {
  }

  lemma SendLeavesLoop(s: State, s': State, t: nat, i: Item)
    requires Send(s, s', t, i)
    ensures s'.loop == s.loop
  {
  }

  /** Between two states that follow each other, a mark of a watched item goes only by delivering that
      item; and only an item that is marked and watched is delivered, one at a time. */
  lemma MarkGoesByDelivery(s: State, s': State, i: Item)
    requires Inv(s) && Next(s, s') && i in s.watched && i in s'.watched
    ensures i in s.sent && i !in s'.sent ==> s'.delivered == s.delivered + multiset{i}
    ensures s'.delivered[i] > s.delivered[i] ==>
      i in s.sent && i !in s'.sent && s'.delivered == s.delivered + multiset{i}
  {
    hide Announced, Handled, Next;
    var c := ChangeOf(s, s');
  }

  /** A watcher that is started has no mark: sends from before do not count. */
  lemma StartedIsUnmarked(s: State, s': State, i: Item)
    requires Next(s, s') && i !in s.watched && i in s'.watched
    ensures i !in s'.sent && s'.delivered == s.delivered
  {
    hide Next;
    var c := ChangeOf(s, s');
  }

  /** In any run: an item that was marked, and is watched all the time, is still marked, or it has been
      delivered. */
  lemma {:induction false} MarkedUntilDelivered(run: seq<State>, i: Item)
    requires run != [] && Inv(run[0]) && i in run[0].sent
    requires forall j :: 0 <= j < |run| - 1 ==> Next(run[j], run[j + 1])
    requires forall j :: 0 <= j < |run| ==> i in run[j].watched
    ensures i in run[|run| - 1].sent || run[|run| - 1].delivered[i] > run[0].delivered[i]
    decreases |run|
  {
    hide Inv, Next;
    if |run| > 1 {
      MarkGoesByDelivery(run[0], run[1], i);
      StepInv(run[0], run[1]);
      forall j | 0 <= j < |run[1..]| - 1 ensures Next(run[1..][j], run[1..][j + 1]) {
        assert Next(run[j + 1], run[j + 2]);
      }
      if i in run[1].sent {
        MarkedUntilDelivered(run[1..], i);
        DeliveriesStay(run[0], run[1]);
      } else {
        DeliveriesOfRunStay(run[1..]);
      }
    }
  }

  lemma DeliveriesStay(s: State, s': State)
    requires Next(s, s')
    ensures s.delivered <= s'.delivered
  {
    hide Next;
    var c := ChangeOf(s, s');
  }

  lemma {:induction false} DeliveriesOfRunStay(run: seq<State>)
    requires run != [] && forall j :: 0 <= j < |run| - 1 ==> Next(run[j], run[j + 1])
    ensures run[0].delivered <= run[|run| - 1].delivered
  {
    hide Next;
    if |run| > 1 {
      assert Next(run[0], run[1]);
      DeliveriesStay(run[0], run[1]);
      forall j | 0 <= j < |run[1..]| - 1 ensures Next(run[1..][j], run[1..][j + 1]) {
        assert Next(run[j + 1], run[j + 2]);
      }
      DeliveriesOfRunStay(run[1..]);
    }
  }

  /** Nothing is delivered more often than it was sent, and a mark stands for a send that has not been
      delivered. */
  predicate Counted(s: State, i: Item) {
    s.delivered[i] + (if i in s.sent then 1 else 0) <= s.sends[i]
  }

  lemma StepCounted(s: State, s': State, i: Item)
    requires Inv(s) && Next(s, s') && Counted(s, i)
    ensures Counted(s', i)
  {
    hide Announced, Handled, Next;
    var c := ChangeOf(s, s');
  }

  lemma {:induction false} DeliveredAtMostOncePerSend(run: seq<State>, i: Item)
    requires IsRun(run)
    ensures Counted(run[|run| - 1], i)
  {
    hide Inv, Next, Init, Counted;
    var n := |run| - 1;
    if n == 0 {
      NothingCounted(run[0], i);
    } else {
      RunInv(run[..n]);
      DeliveredAtMostOncePerSend(run[..n], i);
      StepCounted(run[n - 1], run[n], i);
    }
  }

  lemma NothingCounted(s: State, i: Item)
    requires Init(s)
    ensures Counted(s, i)
  {
  }

  // ----- what pipecb has seen, it delivers -----

  predicate InScan(pc: LoopPc, k: Kind) {
    (pc.CbScan? || pc.CbTake?) && pc.kind == k
  }

  /** The scan that is under way has still to look at i, or is about to deliver it. */
  predicate ScanOwes(s: State, i: Item) {
    InScan(s.loop, i.kind) && i in s.sent && i in s.watched && (i in s.loop.todo || (s.loop.CbTake? && s.loop.item == i))
  }

  /** How many steps of the loop are left of the scan. */
  function ScanLeft(pc: LoopPc): nat {
    match pc
    case CbScan(_, todo) => 2 * |todo|
    case CbTake(_, todo, _) => 2 * |todo| + 1
    case _ => 0
  }

  /** One step of anybody during a scan that owes i. */
  lemma ScanDelivers(s: State, s': State, i: Item)
    requires Inv(s) && Next(s, s') && ScanOwes(s, i)
    ensures s'.delivered[i] > s.delivered[i]
         || (ScanOwes(s', i) && ScanLeft(s'.loop) + (if LoopStep(s, s') then 1 else 0) <= ScanLeft(s.loop))
  {
    var c := ChangeOf(s, s');
    if LoopStep(s, s') {
      LoopDelivers(s, s', i);
    }
    hide Inv, Next, LoopStep;
  }

  lemma LoopDelivers(s: State, s': State, i: Item)
    requires Inv(s) && LoopStep(s, s') && ScanOwes(s, i)
    ensures s'.delivered[i] > s.delivered[i] || (ScanOwes(s', i) && ScanLeft(s'.loop) < ScanLeft(s.loop))
  {
    hide Announced, Handled, LoopStep;
    var c := LoopChange(s, s');
    if s.loop.CbScan? {
      ScanSees(s, s', i);
    }
  }

  /** The next look of a scan: at i, or at something else. */
  lemma ScanSees(s: State, s': State, i: Item)
    requires LoopStep(s, s') && s.loop.CbScan? && i in s.loop.todo && i in s.sent
    ensures InScan(s'.loop, s.loop.kind) && ScanLeft(s'.loop) < ScanLeft(s.loop)
    ensures i in s'.loop.todo || (s'.loop.CbTake? && s'.loop.item == i)
  {
    var j :| j in s.loop.todo && s' == Looked(s, s.loop.kind, s.loop.todo, j);
    assert |s.loop.todo - {j}| == |s.loop.todo| - 1;
  }

  /** A scan does not end before everything that was marked and watched at its start is delivered,
      whatever senders do meanwhile. */
  lemma {:induction false} ScanIsComplete(run: seq<State>, k: Kind, i: Item)
    requires |run| > 1 && Inv(run[0]) && run[0].loop == CbScan(k, ItemsOf(run[0], k))
    requires i.kind == k && i in run[0].sent && i in run[0].watched
    requires forall j :: 0 <= j < |run| - 1 ==> Next(run[j], run[j + 1]) && InScan(run[j].loop, k)
    requires !InScan(run[|run| - 1].loop, k)
    ensures run[|run| - 1].delivered[i] > run[0].delivered[i]
  {
    ScanRun(run, k, i);
  }

  lemma {:induction false} ScanRun(run: seq<State>, k: Kind, i: Item)
    requires |run| > 1 && Inv(run[0]) && ScanOwes(run[0], i) && i.kind == k
    requires forall j :: 0 <= j < |run| - 1 ==> Next(run[j], run[j + 1]) && InScan(run[j].loop, k)
    requires !InScan(run[|run| - 1].loop, k)
    ensures run[|run| - 1].delivered[i] > run[0].delivered[i]
    decreases |run|
  {
    hide Inv, Next, LoopStep;
    ScanDelivers(run[0], run[1], i);
    StepInv(run[0], run[1]);
    forall j | 0 <= j < |run[1..]| - 1 ensures Next(run[1..][j], run[1..][j + 1]) && InScan(run[1..][j].loop, k) {
      assert Next(run[j + 1], run[j + 2]);
    }
    DeliveriesStay(run[0], run[1]);
    if run[1].delivered[i] > run[0].delivered[i] {
      DeliveriesOfRunStay(run[1..]);
    } else {
      ScanRun(run[1..], k, i);
    }
  }

  /** A marked and watched item that pipecb is going to deliver: its scan owes it, or the flag is up and
      will be read. */
  predicate Coming(s: State, i: Item) {
    || ScanOwes(s, i)
    || (i in s.sent && i in s.watched && Flag(s, i.kind) && WillRead(s.loop, i.kind))
  }

  /** How many steps of the loop that takes. */
  function StepsTo(s: State, i: Item): nat {
    if ScanOwes(s, i) then ScanLeft(s.loop) else Distance(s, i.kind) + 2 * |s.watched|
  }

  lemma ComesCloser(s: State, s': State, i: Item)
    requires Inv(s) && Next(s, s') && Coming(s, i)
    ensures s'.delivered[i] > s.delivered[i]
         || (Coming(s', i) && StepsTo(s', i) + (if LoopStep(s, s') then 1 else 0) <= StepsTo(s, i))
  {
    hide LoopStep, Distance, ScanLeft;
    if ScanOwes(s, i) {
      ScanDelivers(s, s', i);
    } else {
      PipeCbReads(s, s', i.kind);
      MarkStays(s, s', i);
      ScanStarts(s, s', i);
    }
  }

  /** Marks are lowered by scans only. */
  lemma MarkStays(s: State, s': State, i: Item)
    requires Inv(s) && Next(s, s') && i in s.sent && i in s.watched && !ScanOwes(s, i) && InPipeCb(s.loop)
    ensures i in s'.sent && i in s'.watched && s'.watched == s.watched
  {
    hide Announced, Handled, Next;
    var c := ChangeOf(s, s');
  }

  lemma ScanStarts(s: State, s': State, i: Item)
    requires s'.watched == s.watched && i in s'.sent && i in s'.watched
    ensures s'.loop == CbScan(i.kind, ItemsOf(s, i.kind)) ==> ScanOwes(s', i) && ScanLeft(s'.loop) <= 2 * |s.watched|
    ensures WillRead(s.loop, i.kind) ==> Distance(s, i.kind) > 0
  {
    SubsetSize(ItemsOf(s, i.kind), s.watched);
  }

  ghost function LoopSteps(run: seq<State>): nat {
    if |run| <= 1 then 0 else (if LoopStep(run[0], run[1]) then 1 else 0) + LoopSteps(run[1..])
  }

  /** However senders interleave: as soon as the flag of a marked and watched item is going to be read by
      pipecb, the item is delivered after a number of steps of the loop that is known by then. */
  lemma {:induction false} PipeCbDelivers(run: seq<State>, i: Item)
    requires run != [] && Inv(run[0]) && Coming(run[0], i)
    requires forall j :: 0 <= j < |run| - 1 ==> Next(run[j], run[j + 1])
    ensures run[|run| - 1].delivered[i] > run[0].delivered[i] || LoopSteps(run) <= StepsTo(run[0], i)
    decreases |run|
  {
    hide Inv, Next, LoopStep, Coming, StepsTo;
    if |run| > 1 {
      ComesCloser(run[0], run[1], i);
      StepInv(run[0], run[1]);
      forall j | 0 <= j < |run[1..]| - 1 ensures Next(run[1..][j], run[1..][j + 1]) {
        assert Next(run[j + 1], run[j + 2]);
      }
      DeliveriesStay(run[0], run[1]);
      if run[1].delivered[i] > run[0].delivered[i] {
        DeliveriesOfRunStay(run[1..]);
      } else {
        PipeCbDelivers(run[1..], i);
      }
    }
  }
}
