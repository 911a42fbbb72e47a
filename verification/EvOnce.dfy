/** `ev_once`: one callback for whichever comes first, an event on a descriptor or a timeout. */
module EvOnce {
  import opened EvBits
  import opened TimerHeap
  import opened PendingQueue
  import EvLoop
  import FdSet

  /** The record that ev_once allocates.  Its io watcher is seen twice: as an entry of the pending
      queues, and as an entry of the watcher list of its descriptor. */
  class Once {
    const io: Watcher
    const fdw: FdSet.Io
    const to: Watcher
    var freed: bool
    var calls: seq<Events>     // the masks with which the user's callback has run

    constructor (io: Watcher, fdw: FdSet.Io, to: Watcher)
      ensures this.io == io && this.fdw == fdw && this.to == to && !freed && calls == []
    {
      this.io, this.fdw, this.to := io, fdw, to;
      freed, calls := false, [];
    }
  }

  ghost predicate Ready(loop: EvLoop.Loop, fds: FdSet.FdLoop, once: Once)
    reads loop, loop.watchers, loop.dummy, fds, fds.watchers, fds.backend
  {
    && loop.Valid() && fds.Valid()
    && once.io in loop.watchers && once.to in loop.watchers && once.io != once.to
    && once.io.active == 0 && once.fdw in fds.watchers
  }

  /** No pending slot, no watcher list and no heap entry refers to the record. */
  ghost predicate Detached(loop: EvLoop.Loop, fds: FdSet.FdLoop, once: Once)
    reads loop, fds
  {
    && Idle(loop.pendings, once.io) && Idle(loop.pendings, once.to)
    && (forall k :: HEAP0 <= k < |loop.timers| ==> loop.timers[k].w != once.io && loop.timers[k].w != once.to)
    && (forall fd, i :: 0 <= fd < |fds.anfds| && 0 <= i < |fds.anfds[fd].head| ==> fds.anfds[fd].head[i] != once.fdw)
  }

  lemma NotPendingIsIdle(loop: EvLoop.Loop, w: Watcher)
    requires loop.Valid() && w in loop.watchers && w.pending == 0
    ensures Idle(loop.pendings, w)
  {
    forall p, i | 0 <= p < NUMPRI && 0 <= i < |loop.pendings[p]| ensures loop.pendings[p][i].w != w {
      assert loop.EntryOk(p, i);
    }
  }

  lemma StoppedIsUnlisted(fds: FdSet.FdLoop, w: FdSet.Io)
    requires fds.Valid() && w in fds.watchers && !w.active
    ensures forall fd, i :: 0 <= fd < |fds.anfds| && 0 <= i < |fds.anfds[fd].head| ==> fds.anfds[fd].head[i] != w
  {
    forall fd, i | 0 <= fd < |fds.anfds| && 0 <= i < |fds.anfds[fd].head| ensures fds.anfds[fd].head[i] != w {
      assert fds.HeadOk(fd);
      assert fds.anfds[fd].head[i] in fds.anfds[fd].head;
    }
  }

  /** ev_timer_stop, seen from the two watchers of a record. */
  method StopTimer(loop: EvLoop.Loop, to: Watcher, io: Watcher)
    requires loop.Valid() && to in loop.watchers && io in loop.watchers && io != to
    requires io.active == 0 && io.pending == 0
    modifies loop`timers, loop`activecnt, loop.watchers`active, to`at, loop`pendings, to`pending
    ensures loop.Valid() && to.active == 0 && to.pending == 0 && io.active == 0 && io.pending == 0
  {
    loop.EvTimerStop(to);
    loop.SnapAt(to);
  }

  /** `once_cb`. */
  method OnceCb(loop: EvLoop.Loop, fds: FdSet.FdLoop, once: Once, revents: Events)
    requires Ready(loop, fds, once) && !once.freed
    modifies loop`timers, loop`activecnt, loop`pendings, loop.watchers
    modifies fds`anfds, fds`fdchanges, fds.watchers`active, once
    ensures Ready(loop, fds, once) && Detached(loop, fds, once)
    ensures once.freed && once.calls == old(once.calls) + [revents]
  {
    hide Detached, EvLoop.Loop.Valid, FdSet.FdLoop.Valid;
    var _ := loop.EvClearPending(once.io);
    fds.IoStop(once.fdw);
    StopTimer(loop, once.to, once.io);
    once.freed := true;
    NothingRefers(loop, fds, once);
    once.calls := once.calls + [revents];
  }

  lemma NothingRefers(loop: EvLoop.Loop, fds: FdSet.FdLoop, once: Once)
    requires Ready(loop, fds, once)
    requires once.io.pending == 0 && once.to.pending == 0 && once.to.active == 0 && !once.fdw.active
    ensures Detached(loop, fds, once)
  {
    NotPendingIsIdle(loop, once.io);
    NotPendingIsIdle(loop, once.to);
    StoppedIsUnlisted(fds, once.fdw);
  }

  /** `once_cb_io`: the io watcher has been taken off its queue with mask revents. */
  method OnceCbIo(loop: EvLoop.Loop, fds: FdSet.FdLoop, once: Once, revents: Events)
    requires Ready(loop, fds, once) && !once.freed
    modifies loop`timers, loop`activecnt, loop`pendings, loop.watchers
    modifies fds`anfds, fds`fdchanges, fds.watchers`active, once
    ensures Ready(loop, fds, once) && Detached(loop, fds, once)
    ensures once.freed && once.calls == old(once.calls) + [revents + old(MaskOf(loop.pendings[once.to.pri], once.to))]
  {
    var more := loop.EvClearPending(once.to);
    OnceCb(loop, fds, once, revents + more);
  }

  /** `once_cb_to`. */
  method OnceCbTo(loop: EvLoop.Loop, fds: FdSet.FdLoop, once: Once, revents: Events)
    requires Ready(loop, fds, once) && !once.freed
    modifies loop`timers, loop`activecnt, loop`pendings, loop.watchers
    modifies fds`anfds, fds`fdchanges, fds.watchers`active, once
    ensures Ready(loop, fds, once) && Detached(loop, fds, once)
    ensures once.freed && once.calls == old(once.calls) + [revents + old(MaskOf(loop.pendings[once.io.pri], once.io))]
  {
    var more := loop.EvClearPending(once.io);
    OnceCb(loop, fds, once, revents + more);
  }

  /** `ev_once`: fd is false for a negative descriptor; a negative timeout starts no timer. */
  method Start(loop: EvLoop.Loop, fds: FdSet.FdLoop, once: Once, fd: bool, timeout: int)
    requires Ready(loop, fds, once) && !once.freed && Detached(loop, fds, once)
    modifies loop`timers, loop`activecnt, loop.watchers`active, once.to`at, once.to`repeat
    modifies fds`anfds, fds`fdchanges, once.fdw`events, once.fdw`active
    ensures Ready(loop, fds, once)
    ensures once.fdw.active == fd
    ensures once.to.active != 0 <==> timeout >= 0
    ensures loop.Snap() == if timeout >= 0 then old(loop.Snap())[once.to := EvLoop.Timer(loop.mnNow + timeout, 0, true)]
                           else old(loop.Snap())
    ensures timeout < 0 ==> loop.timers == old(loop.timers)
    ensures !fd ==> fds.anfds == old(fds.anfds) && fds.fdchanges == old(fds.fdchanges)
    ensures fd ==>
      && once.fdw.events == old(once.fdw.events) - {EV_IOFDSET}
      && var a, n := FdSet.Padded(old(fds.anfds), once.fdw.fd + 1), once.fdw.fd;
      && fds.anfds == a[n := FdSet.Anfd([once.fdw] + a[n].head, a[n].events, true,
                                        a[n].fdset || EV_IOFDSET in old(once.fdw.events))]
      && fds.fdchanges == if a[n].reify then old(fds.fdchanges) else old(fds.fdchanges) + [n]
  {
    hide EvLoop.Loop.Valid, EvLoop.Loop.Snap, FdSet.FdLoop.Valid, Detached;
    DetachedMeans(loop, fds, once);
    if fd {
      fds.IoStart(once.fdw);
    }
    if timeout >= 0 {
      StartTimer(loop, once.to, once.io, timeout);
    }
    loop.SnapAt(once.to);
  }

  /** ev_timer_set with repeat 0, and ev_timer_start. */
  method StartTimer(loop: EvLoop.Loop, to: Watcher, io: Watcher, timeout: int)
    requires loop.Valid() && to in loop.watchers && io in loop.watchers && io != to
    requires io.active == 0 && to.active == 0
    modifies loop`timers, loop`activecnt, loop.watchers`active, to`at, to`repeat
    ensures loop.Valid() && to.active != 0 && io.active == 0
    ensures loop.Snap() == old(loop.Snap())[to := EvLoop.Timer(loop.mnNow + timeout, 0, true)]
  {
    hide EvLoop.Loop.Valid, EvLoop.Loop.Snap;
    loop.SetAfter(to, timeout);
    loop.SetRepeat(to, 0);
    loop.SnapAt(to);
    loop.EvTimerStart(to);
    loop.SnapAt(to);
    loop.SnapAt(io);
  }

  // ----- a freed record is never touched again -----

  /** Nothing refers to a record whose watchers are neither pending nor active, and the other way round. */
  lemma DetachedMeans(loop: EvLoop.Loop, fds: FdSet.FdLoop, once: Once)
    requires Ready(loop, fds, once) && Detached(loop, fds, once)
    ensures once.io.pending == 0 && once.to.pending == 0 && once.to.active == 0 && !once.fdw.active
  {
    assert loop.BackOk(once.io) && loop.BackOk(once.to) && fds.WatcherOk(once.fdw);
  }

  /** The actions do not name the record's watchers. */
  ghost predicate Leaves(scripts: seq<seq<Action>>, once: Once) {
    !EvLoop.NamedBySome(scripts, once.io) && !EvLoop.NamedBySome(scripts, once.to)
  }

  lemma UnnamedIsUnfed(scripts: seq<seq<Action>>, w: Watcher)
    requires !EvLoop.NamedBySome(scripts, w)
    ensures forall i :: 0 <= i < |scripts| ==> !Feeds(scripts[i], w)
  {
    forall i | 0 <= i < |scripts| ensures !Feeds(scripts[i], w) {
      assert !EvLoop.Names(scripts[i], w);
    }
  }

  /** A watcher that is neither pending nor active, and that no callback names, stays so through a
      loop iteration and is not invoked. */
  method TickPast(loop: EvLoop.Loop, w: Watcher, u: Watcher, scripts: seq<seq<Action>>) returns (log: seq<Invocation>)
    requires loop.Valid() && loop.rfeeds == [] && ScriptsOk(scripts, loop.watchers)
    requires w in loop.watchers && w.pending == 0 && w.active == 0 && !EvLoop.NamedBySome(scripts, w)
    requires u in loop.watchers && u.pending == 0 && u.active == 0 && !EvLoop.NamedBySome(scripts, u)
    modifies loop`timers, loop`activecnt, loop`pendings, loop`pendingpri, loop`rfeeds
    modifies loop.watchers`active, loop.watchers`at, loop.watchers`pending, loop.watchers`repeat, loop.dummy`pending
    ensures loop.Valid() && loop.rfeeds == []
    ensures w.pending == 0 && w.active == 0 && !Invoked(log, w)
    ensures u.pending == 0 && u.active == 0 && !Invoked(log, u)
  {
    ghost var qs, s := loop.pendings, loop.Snap();
    NotPendingIsIdle(loop, w);
    NotPendingIsIdle(loop, u);
    loop.EntriesInOwnQueue();
    hide EvLoop.Loop.Valid, EvLoop.Loop.Snap, EvLoop.PerformedAll, Run, Idle, Invoked, EvLoop.NamedBySome,
         FeedReversed, ClearAll, EvLoop.OneShots, EvLoop.Used, Invocations, FedByAll, DispatchedBefore;
    loop.SnapAt(w);
    loop.SnapAt(u);
    ghost var fired, passed, queued;
    fired, passed, queued, log := loop.Tick(scripts);
    PassesBy(loop, qs, s, fired, passed, queued, scripts, log, w);
    PassesBy(loop, qs, s, fired, passed, queued, scripts, log, u);
    loop.SnapAt(w);
    loop.SnapAt(u);
  }

  lemma PassesBy(loop: EvLoop.Loop, qs: Queues, s: EvLoop.Timers, fired: seq<Watcher>, passed: EvLoop.Timers,
                 queued: Queues, scripts: seq<seq<Action>>, log: seq<Invocation>, w: Watcher)
    requires w != loop.dummy && Idle(qs, w) && w in s && !s[w].active && !EvLoop.NamedBySome(scripts, w)
    requires EvLoop.PassDone(s, passed, fired, loop.mnNow)
    requires queued == FeedReversed(ClearAll(qs, loop.dummy, EvLoop.OneShots(s, fired)), fired, {EV_TIMER})
    requires log == Run(queued, loop.dummy, scripts)
    ensures !Invoked(log, w)
    ensures w in passed &&
      EvLoop.PerformedAll(passed, scripts[..EvLoop.Used(log, loop.dummy, scripts)], loop.mnNow)[w] == s[w]
  {
    hide Run, Idle, Invoked, FeedReversed, ClearAll, EvLoop.OneShots, EvLoop.NamedBySome, EvLoop.PerformedAll;
    assert w !in fired;
    ClearAllKeepsIdle(qs, loop.dummy, EvLoop.OneShots(s, fired), w);
    FedKeepsIdle(ClearAll(qs, loop.dummy, EvLoop.OneShots(s, fired)), fired, {EV_TIMER}, w);
    UnnamedIsUnfed(scripts, w);
    ClearedStaysSilent(queued, loop.dummy, scripts, w);
    EvLoop.UnnamedIsKept(passed, scripts, EvLoop.Used(log, loop.dummy, scripts), loop.mnNow, w);
  }

  /** A freed record as the loop sees it between two operations. */
  ghost predicate Gone(loop: EvLoop.Loop, fds: FdSet.FdLoop, once: Once)
    reads loop, loop.watchers, loop.dummy, fds, fds.watchers, fds.backend
  {
    && Ready(loop, fds, once)
    && once.io.pending == 0 && once.to.pending == 0 && once.to.active == 0 && !once.fdw.active
    && loop.rfeeds == [] && fds.base == 0
  }

  lemma GoneIsDetached(loop: EvLoop.Loop, fds: FdSet.FdLoop, once: Once)
    requires Ready(loop, fds, once) && loop.rfeeds == [] && fds.base == 0
    ensures Gone(loop, fds, once) <==> Detached(loop, fds, once)
  {
    if Gone(loop, fds, once) {
      NothingRefers(loop, fds, once);
    }
    if Detached(loop, fds, once) {
      DetachedMeans(loop, fds, once);
    }
  }

  /** What a loop and its users go on to do: let time pass, run a loop iteration, feed, clear, start
      or stop watchers, and bring the backend up to date. */
  datatype Op =
    | Time(now: int)
    | Tick(scripts: seq<seq<Action>>)
    | Act(action: Action)
    | StartIo(w: FdSet.Io)
    | StopIo(w: FdSet.Io)
    | Reify(kills: seq<seq<nat>>)

  /** The operation is about known watchers, and not about those of the record. */
  ghost predicate About(op: Op, loop: EvLoop.Loop, fds: FdSet.FdLoop, once: Once) {
    match op
    case Tick(scripts) => ScriptsOk(scripts, loop.watchers) && Leaves(scripts, once)
    case Act(a) => a.w in loop.watchers && a.w != once.io && a.w != once.to
    case StartIo(w) => w in fds.watchers && w != once.fdw
    case StopIo(w) => w in fds.watchers && w != once.fdw
    case _ => true
  }

  /** An action on another watcher. */
  method ActPast(loop: EvLoop.Loop, a: Action, w: Watcher, u: Watcher)
    requires loop.Valid() && a.w in loop.watchers
    requires w in loop.watchers && w.pending == 0 && w.active == 0 && w != a.w
    requires u in loop.watchers && u.pending == 0 && u.active == 0 && u != a.w
    modifies loop`timers, loop`activecnt, loop`pendings, loop`pendingpri
    modifies loop.watchers`active, loop.watchers`at, loop.watchers`pending, loop.watchers`repeat
    ensures loop.Valid() && w.pending == 0 && w.active == 0 && u.pending == 0 && u.active == 0
  {
    NotPendingIsIdle(loop, w);
    NotPendingIsIdle(loop, u);
    loop.SnapAt(w);
    loop.SnapAt(u);
    loop.EntriesInOwnQueue();
    hide EvLoop.Loop.Valid, EvLoop.Loop.Snap, Idle, EvLoop.Acted;
    loop.Do(a);
    loop.SnapAt(w);
    loop.SnapAt(u);
  }

  /** fd_reify starts no watcher. */
  method ReifyPast(fds: FdSet.FdLoop, kills: seq<seq<nat>>, w: FdSet.Io)
    requires fds.Valid() && fds.base == 0 && w in fds.watchers && !w.active
    modifies fds`anfds, fds`fdchanges, fds`errors, fds`base, fds.watchers`active, fds.backend
    ensures fds.Valid() && fds.base == 0 && !w.active
  {
    if |kills| == |fds.fdchanges| && forall k :: 0 <= k < |kills| ==> forall fd :: fd in kills[k] ==> fd < |fds.anfds| {
      StoppedIsUnlisted(fds, w);
      hide FdSet.FdLoop.Valid;
      fds.FdReify(kills);
    }
  }

  /** One operation does not bring a freed record back, and does not invoke it. */
  method StepPast(loop: EvLoop.Loop, fds: FdSet.FdLoop, once: Once, op: Op) returns (log: seq<Invocation>)
    requires Gone(loop, fds, once) && About(op, loop, fds, once)
    modifies loop, loop.watchers, loop.dummy`pending, fds, fds.watchers, fds.backend
    ensures Gone(loop, fds, once)
    ensures !Invoked(log, once.io) && !Invoked(log, once.to)
  {
    hide EvLoop.Loop.Valid, FdSet.FdLoop.Valid, EvLoop.NamedBySome;
    log := [];
    match op {
      case Time(now) => loop.mnNow := now;
      case Tick(scripts) => log := TickPast(loop, once.io, once.to, scripts);
      case Act(a) => ActPast(loop, a, once.io, once.to);
      case StartIo(w) => fds.IoStart(w);
      case StopIo(w) => fds.IoStop(w);
      case Reify(kills) => ReifyPast(fds, kills, once.fdw);
    }
  }

  /** A freed record stays detached and silent for ever: whatever the loop and its users go on to do
      with other watchers, in any order and for any number of iterations, nothing refers to the record
      and neither of its watchers is invoked. */
  method FreedForGood(loop: EvLoop.Loop, fds: FdSet.FdLoop, once: Once, ops: seq<Op>)
    returns (logs: seq<seq<Invocation>>)
    requires Ready(loop, fds, once) && Detached(loop, fds, once) && loop.rfeeds == [] && fds.base == 0
    requires forall i :: 0 <= i < |ops| ==> About(ops[i], loop, fds, once)
    modifies loop, loop.watchers, loop.dummy`pending, fds, fds.watchers, fds.backend
    ensures Ready(loop, fds, once) && Detached(loop, fds, once)
    ensures |logs| == |ops|
    ensures forall i :: 0 <= i < |logs| ==> !Invoked(logs[i], once.io) && !Invoked(logs[i], once.to)
  {
    GoneIsDetached(loop, fds, once);
    hide Ready, Detached, About, Invoked, Gone;
    logs := [];
    for n := 0 to |ops|
      invariant Gone(loop, fds, once) && |logs| == n
      invariant forall i :: 0 <= i < n ==> !Invoked(logs[i], once.io) && !Invoked(logs[i], once.to)
    {
      var log := StepPast(loop, fds, once, ops[n]);
      logs := logs + [log];
    }
    GoneIsDetached(loop, fds, once);
  }

  // ----- the pass in which the record is freed -----

  /** The actions of once_cb_io or once_cb_to on the pending queues and the timers, followed by
      whatever the user's callback does with other watchers. */
  ghost predicate Releases(acts: seq<Action>, io: Watcher, to: Watcher) {
    && |acts| >= 3
    && (acts[0] == ClearPending(to) || acts[0] == ClearPending(io))
    && acts[1] == ClearPending(io) && acts[2] == TimerStop(to)
    && !EvLoop.Names(acts[3..], io) && !EvLoop.Names(acts[3..], to)
  }

  /** The scripts of a pass: those of the record's callbacks release it, the others do not name it. */
  ghost predicate Tame(scripts: seq<seq<Action>>, io: Watcher, to: Watcher) {
    forall i :: 0 <= i < |scripts| ==>
      Releases(scripts[i], io, to) || (!EvLoop.Names(scripts[i], io) && !EvLoop.Names(scripts[i], to))
  }

  /** Whenever one of the two watchers is invoked, its callback performs a releasing script. */
  ghost predicate Obeyed(log: seq<Invocation>, dummy: Watcher, scripts: seq<seq<Action>>, io: Watcher, to: Watcher) {
    forall t :: 0 <= t < |log| && (log[t].w == io || log[t].w == to) ==>
      var k := Callbacks(log[..t], dummy); k < |scripts| && Releases(scripts[k], io, to)
  }

  lemma ObeyedTail(log: seq<Invocation>, dummy: Watcher, scripts: seq<seq<Action>>, io: Watcher, to: Watcher)
    requires log != [] && Obeyed(log, dummy, scripts, io, to)
    ensures Obeyed(log[1..], dummy, if log[0].w == dummy || scripts == [] then scripts else scripts[1..], io, to)
  {
    var tail := log[1..];
    forall t | 0 <= t < |tail| && (tail[t].w == io || tail[t].w == to)
      ensures var k := Callbacks(tail[..t], dummy);
        var left := if log[0].w == dummy || scripts == [] then scripts else scripts[1..];
        k < |left| && Releases(left[k], io, to)
    {
      assert log[t + 1] == tail[t] && log[..t + 1][1..] == tail[..t];
    }
  }

  lemma {:induction false} UnnamedIsNotFed(acts: seq<Action>, w: Watcher)
    requires !EvLoop.Names(acts, w)
    ensures Fed(acts, w) == 0
    decreases |acts|
  {
    if acts != [] {
      assert forall i :: 0 <= i < |acts[1..]| ==> acts[1..][i] == acts[i + 1];
      UnnamedIsNotFed(acts[1..], w);
    }
  }

  lemma ClearedHasNoEntry(qs: Queues, dummy: Watcher, w: Watcher)
    requires w != dummy && Entered(qs[w.pri], w) <= 1
    ensures Entered(Clear(qs, dummy, w)[w.pri], w) == 0
  {
    var q := qs[w.pri];
    if Queued(q, w) {
      EnteredUpdate(q, Slot(q, w), Anpending(dummy, q[Slot(q, w)].events), w);
    } else {
      NoEntryNoCount(q, w);
    }
  }

  lemma {:induction false} NoEntryNoCount(q: seq<Anpending>, w: Watcher)
    ensures Entered(q, w) == 0 <==> !Queued(q, w)
  {
    if q != [] {
      var n := |q| - 1;
      NoEntryNoCount(q[..n], w);
      if Queued(q[..n], w) {
        var i :| 0 <= i < n && q[..n][i].w == w;
        assert q[i].w == w;
      }
      if Queued(q, w) && q[n].w != w {
        var i :| 0 <= i < |q| && q[i].w == w;
        assert q[..n][i].w == w;
      }
    }
  }

  lemma NoCountIsIdle(qs: Queues, dummy: Watcher, w: Watcher)
    requires InOwnQueue(qs, dummy) && w != dummy && Entered(qs[w.pri], w) == 0
    ensures Idle(qs, w)
  {
    NoEntryNoCount(qs[w.pri], w);
  }

  /** After a releasing script neither watcher is pending. */
  lemma ReleasedIsIdle(qs: Queues, dummy: Watcher, acts: seq<Action>, io: Watcher, to: Watcher)
    requires InOwnQueue(qs, dummy) && io != dummy && to != dummy && Releases(acts, io, to)
    requires Entered(qs[io.pri], io) <= 1 && Entered(qs[to.pri], to) <= 1
    ensures Idle(Effects(qs, dummy, acts), io) && Idle(Effects(qs, dummy, acts), to)
  {
    var q1: Queues := Effect(qs, dummy, acts[0]);
    var q2: Queues := Effect(q1, dummy, acts[1]);
    var q3: Queues := Effect(q2, dummy, acts[2]);
    EffectsUnfold(qs, dummy, acts);
    EffectEntered(qs, dummy, acts[0], io);
    EffectEntered(qs, dummy, acts[0], to);
    ClearedHasNoEntry(q1, dummy, io);
    EffectEntered(q1, dummy, acts[1], to);
    ClearedHasNoEntry(q2, dummy, to);
    EffectEntered(q2, dummy, acts[2], io);
    UnnamedIsNotFed(acts[3..], io);
    UnnamedIsNotFed(acts[3..], to);
    EffectsEntered(q3, dummy, acts[3..], io);
    EffectsEntered(q3, dummy, acts[3..], to);
    EffectsInOwnQueue(qs, dummy, acts);
    NoCountIsIdle(Effects(qs, dummy, acts), dummy, io);
    NoCountIsIdle(Effects(qs, dummy, acts), dummy, to);
  }

  lemma EffectsUnfold(qs: Queues, dummy: Watcher, acts: seq<Action>)
    requires |acts| >= 3
    ensures Effects(qs, dummy, acts)
         == Effects(Effect(Effect(Effect(qs, dummy, acts[0]), dummy, acts[1]), dummy, acts[2]), dummy, acts[3..])
    ensures !acts[0].FeedEvent? ==> forall w :: Fed([acts[0]], w) == 0
    ensures !acts[1].FeedEvent? ==> forall w :: Fed([acts[1]], w) == 0
    ensures !acts[2].FeedEvent? ==> forall w :: Fed([acts[2]], w) == 0
  {
    hide Effect, Effects;
    EffectsStep(qs, dummy, acts);
    EffectsStep(Effect(qs, dummy, acts[0]), dummy, acts[1..]);
    assert acts[1..][1..] == acts[2..] && acts[2..][1..] == acts[3..];
    EffectsStep(Effect(Effect(qs, dummy, acts[0]), dummy, acts[1]), dummy, acts[2..]);
  }

  lemma EffectsStep(qs: Queues, dummy: Watcher, acts: seq<Action>)
    requires acts != []
    ensures Effects(qs, dummy, acts) == Effects(Effect(qs, dummy, acts[0]), dummy, acts[1..])
  {
  }

  lemma TameIsUnfed(scripts: seq<seq<Action>>, io: Watcher, to: Watcher)
    requires Tame(scripts, io, to)
    ensures forall i :: 0 <= i < |scripts| ==> !Feeds(scripts[i], io) && !Feeds(scripts[i], to)
  {
    forall i, w | 0 <= i < |scripts| && (w == io || w == to) ensures !Feeds(scripts[i], w) {
      var acts := scripts[i];
      forall j | 0 <= j < |acts| ensures !(acts[j].FeedEvent? && acts[j].w == w) {
        if j >= 3 && Releases(acts, io, to) {
          assert acts[3..][j - 3] == acts[j];
        }
      }
    }
  }

  lemma TameFed(acts: seq<Action>, w: Watcher)
    requires !Feeds(acts, w)
    ensures Fed(acts, w) == 0
    decreases |acts|
  {
    if acts != [] {
      assert forall i :: 0 <= i < |acts[1..]| ==> acts[1..][i] == acts[i + 1];
      TameFed(acts[1..], w);
    }
  }

  lemma {:induction false} SilentCount(log: seq<Invocation>, w: Watcher)
    requires !Invoked(log, w)
    ensures Invocations(log, w) == 0
  {
    if log != [] {
      assert forall i :: 0 <= i < |log[1..]| ==> log[1..][i] == log[i + 1];
      SilentCount(log[1..], w);
    }
  }

  /** In one pass over the pending queues, at most one of the two watchers is invoked, and at most once. */
  lemma {:induction false} CalledAtMostOnce(qs: Queues, dummy: Watcher, scripts: seq<seq<Action>>, io: Watcher, to: Watcher)
    requires InOwnQueue(qs, dummy) && io != dummy && to != dummy && io != to
    requires Entered(qs[io.pri], io) <= 1 && Entered(qs[to.pri], to) <= 1
    requires Tame(scripts, io, to) && Obeyed(Run(qs, dummy, scripts), dummy, scripts, io, to)
    ensures var log := Run(qs, dummy, scripts); Invocations(log, io) + Invocations(log, to) <= 1
    decreases |scripts|, Total(qs)
  {
    var log := Run(qs, dummy, scripts);
    NothingRuns(qs, dummy, scripts);
    if log != [] {
      hide Effects, Run;
      var p := Highest(qs, NUMPRI);
      var s := |qs[p]| - 1;
      var e := qs[p][s];
      var rest := Pop(qs, p);
      RunUnfolds(qs, dummy, scripts);
      TotalUpdate(qs, p, qs[p][..s]);
      ObeyedTail(log, dummy, scripts, io, to);
      TameIsUnfed(scripts, io, to);
      PopEntered(qs, dummy, io);
      PopEntered(qs, dummy, to);
      if e.w == dummy || scripts == [] {
        assert e.w != io && e.w != to by { assert log[..0] == []; }
        CalledAtMostOnce(rest, dummy, scripts, io, to);
      } else {
        var next := Effects(rest, dummy, scripts[0]);
        EffectsInOwnQueue(rest, dummy, scripts[0]);
        if e.w == io || e.w == to {
          assert log[..0] == [];
          ReleasedIsIdle(rest, dummy, scripts[0], io, to);
          ClearedStaysSilent(next, dummy, scripts[1..], io);
          ClearedStaysSilent(next, dummy, scripts[1..], to);
          SilentCount(log[1..], io);
          SilentCount(log[1..], to);
        } else {
          TameFed(scripts[0], io);
          TameFed(scripts[0], to);
          EffectsEntered(rest, dummy, scripts[0], io);
          EffectsEntered(rest, dummy, scripts[0], to);
          CalledAtMostOnce(next, dummy, scripts[1..], io, to);
        }
      }
    }
  }

  lemma PopEntered(qs: Queues, dummy: Watcher, w: Watcher)
    requires Highest(qs, NUMPRI) >= 0 && InOwnQueue(qs, dummy)
    ensures var rest := Pop(qs, Highest(qs, NUMPRI));
      Entered(rest[w.pri], w) <= Entered(qs[w.pri], w) && InOwnQueue(rest, dummy)
  {
  }

  lemma {:induction false} PerformedStep(s: EvLoop.Timers, acts: seq<Action>, now: int)
    requires acts != [] && acts[0].w in s
    ensures EvLoop.Performed(s, acts, now)
         == EvLoop.Performed(s[acts[0].w := EvLoop.Acted(s[acts[0].w], acts[0], now)], acts[1..], now)
  {
  }

  /** A releasing script leaves the timer stopped, and the io watcher as it was. */
  lemma ReleaseStops(s: EvLoop.Timers, acts: seq<Action>, now: int, io: Watcher, to: Watcher)
    requires io in s && to in s && io != to && Releases(acts, io, to)
    ensures var t := EvLoop.Performed(s, acts, now); !t[to].active && t[io] == s[io]
  {
    hide EvLoop.Performed;
    var s1 := s[acts[0].w := EvLoop.Acted(s[acts[0].w], acts[0], now)];
    var s2 := s1[io := EvLoop.Acted(s1[io], acts[1], now)];
    var s3 := s2[to := EvLoop.Acted(s2[to], acts[2], now)];
    PerformedStep(s, acts, now);
    assert acts[1..][1..] == acts[2..] && acts[2..][1..] == acts[3..];
    PerformedStep(s1, acts[1..], now);
    PerformedStep(s2, acts[2..], now);
    EvLoop.PerformedKeeps(s3, acts[3..], now, io);
    EvLoop.PerformedKeeps(s3, acts[3..], now, to);
  }

  /** Once a releasing script has been performed, the timer stays stopped. */
  lemma {:induction false} ReleasedStaysStopped(s: EvLoop.Timers, scripts: seq<seq<Action>>, n: nat, now: int,
                                                io: Watcher, to: Watcher)
    requires io in s && to in s && io != to && n <= |scripts| && Tame(scripts, io, to)
    ensures var t := EvLoop.PerformedAll(s, scripts[..n], now);
      && t[io] == s[io]
      && ((exists k :: 0 <= k < n && Releases(scripts[k], io, to)) ==> !t[to].active)
    decreases n
  {
    if n > 0 {
      ReleasedStaysStopped(s, scripts, n - 1, now, io, to);
      EvLoop.PerformedOneMore(s, scripts, n - 1, now);
      var t := EvLoop.PerformedAll(s, scripts[..n - 1], now);
      if Releases(scripts[n - 1], io, to) {
        ReleaseStops(t, scripts[n - 1], now, io, to);
      } else {
        EvLoop.PerformedKeeps(t, scripts[n - 1], now, io);
        EvLoop.PerformedKeeps(t, scripts[n - 1], now, to);
      }
    }
  }

  lemma {:induction false} PrefixCallbacks(log: seq<Invocation>, t: nat, dummy: Watcher)
    requires t < |log| && log[t].w != dummy
    ensures Callbacks(log[..t], dummy) < Callbacks(log, dummy)
  {
    if t > 0 {
      assert log[1..][..t - 1] == log[..t][1..];
      PrefixCallbacks(log[1..], t - 1, dummy);
    } else {
      assert log[..0] == [];
    }
  }

  /** If a watcher of the record was invoked, a releasing script has been performed. */
  lemma InvokedReleases(log: seq<Invocation>, dummy: Watcher, scripts: seq<seq<Action>>, io: Watcher, to: Watcher)
    requires io != dummy && to != dummy && Obeyed(log, dummy, scripts, io, to)
    requires Invoked(log, io) || Invoked(log, to)
    ensures exists k :: 0 <= k < EvLoop.Used(log, dummy, scripts) && Releases(scripts[k], io, to)
  {
    var t :| 0 <= t < |log| && (log[t].w == io || log[t].w == to);
    PrefixCallbacks(log, t, dummy);
    var k := Callbacks(log[..t], dummy);
    assert Releases(scripts[k], io, to);
  }

  /** The loop iteration in which the callback runs: whatever else is dispatched, the record's callback
      runs at most once, and if it has run, both watchers are idle and the timer is stopped at the end. */
  method TickOnce(loop: EvLoop.Loop, once: Once, scripts: seq<seq<Action>>) returns (log: seq<Invocation>)
    requires loop.Valid() && loop.rfeeds == [] && ScriptsOk(scripts, loop.watchers)
    requires once.io in loop.watchers && once.to in loop.watchers && once.io != once.to && once.io.active == 0
    requires Tame(scripts, once.io, once.to)
    modifies loop`timers, loop`activecnt, loop`pendings, loop`pendingpri, loop`rfeeds
    modifies loop.watchers`active, loop.watchers`at, loop.watchers`pending, loop.watchers`repeat, loop.dummy`pending
    ensures loop.Valid() && loop.rfeeds == [] && once.io.active == 0
    ensures once.io.pending == 0 && once.to.pending == 0
    ensures Obeyed(log, loop.dummy, scripts, once.io, once.to) ==>
      && Invocations(log, once.io) + Invocations(log, once.to) <= 1
      && (Invoked(log, once.io) || Invoked(log, once.to) ==> once.to.active == 0)
  {
    ghost var qs, s := loop.pendings, loop.Snap();
    ghost var io, to := once.io, once.to;
    loop.PendingIsSolo(io);
    loop.PendingIsSolo(to);
    loop.EntriesInOwnQueue();
    hide EvLoop.Loop.Valid, EvLoop.Loop.Snap, EvLoop.PerformedAll, Run, Invoked, Tame, Obeyed, InOwnQueue, Solo,
         FeedReversed, ClearAll, EvLoop.OneShots, EvLoop.Used, Invocations, FedByAll, DispatchedBefore;
    loop.SnapAt(io);
    ghost var fired, passed, queued;
    fired, passed, queued, log := loop.Tick(scripts);
    ghost var n := EvLoop.Used(log, loop.dummy, scripts);
    assert io !in fired && passed[io] == s[io];
    ReleasedStaysStopped(passed, scripts, n, loop.mnNow, io, to);
    loop.SnapAt(io);
    loop.SnapAt(to);
    if Obeyed(log, loop.dummy, scripts, io, to) {
      QueuedSolo(qs, loop.dummy, EvLoop.OneShots(s, fired), fired, io);
      QueuedSolo(qs, loop.dummy, EvLoop.OneShots(s, fired), fired, to);
      QueuedInOwn(qs, loop.dummy, EvLoop.OneShots(s, fired), fired);
      CalledAtMostOnce(queued, loop.dummy, scripts, io, to);
      if Invoked(log, io) || Invoked(log, to) {
        InvokedReleases(log, loop.dummy, scripts, io, to);
      }
    }
  }

  /** Expiry leaves at most one entry for a watcher. */
  lemma QueuedSolo(qs: Queues, dummy: Watcher, stopped: seq<Watcher>, fired: seq<Watcher>, w: Watcher)
    requires Solo(qs[w.pri], w) && w != dummy
    ensures Entered(FeedReversed(ClearAll(qs, dummy, stopped), fired, {EV_TIMER})[w.pri], w) <= 1
  {
    ClearAllRemoves(qs, dummy, stopped, w);
    FedSolo(ClearAll(qs, dummy, stopped), fired, {EV_TIMER}, w);
    SoloEntered(FeedReversed(ClearAll(qs, dummy, stopped), fired, {EV_TIMER})[w.pri], w);
  }

  lemma QueuedInOwn(qs: Queues, dummy: Watcher, stopped: seq<Watcher>, fired: seq<Watcher>)
    requires InOwnQueue(qs, dummy)
    ensures InOwnQueue(FeedReversed(ClearAll(qs, dummy, stopped), fired, {EV_TIMER}), dummy)
  {
    ClearAllInOwn(qs, dummy, stopped);
    FedInOwn(ClearAll(qs, dummy, stopped), dummy, fired);
  }

  lemma {:induction false} ClearAllInOwn(qs: Queues, dummy: Watcher, ws: seq<Watcher>)
    requires InOwnQueue(qs, dummy)
    ensures InOwnQueue(ClearAll(qs, dummy, ws), dummy)
  {
    if ws != [] {
      ClearAllInOwn(qs, dummy, ws[..|ws| - 1]);
    }
  }

  lemma {:induction false} FedInOwn(qs: Queues, dummy: Watcher, ws: seq<Watcher>)
    requires InOwnQueue(qs, dummy)
    ensures InOwnQueue(FeedReversed(qs, ws, {EV_TIMER}), dummy)
    decreases |ws|
  {
    if ws != [] {
      FedInOwn(Feed(qs, ws[|ws| - 1], {EV_TIMER}), dummy, ws[..|ws| - 1]);
    }
  }
}
