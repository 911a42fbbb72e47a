/** The per-priority pending queues of libev, on values.

    Every queue is a stack of (watcher, events) entries.  Clearing a pending watcher does not
    shrink its stack: the entry is redirected to a dummy watcher whose callback does nothing. */
module PendingQueue {
  import opened EvBits

  const NUMPRI := 5   // EV_MAXPRI - EV_MINPRI + 1

  type Pri = p: nat | p < NUMPRI

  /** What a timer watcher and its loop store in the watcher structure. */
  class Watcher {
    const pri: Pri       // ABSPRI, fixed while the watcher is in use
    var pending: nat     // 0, or 1 + index into pendings[pri]
    var active: nat      // 0, or the watcher's slot in the timer heap
    var at: int          // absolute while active, relative otherwise
    var repeat: nat

    constructor (pri: Pri)
      ensures this.pri == pri
      ensures pending == 0 && active == 0
    {
      this.pri := pri;
      pending, active, at, repeat := 0, 0, 0, 0;
    }
  }

  datatype Anpending = Anpending(w: Watcher, events: Events)

  /** One stack for every priority. */
  type Queues = qs: seq<seq<Anpending>> | |qs| == NUMPRI witness [[], [], [], [], []]

  predicate Queued(q: seq<Anpending>, w: Watcher) {
    exists i :: 0 <= i < |q| && q[i].w == w
  }

  function Slot(q: seq<Anpending>, w: Watcher): (i: nat)
    requires Queued(q, w)
    ensures i < |q| && q[i].w == w
  {
    if q[|q| - 1].w == w then |q| - 1 else Slot(q[..|q| - 1], w)
  }

  function Feed(qs: Queues, w: Watcher, ev: Events): (r: Queues)
  {
    var q := qs[w.pri];
    if Queued(q, w) then qs[w.pri := q[Slot(q, w) := Anpending(w, q[Slot(q, w)].events + ev)]]
    else qs[w.pri := q + [Anpending(w, ev)]]
  }

  function Clear(qs: Queues, dummy: Watcher, w: Watcher): (r: Queues)
  {
    var q := qs[w.pri];
    if Queued(q, w) then qs[w.pri := q[Slot(q, w) := Anpending(dummy, q[Slot(q, w)].events)]] else qs
  }

  lemma {:induction false} SlotIs(q: seq<Anpending>, w: Watcher, i: nat)
    requires i < |q| && q[i].w == w
    requires forall j :: 0 <= j < |q| && q[j].w == w ==> j == i
    ensures Queued(q, w) && Slot(q, w) == i
  {
    if i < |q| - 1 {
      assert q[..|q| - 1][i] == q[i];
      SlotIs(q[..|q| - 1], w, i);
    }
  }

  /** What a callback can do to the loop while it runs. */
  datatype Action =
    | FeedEvent(w: Watcher, events: Events)
    | ClearPending(w: Watcher)
    | TimerStart(w: Watcher, after: int, repeat: nat)
    | TimerStop(w: Watcher)
    | TimerAgain(w: Watcher, repeat: nat)

  /** The part of an action that touches the pending queues. */
  function Effect(qs: Queues, dummy: Watcher, a: Action): (r: Queues)
  {
    match a
    case FeedEvent(w, ev) => Feed(qs, w, ev)
    case TimerStart(_, _, _) => qs
    case _ => Clear(qs, dummy, a.w)
  }

  ghost predicate ActionsOk(acts: seq<Action>, watchers: set<Watcher>) {
    forall i :: 0 <= i < |acts| ==> acts[i].w in watchers
  }

  function Effects(qs: Queues, dummy: Watcher, acts: seq<Action>): (r: Queues)
    decreases |acts|
  {
    if acts == [] then qs else Effects(Effect(qs, dummy, acts[0]), dummy, acts[1..])
  }

  function Total(qs: seq<seq<Anpending>>): nat {
    if qs == [] then 0 else |qs[0]| + Total(qs[1..])
  }

  lemma {:induction false} TotalUpdate(qs: seq<seq<Anpending>>, p: nat, q: seq<Anpending>)
    requires p < |qs|
    ensures Total(qs[p := q]) == Total(qs) - |qs[p]| + |q|
  {
    if p > 0 {
      assert qs[p := q][1..] == qs[1..][p - 1 := q];
      TotalUpdate(qs[1..], p - 1, q);
    } else {
      assert qs[0 := q][1..] == qs[1..];
    }
  }

  /** The highest priority among 0..n-1 with something pending, if any. */
  function Highest(qs: seq<seq<Anpending>>, n: nat): (p: int)
    requires n <= |qs|
    ensures -1 <= p < n
    ensures p >= 0 ==> qs[p] != []
    ensures forall i :: p < i < n ==> qs[i] == []
  {
    if n == 0 then -1 else if qs[n - 1] != [] then n - 1 else Highest(qs, n - 1)
  }

  lemma {:induction false} HighestIs(qs: seq<seq<Anpending>>, n: nat, p: nat)
    requires p < n <= |qs| && qs[p] != []
    requires forall i :: p < i < n ==> qs[i] == []
    ensures Highest(qs, n) == p
  {
    if p < n - 1 { HighestIs(qs, n - 1, p); }
  }

  /** One invocation: the watcher, its events, and the queue and position it was taken from. */
  datatype Invocation = Invocation(w: Watcher, events: Events, pri: nat, slot: nat)

  function Pop(qs: Queues, p: nat): (r: Queues)
    requires p < NUMPRI && qs[p] != []
  {
    qs[p := qs[p][..|qs[p]| - 1]]
  }

  ghost predicate ScriptsOk(scripts: seq<seq<Action>>, watchers: set<Watcher>) {
    forall i :: 0 <= i < |scripts| ==> ActionsOk(scripts[i], watchers)
  }

  /** The reference order of invocation: as long as anything is pending, invoke the entry on top
      of the highest nonempty queue.  The i-th callback that runs performs `scripts[i]`, the ones
      after that do nothing, so the runs described are exactly the terminating ones. */
  function Run(qs: Queues, dummy: Watcher, scripts: seq<seq<Action>>): (log: seq<Invocation>)
    decreases |scripts|, Total(qs)
  {
    var p := Highest(qs, NUMPRI);
    if p < 0 then []
    else
      var s := |qs[p]| - 1;
      var rest := Pop(qs, p);
      TotalUpdate(qs, p, qs[p][..s]);
      [Invocation(qs[p][s].w, qs[p][s].events, p, s)] +
      if qs[p][s].w == dummy || scripts == [] then Run(rest, dummy, scripts)
      else Run(Effects(rest, dummy, scripts[0]), dummy, scripts[1..])
  }

  // ----- what actions keep -----

  /** Slot i of queue p still belongs to the same watcher, or to nobody. */
  predicate SlotKept(a: Queues, b: Queues, dummy: Watcher, p: nat, i: nat)
    requires p < NUMPRI && i < |a[p]|
  {
    i < |b[p]| && (b[p][i].w == a[p][i].w || b[p][i].w == dummy)
  }

  lemma {:induction false} EffectsKeepSlots(qs: Queues, dummy: Watcher, acts: seq<Action>, p: nat, i: nat)
    requires p < NUMPRI && i < |qs[p]|
    ensures SlotKept(qs, Effects(qs, dummy, acts), dummy, p, i)
    decreases |acts|
  {
    if acts != [] {
      EffectsKeepSlots(Effect(qs, dummy, acts[0]), dummy, acts[1..], p, i);
    }
  }

  ghost predicate Idle(qs: Queues, w: Watcher) {
    forall p, i :: 0 <= p < NUMPRI && 0 <= i < |qs[p]| ==> qs[p][i].w != w
  }

  ghost predicate Feeds(acts: seq<Action>, w: Watcher) {
    exists i :: 0 <= i < |acts| && acts[i].FeedEvent? && acts[i].w == w
  }

  lemma {:induction false} EffectsKeepIdle(qs: Queues, dummy: Watcher, acts: seq<Action>, w: Watcher)
    requires Idle(qs, w) && w != dummy && !Feeds(acts, w)
    ensures Idle(Effects(qs, dummy, acts), w)
    decreases |acts|
  {
    if acts != [] {
      assert !(acts[0].FeedEvent? && acts[0].w == w);
      assert forall i :: 0 <= i < |acts[1..]| ==> acts[1..][i] == acts[i + 1];
      EffectsKeepIdle(Effect(qs, dummy, acts[0]), dummy, acts[1..], w);
    }
  }

  ghost predicate Invoked(log: seq<Invocation>, w: Watcher) {
    exists i :: 0 <= i < |log| && log[i].w == w
  }

  lemma RunUnfolds(qs: Queues, dummy: Watcher, scripts: seq<seq<Action>>)
    requires Highest(qs, NUMPRI) >= 0
    ensures var p := Highest(qs, NUMPRI);
            var s := |qs[p]| - 1;
            var log := Run(qs, dummy, scripts);
            log != [] && log[0] == Invocation(qs[p][s].w, qs[p][s].events, p, s)
            && log[1..] == if qs[p][s].w == dummy || scripts == [] then Run(Pop(qs, p), dummy, scripts)
                           else Run(Effects(Pop(qs, p), dummy, scripts[0]), dummy, scripts[1..])
  {
    hide Effects;
  }

  /** How many callbacks run in a log, not counting the dummy's. */
  function Callbacks(log: seq<Invocation>, dummy: Watcher): nat {
    if log == [] then 0 else (if log[0].w == dummy then 0 else 1) + Callbacks(log[1..], dummy)
  }

  lemma {:induction false} CallbacksNext(log: seq<Invocation>, inv: Invocation, dummy: Watcher)
    ensures Callbacks(log + [inv], dummy) == Callbacks(log, dummy) + if inv.w == dummy then 0 else 1
  {
    if log == [] {
      assert log + [inv] == [inv];
    } else {
      assert (log + [inv])[1..] == log[1..] + [inv];
      CallbacksNext(log[1..], inv, dummy);
    }
  }

  /** One of the first n scripts feeds w. */
  ghost predicate FedWithin(scripts: seq<seq<Action>>, n: nat, w: Watcher) {
    exists k :: 0 <= k < n && k < |scripts| && Feeds(scripts[k], w)
  }

  /** A watcher that is not pending, because it never was or because it was cleared, is invoked only
      after a callback has fed it: one of the callbacks that ran before. */
  lemma {:induction false} InvokedOnlyAfterFeed(qs: Queues, dummy: Watcher, scripts: seq<seq<Action>>, w: Watcher, t: nat)
    requires w != dummy && Idle(qs, w)
    requires t < |Run(qs, dummy, scripts)| && Run(qs, dummy, scripts)[t].w == w
    ensures FedWithin(scripts, Callbacks(Run(qs, dummy, scripts)[..t], dummy), w)
    decreases |scripts|, Total(qs)
  {
    hide Effects, Run;
    var log := Run(qs, dummy, scripts);
    NothingRuns(qs, dummy, scripts);
    var p := Highest(qs, NUMPRI);
    var s := |qs[p]| - 1;
    var rest := Pop(qs, p);
    TotalUpdate(qs, p, qs[p][..s]);
    RunUnfolds(qs, dummy, scripts);
    assert t > 0;
    assert log[..t][1..] == log[1..][..t - 1];
    if qs[p][s].w == dummy || scripts == [] {
      InvokedOnlyAfterFeed(rest, dummy, scripts, w, t - 1);
    } else if Feeds(scripts[0], w) {
    } else {
      EffectsKeepIdle(rest, dummy, scripts[0], w);
      var later := scripts[1..];
      InvokedOnlyAfterFeed(Effects(rest, dummy, scripts[0]), dummy, later, w, t - 1);
      var k :| 0 <= k < Callbacks(log[1..][..t - 1], dummy) && k < |later| && Feeds(later[k], w);
      assert Feeds(scripts[k + 1], w);
    }
  }

  lemma NothingRuns(qs: Queues, dummy: Watcher, scripts: seq<seq<Action>>)
    ensures Run(qs, dummy, scripts) == [] <==> Highest(qs, NUMPRI) < 0
  {
    hide Effects;
  }

  /** In particular, if no callback feeds it, it is not invoked at all. */
  lemma ClearedStaysSilent(qs: Queues, dummy: Watcher, scripts: seq<seq<Action>>, w: Watcher)
    requires w != dummy && Idle(qs, w)
    requires forall i :: 0 <= i < |scripts| ==> !Feeds(scripts[i], w)
    ensures !Invoked(Run(qs, dummy, scripts), w)
  {
    var log := Run(qs, dummy, scripts);
    forall t | 0 <= t < |log| ensures log[t].w != w {
      if log[t].w == w {
        InvokedOnlyAfterFeed(qs, dummy, scripts, w, t);
      }
    }
  }

  /** The first time position i of queue p is taken, or |log| if it never is. */
  function FirstPop(log: seq<Invocation>, p: nat, i: nat): (t: nat)
    ensures t <= |log|
    ensures t < |log| ==> log[t].pri == p && log[t].slot == i
  {
    if log == [] then 0
    else if log[0].pri == p && log[0].slot == i then 0
    else 1 + FirstPop(log[1..], p, i)
  }

  /** Whatever the callbacks feed, clear, start or stop, every entry that was pending at the start
      is taken exactly from the position it had, for the watcher it had unless that one was cleared. */
  lemma {:induction false} EntriesAreTaken(qs: Queues, dummy: Watcher, scripts: seq<seq<Action>>, p: nat, i: nat)
    requires p < NUMPRI && i < |qs[p]|
    ensures var log := Run(qs, dummy, scripts);
            var t := FirstPop(log, p, i);
            t < |log| && (log[t].w == qs[p][i].w || log[t].w == dummy)
    decreases |scripts|, Total(qs)
  {
    hide Effects, Run;
    var h := Highest(qs, NUMPRI);
    var s := |qs[h]| - 1;
    var rest := Pop(qs, h);
    TotalUpdate(qs, h, qs[h][..s]);
    RunUnfolds(qs, dummy, scripts);
    if !(h == p && s == i) {
      if qs[h][s].w == dummy || scripts == [] {
        EntriesAreTaken(rest, dummy, scripts, p, i);
      } else {
        EffectsKeepSlots(rest, dummy, scripts[0], p, i);
        EntriesAreTaken(Effects(rest, dummy, scripts[0]), dummy, scripts[1..], p, i);
      }
    }
  }

  /** Last in, first out, under arbitrary callbacks: of two entries of one queue the upper one goes first. */
  lemma {:induction false} LastInFirstOut(qs: Queues, dummy: Watcher, scripts: seq<seq<Action>>, p: nat, i: nat, j: nat)
    requires p < NUMPRI && i < j < |qs[p]|
    ensures var log := Run(qs, dummy, scripts);
            FirstPop(log, p, j) < FirstPop(log, p, i) < |log|
    decreases |scripts|, Total(qs)
  {
    hide Effects, Run;
    EntriesAreTaken(qs, dummy, scripts, p, i);
    var h := Highest(qs, NUMPRI);
    var s := |qs[h]| - 1;
    var rest := Pop(qs, h);
    TotalUpdate(qs, h, qs[h][..s]);
    RunUnfolds(qs, dummy, scripts);
    if !(h == p && s == j) {
      if qs[h][s].w == dummy || scripts == [] {
        LastInFirstOut(rest, dummy, scripts, p, i, j);
      } else {
        EffectsKeepSlots(rest, dummy, scripts[0], p, i);
        EffectsKeepSlots(rest, dummy, scripts[0], p, j);
        LastInFirstOut(Effects(rest, dummy, scripts[0]), dummy, scripts[1..], p, i, j);
      }
    }
  }

  /** Whatever the callbacks do, an entry of a higher priority goes before one of a lower priority. */
  lemma {:induction false} HigherPriorityFirst(qs: Queues, dummy: Watcher, scripts: seq<seq<Action>>, p: nat, i: nat, q: nat, j: nat)
    requires q < p < NUMPRI && i < |qs[p]| && j < |qs[q]|
    ensures var log := Run(qs, dummy, scripts);
            FirstPop(log, p, i) < FirstPop(log, q, j) < |log|
    decreases |scripts|, Total(qs)
  {
    hide Effects, Run;
    EntriesAreTaken(qs, dummy, scripts, q, j);
    var h := Highest(qs, NUMPRI);
    var s := |qs[h]| - 1;
    var rest := Pop(qs, h);
    TotalUpdate(qs, h, qs[h][..s]);
    RunUnfolds(qs, dummy, scripts);
    assert h >= p;
    if !(h == p && s == i) {
      if qs[h][s].w == dummy || scripts == [] {
        HigherPriorityFirst(rest, dummy, scripts, p, i, q, j);
      } else {
        EffectsKeepSlots(rest, dummy, scripts[0], p, i);
        EffectsKeepSlots(rest, dummy, scripts[0], q, j);
        HigherPriorityFirst(Effects(rest, dummy, scripts[0]), dummy, scripts[1..], p, i, q, j);
      }
    }
  }

  ghost predicate Clears(acts: seq<Action>, w: Watcher) {
    exists i :: 0 <= i < |acts| && !acts[i].FeedEvent? && !acts[i].TimerStart? && acts[i].w == w
  }

  /** w has at most one entry. */
  ghost predicate Solo(q: seq<Anpending>, w: Watcher) {
    forall i, j :: 0 <= i < j < |q| ==> !(q[i].w == w && q[j].w == w)
  }

  /** One of the first n scripts clears, stops or restarts w. */
  ghost predicate ClearedWithin(scripts: seq<seq<Action>>, n: nat, w: Watcher) {
    exists k :: 0 <= k < n && k < |scripts| && Clears(scripts[k], w)
  }

  /** All the events that a list of actions feeds to w. */
  function FedMask(acts: seq<Action>, w: Watcher): Events {
    if acts == [] then {}
    else (if acts[0].FeedEvent? && acts[0].w == w then acts[0].events else {}) + FedMask(acts[1..], w)
  }

  /** ... and the first n scripts. */
  function FedMaskWithin(scripts: seq<seq<Action>>, n: nat, w: Watcher): Events
    decreases |scripts|
  {
    if scripts == [] || n == 0 then {} else FedMask(scripts[0], w) + FedMaskWithin(scripts[1..], n - 1, w)
  }

  /** Step t of the log takes an entry of w, which had the events ev at the start, for w itself and with
      all that the callbacks that ran before have fed to it as well, unless one of these callbacks has
      cleared it, and for the dummy otherwise. */
  ghost predicate TakenExactly(log: seq<Invocation>, dummy: Watcher, scripts: seq<seq<Action>>, t: nat, w: Watcher, ev: Events) {
    && t < |log|
    && var n := Callbacks(log[..t], dummy);
    && (ClearedWithin(scripts, n, w) ==> log[t].w == dummy)
    && (!ClearedWithin(scripts, n, w) ==> log[t].w == w && log[t].events == ev + FedMaskWithin(scripts, n, w))
  }

  /** The only entry of w, while nobody clears it: feeding w merges into it. */
  lemma {:induction false} EffectsKeepSolo(qs: Queues, dummy: Watcher, acts: seq<Action>, p: nat, i: nat, w: Watcher)
    requires p < NUMPRI && i < |qs[p]| && qs[p][i].w == w && w.pri == p && w != dummy
    requires Solo(qs[p], w) && !Clears(acts, w)
    ensures var r := Effects(qs, dummy, acts)[p];
      i < |r| && r[i].w == w && Solo(r, w) && r[i].events == qs[p][i].events + FedMask(acts, w)
    decreases |acts|
  {
    if acts != [] {
      assert forall j :: 0 <= j < |acts[1..]| ==> acts[1..][j] == acts[j + 1];
      var next: Queues := Effect(qs, dummy, acts[0]);
      assert i < |next[p]| && next[p][i].w == w && Solo(next[p], w);
      assert next[p][i].events == qs[p][i].events + if acts[0].FeedEvent? && acts[0].w == w then acts[0].events else {};
      EffectsKeepSolo(next, dummy, acts[1..], p, i, w);
    }
  }

  /** The only entry of w, once somebody clears it. */
  lemma {:induction false} EffectsClear(qs: Queues, dummy: Watcher, acts: seq<Action>, p: nat, i: nat, w: Watcher)
    requires p < NUMPRI && i < |qs[p]| && qs[p][i].w == w && w.pri == p && w != dummy
    requires Solo(qs[p], w) && Clears(acts, w)
    ensures var r := Effects(qs, dummy, acts)[p]; i < |r| && r[i].w == dummy
    decreases |acts|
  {
    var next: Queues := Effect(qs, dummy, acts[0]);
    if !acts[0].FeedEvent? && !acts[0].TimerStart? && acts[0].w == w {
      assert next[p][i].w == dummy;
      EffectsKeepSlots(next, dummy, acts[1..], p, i);
    } else {
      assert Clears(acts[1..], w) by {
        var k :| 0 <= k < |acts| && !acts[k].FeedEvent? && !acts[k].TimerStart? && acts[k].w == w;
        assert acts[1..][k - 1] == acts[k];
      }
      assert i < |next[p]| && next[p][i].w == w && Solo(next[p], w);
      EffectsClear(next, dummy, acts[1..], p, i, w);
    }
  }

  /** The first script cleared w, or the same goes for the scripts after it. */
  lemma ClearedLater(scripts: seq<seq<Action>>, n: nat, w: Watcher)
    requires scripts != []
    ensures ClearedWithin(scripts, n + 1, w) <==> Clears(scripts[0], w) || ClearedWithin(scripts[1..], n, w)
  {
    var later := scripts[1..];
    if ClearedWithin(later, n, w) {
      var k :| 0 <= k < n && k < |later| && Clears(later[k], w);
      assert scripts[k + 1] == later[k];
    }
    if ClearedWithin(scripts, n + 1, w) && !Clears(scripts[0], w) {
      var k :| 0 <= k < n + 1 && k < |scripts| && Clears(scripts[k], w);
      assert later[k - 1] == scripts[k];
    }
  }

  /** A pending watcher is invoked for its entry if and only if none of the callbacks that run before
      clears, stops or restarts it; what later callbacks do, its own included, does not matter. */
  lemma {:induction false} InvokedUnlessCleared(qs: Queues, dummy: Watcher, scripts: seq<seq<Action>>, p: nat, i: nat)
    requires p < NUMPRI && i < |qs[p]| && qs[p][i].w != dummy && qs[p][i].w.pri == p && Solo(qs[p], qs[p][i].w)
    ensures var log := Run(qs, dummy, scripts);
            TakenExactly(log, dummy, scripts, FirstPop(log, p, i), qs[p][i].w, qs[p][i].events)
    decreases |scripts|, Total(qs)
  {
    hide Effects, Run, Clears, ClearedWithin, FedMask;
    var w := qs[p][i].w;
    var log := Run(qs, dummy, scripts);
    var h := Highest(qs, NUMPRI);
    var s := |qs[h]| - 1;
    var rest := Pop(qs, h);
    TotalUpdate(qs, h, qs[h][..s]);
    RunUnfolds(qs, dummy, scripts);
    EntriesAreTaken(qs, dummy, scripts, p, i);
    var t := FirstPop(log, p, i);
    if h == p && s == i {
      assert log[..0] == [];
      NoneCleared(scripts, w);
      assert qs[p][i].events + {} == qs[p][i].events;
    } else {
      assert log[..t][1..] == log[1..][..t - 1];
      if qs[h][s].w == dummy || scripts == [] {
        InvokedUnlessCleared(rest, dummy, scripts, p, i);
        NoScripts(scripts, w);
      } else {
        ClearedLater(scripts, Callbacks(log[1..][..t - 1], dummy), w);
        if Clears(scripts[0], w) {
          EffectsClear(rest, dummy, scripts[0], p, i, w);
          EntriesAreTaken(Effects(rest, dummy, scripts[0]), dummy, scripts[1..], p, i);
        } else {
          EffectsKeepSolo(rest, dummy, scripts[0], p, i, w);
          InvokedUnlessCleared(Effects(rest, dummy, scripts[0]), dummy, scripts[1..], p, i);
        }
      }
    }
  }

  lemma NoneCleared(scripts: seq<seq<Action>>, w: Watcher)
    ensures !ClearedWithin(scripts, 0, w)
  {
  }

  lemma NoScripts(scripts: seq<seq<Action>>, w: Watcher)
    ensures scripts == [] ==> forall n: nat :: !ClearedWithin(scripts, n, w) && FedMaskWithin(scripts, n, w) == {}
  {
  }

  // ----- at most one invocation per feed -----

  function Entered(q: seq<Anpending>, w: Watcher): nat {
    if q == [] then 0 else Entered(q[..|q| - 1], w) + if q[|q| - 1].w == w then 1 else 0
  }

  function Fed(acts: seq<Action>, w: Watcher): nat {
    if acts == [] then 0 else (if acts[0].FeedEvent? && acts[0].w == w then 1 else 0) + Fed(acts[1..], w)
  }

  function FedByAll(scripts: seq<seq<Action>>, w: Watcher): nat {
    if scripts == [] then 0 else Fed(scripts[0], w) + FedByAll(scripts[1..], w)
  }

  function Invocations(log: seq<Invocation>, w: Watcher): nat {
    if log == [] then 0 else (if log[0].w == w then 1 else 0) + Invocations(log[1..], w)
  }

  lemma {:induction false} EnteredUpdate(q: seq<Anpending>, i: nat, e: Anpending, w: Watcher)
    requires i < |q|
    ensures Entered(q[i := e], w) == Entered(q, w) - (if q[i].w == w then 1 else 0) + (if e.w == w then 1 else 0)
  {
    var n := |q| - 1;
    if i == n {
      assert q[i := e][..n] == q[..n];
    } else {
      assert q[i := e][..n] == q[..n][i := e];
      EnteredUpdate(q[..n], i, e, w);
    }
  }

  /** Only a feed of w itself adds an entry for w, and at most one. */
  lemma EffectEntered(qs: Queues, dummy: Watcher, a: Action, w: Watcher)
    requires w != dummy
    ensures Entered(Effect(qs, dummy, a)[w.pri], w) <= Entered(qs[w.pri], w) + Fed([a], w)
  {
    var q := qs[a.w.pri];
    assert Fed([a], w) == if a.FeedEvent? && a.w == w then 1 else 0;
    if !a.TimerStart? {
      if Queued(q, a.w) {
        var i := Slot(q, a.w);
        EnteredUpdate(q, i, Anpending(dummy, q[i].events), w);
        if a.FeedEvent? {
          EnteredUpdate(q, i, Anpending(a.w, q[i].events + a.events), w);
        }
      } else if a.FeedEvent? {
        var e := Anpending(a.w, a.events);
        assert (q + [e])[..|q|] == q;
      }
    }
  }

  lemma {:induction false} EffectsEntered(qs: Queues, dummy: Watcher, acts: seq<Action>, w: Watcher)
    requires w != dummy
    ensures Entered(Effects(qs, dummy, acts)[w.pri], w) <= Entered(qs[w.pri], w) + Fed(acts, w)
    decreases |acts|
  {
    if acts != [] {
      EffectEntered(qs, dummy, acts[0], w);
      EffectsEntered(Effect(qs, dummy, acts[0]), dummy, acts[1..], w);
    }
  }

  ghost predicate InOwnQueue(qs: Queues, dummy: Watcher) {
    forall p, i :: 0 <= p < NUMPRI && 0 <= i < |qs[p]| ==> qs[p][i].w == dummy || qs[p][i].w.pri == p
  }

  lemma {:induction false} EffectsInOwnQueue(qs: Queues, dummy: Watcher, acts: seq<Action>)
    requires InOwnQueue(qs, dummy)
    ensures InOwnQueue(Effects(qs, dummy, acts), dummy)
    decreases |acts|
  {
    if acts != [] {
      EffectsInOwnQueue(Effect(qs, dummy, acts[0]), dummy, acts[1..]);
    }
  }

  /** However the callbacks interfere, a watcher is invoked at most once for the entry it had
      and once for every time it is fed while the run lasts. */
  lemma {:induction false} AtMostOncePerFeed(qs: Queues, dummy: Watcher, scripts: seq<seq<Action>>, w: Watcher)
    requires InOwnQueue(qs, dummy) && w != dummy
    ensures Invocations(Run(qs, dummy, scripts), w) <= Entered(qs[w.pri], w) + FedByAll(scripts, w)
    decreases |scripts|, Total(qs)
  {
    hide Effects;
    var p := Highest(qs, NUMPRI);
    if p >= 0 {
      var s := |qs[p]| - 1;
      var rest := Pop(qs, p);
      TotalUpdate(qs, p, qs[p][..s]);
      var e := qs[p][s];
      assert e.w == w ==> p == w.pri;
      assert Entered(rest[w.pri], w) == Entered(qs[w.pri], w) - if e.w == w then 1 else 0;
      var next := if e.w == dummy || scripts == [] then rest else Effects(rest, dummy, scripts[0]);
      var left := if e.w == dummy || scripts == [] then scripts else scripts[1..];
      if !(e.w == dummy || scripts == []) {
        EffectsEntered(rest, dummy, scripts[0], w);
        EffectsInOwnQueue(rest, dummy, scripts[0]);
      }
      AtMostOncePerFeed(next, dummy, left, w);
      var log := Run(next, dummy, left);
      assert Run(qs, dummy, scripts) == [Invocation(e.w, e.events, p, s)] + log;
    }
  }

  // ----- feeding the expired timers -----

  /** Feeds the watchers from the last one to the first one. */
  function FeedReversed(qs: Queues, ws: seq<Watcher>, ev: Events): (r: Queues)
    decreases |ws|
  {
    if ws == [] then qs else FeedReversed(Feed(qs, ws[|ws| - 1], ev), ws[..|ws| - 1], ev)
  }

  function ClearAll(qs: Queues, dummy: Watcher, ws: seq<Watcher>): (r: Queues)
  {
    if ws == [] then qs else Clear(ClearAll(qs, dummy, ws[..|ws| - 1]), dummy, ws[|ws| - 1])
  }

  lemma ClearAllStep(qs: Queues, dummy: Watcher, ws: seq<Watcher>, w: Watcher)
    ensures ClearAll(qs, dummy, ws + [w]) == Clear(ClearAll(qs, dummy, ws), dummy, w)
  {
    assert (ws + [w])[..|ws|] == ws;
  }

  lemma {:induction false} FedKeepsSlots(qs: Queues, ws: seq<Watcher>, ev: Events, p: nat, i: nat)
    requires p < NUMPRI && i < |qs[p]|
    ensures var r := FeedReversed(qs, ws, ev); i < |r[p]| && r[p][i].w == qs[p][i].w
    decreases |ws|
  {
    if ws != [] {
      var n := |ws| - 1;
      FedKeepsSlots(Feed(qs, ws[n], ev), ws[..n], ev, p, i);
    }
  }

  /** A watcher that was not pending ends up above everything that was. */
  lemma {:induction false} FreshGoesOnTop(qs: Queues, ws: seq<Watcher>, ev: Events, i: nat) returns (si: nat)
    requires forall k, l :: 0 <= k < l < |ws| ==> ws[k] != ws[l]
    requires i < |ws| && !Queued(qs[ws[i].pri], ws[i])
    ensures var r := FeedReversed(qs, ws, ev)[ws[i].pri]; |qs[ws[i].pri]| <= si < |r| && r[si].w == ws[i]
    decreases |ws|
  {
    var n := |ws| - 1;
    var next := Feed(qs, ws[n], ev);
    var p := ws[i].pri;
    if i == n {
      si := |qs[p]|;
      FedKeepsSlots(next, ws[..n], ev, p, si);
    } else {
      assert !Queued(next[p], ws[i]);
      si := FreshGoesOnTop(next, ws[..n], ev, i);
    }
  }

  /** Feeding in reverse puts the earlier watcher of a list above the later one. */
  lemma {:induction false} EarlierGoesHigher(qs: Queues, ws: seq<Watcher>, ev: Events, i: nat, j: nat) returns (si: nat, sj: nat)
    requires forall k, l :: 0 <= k < l < |ws| ==> ws[k] != ws[l]
    requires i < j < |ws| && ws[i].pri == ws[j].pri
    requires !Queued(qs[ws[i].pri], ws[i]) && !Queued(qs[ws[j].pri], ws[j])
    ensures var r := FeedReversed(qs, ws, ev)[ws[i].pri]; sj < si < |r| && r[si].w == ws[i] && r[sj].w == ws[j]
    decreases |ws|
  {
    var n := |ws| - 1;
    var next := Feed(qs, ws[n], ev);
    var p := ws[i].pri;
    assert !Queued(next[p], ws[i]);
    if j == n {
      sj := |qs[p]|;
      FedKeepsSlots(next, ws[..n], ev, p, sj);
      si := FreshGoesOnTop(next, ws[..n], ev, i);
    } else {
      assert !Queued(next[p], ws[j]);
      si, sj := EarlierGoesHigher(next, ws[..n], ev, i, j);
    }
  }

  /** w has an entry, and that is taken for w itself if and only if no callback that runs before has
      cleared it. */
  ghost predicate Dispatched(qs: Queues, dummy: Watcher, scripts: seq<seq<Action>>, w: Watcher) {
    var log := Run(qs, dummy, scripts);
    exists i: nat ::
      && i < |qs[w.pri]| && qs[w.pri][i].w == w
      && TakenExactly(log, dummy, scripts, FirstPop(log, w.pri, i), w, qs[w.pri][i].events)
  }

  /** Both watchers have an entry, a's is taken before b's, and each is taken for its watcher if and
      only if no callback that runs before has cleared it. */
  ghost predicate DispatchedBefore(qs: Queues, dummy: Watcher, scripts: seq<seq<Action>>, a: Watcher, b: Watcher) {
    var log := Run(qs, dummy, scripts);
    exists i: nat, j: nat ::
      && i < |qs[a.pri]| && qs[a.pri][i].w == a
      && j < |qs[b.pri]| && qs[b.pri][j].w == b
      && FirstPop(log, a.pri, i) < FirstPop(log, b.pri, j) < |log|
      && TakenExactly(log, dummy, scripts, FirstPop(log, a.pri, i), a, qs[a.pri][i].events)
      && TakenExactly(log, dummy, scripts, FirstPop(log, b.pri, j), b, qs[b.pri][j].events)
  }

  /** Every pending watcher is dispatched. */
  lemma QueuedIsDispatched(qs: Queues, dummy: Watcher, scripts: seq<seq<Action>>, w: Watcher)
    requires w != dummy && Queued(qs[w.pri], w) && Solo(qs[w.pri], w)
    ensures Dispatched(qs, dummy, scripts, w)
  {
    hide Run, TakenExactly;
    InvokedUnlessCleared(qs, dummy, scripts, w.pri, Slot(qs[w.pri], w));
  }

  /** The callback that performs script k. */
  lemma {:induction false} KthCallback(log: seq<Invocation>, n: nat, dummy: Watcher, k: nat) returns (t: nat)
    requires n <= |log| && k < Callbacks(log[..n], dummy)
    ensures t < n && log[t].w != dummy && Callbacks(log[..t], dummy) == k
    decreases n
  {
    var front, last := log[..n - 1], log[n - 1];
    assert log[..n] == front + [last];
    CallbacksNext(front, last, dummy);
    if k < Callbacks(front, dummy) {
      t := KthCallback(log, n - 1, dummy, k);
    } else {
      t := n - 1;
    }
  }

  /** Step t of the log is the callback of another watcher, and clears, stops or restarts w. */
  ghost predicate ClearsOther(log: seq<Invocation>, dummy: Watcher, scripts: seq<seq<Action>>, t: nat, w: Watcher)
    requires t < |log|
  {
    var k := Callbacks(log[..t], dummy);
    log[t].w != dummy && log[t].w != w && k < |scripts| && Clears(scripts[k], w)
  }

  /** A dispatched watcher is invoked if the only callbacks that clear, stop or restart it are its own. */
  lemma OwnCallbackMayStop(qs: Queues, dummy: Watcher, scripts: seq<seq<Action>>, w: Watcher)
    requires Dispatched(qs, dummy, scripts, w)
    requires forall t :: 0 <= t < |Run(qs, dummy, scripts)| ==> !ClearsOther(Run(qs, dummy, scripts), dummy, scripts, t, w)
    ensures Invoked(Run(qs, dummy, scripts), w)
  {
    hide Run, Clears;
    var log := Run(qs, dummy, scripts);
    var i: nat :| i < |qs[w.pri]| && qs[w.pri][i].w == w && TakenExactly(log, dummy, scripts, FirstPop(log, w.pri, i), w, qs[w.pri][i].events);
    var n := FirstPop(log, w.pri, i);
    if ClearedWithin(scripts, Callbacks(log[..n], dummy), w) {
      var k :| 0 <= k < Callbacks(log[..n], dummy) && k < |scripts| && Clears(scripts[k], w);
      var t := KthCallback(log, n, dummy, k);
      assert !ClearsOther(log, dummy, scripts, t, w);
      assert log[t].w == w;
    } else {
      assert log[n].w == w;
    }
  }

  /** Feeding a list in reverse and popping the stacks dispatches it in list order. */
  lemma FeedOrderIsDispatchOrder(qs: Queues, ws: seq<Watcher>, ev: Events, dummy: Watcher, scripts: seq<seq<Action>>, i: nat, j: nat)
    requires forall k, l :: 0 <= k < l < |ws| ==> ws[k] != ws[l]
    requires i < j < |ws| && ws[i].pri == ws[j].pri && ws[i] != dummy && ws[j] != dummy
    requires !Queued(qs[ws[i].pri], ws[i]) && !Queued(qs[ws[j].pri], ws[j])
    ensures DispatchedBefore(FeedReversed(qs, ws, ev), dummy, scripts, ws[i], ws[j])
  {
    hide Run, FeedReversed, TakenExactly;
    var r := FeedReversed(qs, ws, ev);
    var p := ws[i].pri;
    var si, sj := EarlierGoesHigher(qs, ws, ev, i, j);
    LastInFirstOut(r, dummy, scripts, p, sj, si);
    FedSolo(qs, ws, ev, ws[i]);
    FedSolo(qs, ws, ev, ws[j]);
    InvokedUnlessCleared(r, dummy, scripts, p, si);
    InvokedUnlessCleared(r, dummy, scripts, p, sj);
  }

  // ----- entries of one watcher -----

  lemma {:induction false} SoloEntered(q: seq<Anpending>, w: Watcher)
    requires Solo(q, w)
    ensures Entered(q, w) == if Queued(q, w) then 1 else 0
  {
    if q != [] {
      var n := |q| - 1;
      SoloEntered(q[..n], w);
      if q[n].w == w {
        assert !Queued(q[..n], w);
        assert Queued(q, w);
      } else if Queued(q[..n], w) {
        var i :| 0 <= i < |q[..n]| && q[..n][i].w == w;
        assert q[i].w == w;
      } else {
        assert !Queued(q, w) by {
          assert forall i :: 0 <= i < n ==> q[..n][i] == q[i];
        }
      }
    }
  }

  /** Clearing removes the only entry of w and adds none for anybody else. */
  lemma {:induction false} ClearAllRemoves(qs: Queues, dummy: Watcher, ws: seq<Watcher>, w: Watcher)
    requires w != dummy && Solo(qs[w.pri], w)
    ensures var q := ClearAll(qs, dummy, ws)[w.pri];
            Solo(q, w) && (w in ws || !Queued(qs[w.pri], w) ==> !Queued(q, w))
  {
    if ws != [] {
      var n := |ws| - 1;
      ClearAllRemoves(qs, dummy, ws[..n], w);
      assert w in ws <==> w in ws[..n] || w == ws[n];
    }
  }

  lemma {:induction false} FedSolo(qs: Queues, ws: seq<Watcher>, ev: Events, w: Watcher)
    requires Solo(qs[w.pri], w)
    ensures Solo(FeedReversed(qs, ws, ev)[w.pri], w)
    decreases |ws|
  {
    if ws != [] {
      var n := |ws| - 1;
      FedSolo(Feed(qs, ws[n], ev), ws[..n], ev, w);
    }
  }

  lemma {:induction false} FedIsQueued(qs: Queues, ws: seq<Watcher>, ev: Events, w: Watcher)
    requires Queued(qs[w.pri], w) || w in ws
    ensures Queued(FeedReversed(qs, ws, ev)[w.pri], w)
    decreases |ws|
  {
    if ws != [] {
      var n := |ws| - 1;
      assert w in ws ==> w in ws[..n] || w == ws[n];
      FeedQueues(qs, ws[n], ev, w);
      FedIsQueued(Feed(qs, ws[n], ev), ws[..n], ev, w);
    }
  }

  /** The events of the entry of w. */
  function MaskOf(q: seq<Anpending>, w: Watcher): Events {
    if Queued(q, w) then q[Slot(q, w)].events else {}
  }

  /** After a feed, the entry of the watcher has these events besides those it had; nobody else's changes. */
  lemma FeedMasks(qs: Queues, v: Watcher, ev: Events, w: Watcher)
    requires Solo(qs[w.pri], w)
    ensures var r := Feed(qs, v, ev);
      Solo(r[w.pri], w) && MaskOf(r[w.pri], w) == MaskOf(qs[w.pri], w) + if v == w then ev else {}
  {
    var q, r := qs[w.pri], Feed(qs, v, ev)[w.pri];
    if Queued(q, w) {
      var i := Slot(q, w);
      SlotIs(r, w, i);
    } else if v == w {
      SlotIs(r, w, |q|);
    } else {
      assert !Queued(r, w);
    }
  }

  /** Everybody who is fed has the events in the end, and what he had before. */
  lemma {:induction false} FedHasMask(qs: Queues, ws: seq<Watcher>, ev: Events, w: Watcher)
    requires Solo(qs[w.pri], w)
    ensures MaskOf(FeedReversed(qs, ws, ev)[w.pri], w) == MaskOf(qs[w.pri], w) + if w in ws then ev else {}
    decreases |ws|
  {
    if ws != [] {
      var n := |ws| - 1;
      assert w in ws <==> w in ws[..n] || w == ws[n];
      FeedMasks(qs, ws[n], ev, w);
      FedHasMask(Feed(qs, ws[n], ev), ws[..n], ev, w);
    }
  }

  lemma FeedQueues(qs: Queues, v: Watcher, ev: Events, w: Watcher)
    ensures Queued(qs[w.pri], w) || w == v ==> Queued(Feed(qs, v, ev)[w.pri], w)
  {
    var r := Feed(qs, v, ev);
    if Queued(qs[w.pri], w) {
      var i :| 0 <= i < |qs[w.pri]| && qs[w.pri][i].w == w;
      assert r[w.pri][i].w == w;
    } else if w == v {
      assert r[w.pri][|qs[w.pri]|].w == w;
    }
  }

  /** Clearing adds no entry, and feeding others adds none for w. */
  lemma {:induction false} ClearAllKeepsIdle(qs: Queues, dummy: Watcher, ws: seq<Watcher>, w: Watcher)
    requires Idle(qs, w) && w != dummy
    ensures Idle(ClearAll(qs, dummy, ws), w)
    decreases |ws|
  {
    if ws != [] {
      ClearAllKeepsIdle(qs, dummy, ws[..|ws| - 1], w);
    }
  }

  lemma {:induction false} FedKeepsIdle(qs: Queues, ws: seq<Watcher>, ev: Events, w: Watcher)
    requires Idle(qs, w) && w !in ws
    ensures Idle(FeedReversed(qs, ws, ev), w)
    decreases |ws|
  {
    if ws != [] {
      assert ws[|ws| - 1] in ws;
      FedKeepsIdle(Feed(qs, ws[|ws| - 1], ev), ws[..|ws| - 1], ev, w);
    }
  }
}
