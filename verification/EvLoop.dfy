/** The part of a libev loop that owns timers and pending events, updated in place. */
module EvLoop {
  import opened EvBits
  import opened TimerHeap
  import opened PendingQueue

  /** The watchers that have a heap entry. */
  ghost function Members(es: set<Anhe<Watcher>>): set<Watcher> {
    set e | e in es :: e.w
  }

  /** The timer part of a watcher, as a value. */
  datatype Timer = Timer(at: int, repeat: nat, active: bool)

  type Timers = map<Watcher, Timer>

  function Started(t: Timer, now: int): Timer {
    if t.active then t else t.(at := t.at + now, active := true)
  }

  function Stopped(t: Timer, now: int): Timer {
    if t.active then t.(at := t.at - now, active := false) else t
  }

  function Again(t: Timer, now: int): Timer {
    if t.repeat != 0 then t.(at := now + t.repeat, active := true) else Stopped(t, now)
  }

  /** What an expiry makes of a timer: a repeating one gets a deadline that is not yet due. */
  function Fired(t: Timer, now: int): Timer {
    if t.repeat == 0 then Stopped(t, now)
    else t.(at := if t.at + t.repeat < now then now else t.at + t.repeat)
  }

  /** What an action makes of the timer of its watcher. */
  function Acted(t: Timer, a: Action, now: int): Timer {
    match a
    case TimerStart(_, after, repeat) => Started(if t.active then t else Timer(after, repeat, false), now)
    case TimerStop(_) => Stopped(t, now)
    case TimerAgain(_, repeat) => Again(t.(repeat := repeat), now)
    case _ => t
  }

  /** What a list of actions makes of all timers. */
  ghost function Performed(s: Timers, acts: seq<Action>, now: int): (t: Timers)
    ensures t.Keys == s.Keys
  {
    if acts == [] then s
    else
      var w := acts[0].w;
      Performed(if w in s then s[w := Acted(s[w], acts[0], now)] else s, acts[1..], now)
  }

  /** ... and what a list of callbacks makes of them, one after the other. */
  ghost function PerformedAll(s: Timers, scripts: seq<seq<Action>>, now: int): (t: Timers)
    ensures t.Keys == s.Keys
  {
    if scripts == [] then s
    else Performed(PerformedAll(s, scripts[..|scripts| - 1], now), scripts[|scripts| - 1], now)
  }

  lemma PerformedOneMore(s: Timers, scripts: seq<seq<Action>>, k: nat, now: int)
    requires k < |scripts|
    ensures PerformedAll(s, scripts[..k + 1], now) == Performed(PerformedAll(s, scripts[..k], now), scripts[k], now)
  {
    assert scripts[..k + 1][..k] == scripts[..k];
  }

  ghost predicate Names(acts: seq<Action>, w: Watcher) {
    exists i :: 0 <= i < |acts| && acts[i].w == w
  }

  ghost predicate NamedBySome(scripts: seq<seq<Action>>, w: Watcher) {
    exists i :: 0 <= i < |scripts| && Names(scripts[i], w)
  }

  lemma {:induction false} PerformedKeeps(s: Timers, acts: seq<Action>, now: int, w: Watcher)
    requires w in s && !Names(acts, w)
    ensures Performed(s, acts, now)[w] == s[w]
    decreases |acts|
  {
    if acts != [] {
      var v := acts[0].w;
      assert forall i :: 0 <= i < |acts[1..]| ==> acts[1..][i] == acts[i + 1];
      PerformedKeeps(if v in s then s[v := Acted(s[v], acts[0], now)] else s, acts[1..], now, w);
    }
  }

  /** A timer that no callback names is left alone. */
  lemma {:induction false} UnnamedIsKept(s: Timers, scripts: seq<seq<Action>>, n: nat, now: int, w: Watcher)
    requires w in s && n <= |scripts| && !NamedBySome(scripts, w)
    ensures PerformedAll(s, scripts[..n], now)[w] == s[w]
    decreases n
  {
    if n > 0 {
      UnnamedIsKept(s, scripts, n - 1, now, w);
      PerformedOneMore(s, scripts, n - 1, now);
      PerformedKeeps(PerformedAll(s, scripts[..n - 1], now), scripts[n - 1], now, w);
    }
  }

  /** How many of the scripts the callbacks of a log have performed. */
  function Used(log: seq<Invocation>, dummy: Watcher, scripts: seq<seq<Action>>): (n: nat)
    ensures n <= |scripts|
  {
    if Callbacks(log, dummy) < |scripts| then Callbacks(log, dummy) else |scripts|
  }

  lemma NothingUsed(dummy: Watcher, scripts: seq<seq<Action>>, s: Timers, now: int)
    ensures Used([], dummy, scripts) == 0 && scripts[0..] == scripts
    ensures PerformedAll(s, scripts[..0], now) == s
  {
  }

  lemma UsedNext(log: seq<Invocation>, inv: Invocation, dummy: Watcher, scripts: seq<seq<Action>>)
    ensures Used(log + [inv], dummy, scripts)
         == if inv.w != dummy && Used(log, dummy, scripts) < |scripts| then Used(log, dummy, scripts) + 1
            else Used(log, dummy, scripts)
  {
    CallbacksNext(log, inv, dummy);
  }

  predicate Due(t: Timer, now: int) {
    t.active && t.at < now
  }

  /** The listed watchers were due and have fired, each once; the others are untouched. */
  ghost predicate PassDone(s: Timers, t: Timers, ws: seq<Watcher>, now: int) {
    && s.Keys == t.Keys
    && (forall w :: w in s ==> t[w] == if w in ws then Fired(s[w], now) else s[w])
    && (forall w :: w in ws ==> w in s && Due(s[w], now))
    && (forall i, j :: 0 <= i < j < |ws| ==> ws[i] != ws[j])
  }

  /** What happens to a timer that fires: one without repeat is stopped; a repeating one is due again one
      repeat after it was due, or right away if that is in the past. */
  predicate Rescheduled(s: Timer, t: Timer, now: int) {
    && t.repeat == s.repeat
    && (s.repeat == 0 ==> !t.active)
    && (s.repeat != 0 ==> t.active && (if s.at + s.repeat >= now then t.at == s.at + s.repeat else t.at == now))
  }

  lemma PassReschedules(s: Timers, t: Timers, ws: seq<Watcher>, now: int)
    requires PassDone(s, t, ws, now)
    ensures forall w :: w in ws ==> w in s && Rescheduled(s[w], t[w], now)
    ensures forall w :: w in s && w !in ws ==> t[w] == s[w]
  {
  }

  /** One iteration of the loop: the time, the timers that fired, what they left, and what the callbacks
      did that ran after that. */
  datatype Iteration = Iteration(now: int, fired: seq<Watcher>, passed: Timers, scripts: seq<seq<Action>>)

  /** An iteration in which w fires, and no callback names it. */
  ghost predicate Iterates(s: Timers, t: Timers, it: Iteration, w: Watcher) {
    && PassDone(s, it.passed, it.fired, it.now) && t == PerformedAll(it.passed, it.scripts, it.now)
    && w in it.fired && !NamedBySome(it.scripts, w)
  }

  ghost predicate FiresInAll(ss: seq<Timers>, its: seq<Iteration>, w: Watcher) {
    && |ss| == |its| + 1
    && (forall i :: 0 <= i < |ss| ==> w in ss[i])
    && (forall i :: 0 <= i < |its| ==> Iterates(ss[i], ss[i + 1], its[i], w))
  }

  lemma IterationReschedules(s: Timers, t: Timers, it: Iteration, w: Watcher)
    requires Iterates(s, t, it, w)
    ensures w in s && w in t && Rescheduled(s[w], t[w], it.now)
  {
    hide PerformedAll, PassDone;
    PassReschedules(s, it.passed, it.fired, it.now);
    PassKeys(s, it.passed, it.fired, it.now);
    assert it.scripts[..|it.scripts|] == it.scripts;
    UnnamedIsKept(it.passed, it.scripts, |it.scripts|, it.now, w);
  }

  lemma PassKeys(s: Timers, t: Timers, ws: seq<Watcher>, now: int)
    requires PassDone(s, t, ws, now)
    ensures s.Keys == t.Keys
  {
  }

  /** However late the loop is, a repeating timer that fires k times keeps its pace, with a deadline k
      repeats later, if and only if no pass came more than one repeat after its deadline.  So lateness
      that is less than that does not add up; and time that is lost is lost for good. */
  lemma {:induction false} KeepsPaceIff(ss: seq<Timers>, its: seq<Iteration>, w: Watcher)
    requires FiresInAll(ss, its, w) && ss[0][w].repeat != 0
    ensures var k, t := |its|, ss[|its|][w];
      && t.repeat == ss[0][w].repeat && t.at >= ss[0][w].at + k * t.repeat && (k > 0 ==> t.active)
      && (t.at == ss[0][w].at + k * t.repeat <==> forall i :: 0 <= i < k ==> its[i].now <= ss[i][w].at + t.repeat)
    decreases |its|
  {
    hide Iterates;
    var k := |its|;
    if k > 0 {
      assert FiresInAll(ss[..k], its[..k - 1], w);
      KeepsPaceIff(ss[..k], its[..k - 1], w);
      IterationReschedules(ss[k - 1], ss[k], its[k - 1], w);
      var r := ss[0][w].repeat;
      assert k * r == (k - 1) * r + r;
      assert forall i :: 0 <= i < k - 1 ==> its[..k - 1][i] == its[i] && ss[..k][i] == ss[i];
    }
  }

  /** Listed by nondecreasing deadline. */
  ghost predicate ByDeadline(s: Timers, ws: seq<Watcher>) {
    forall i, j :: 0 <= i < j < |ws| ==> ws[i] in s && ws[j] in s && s[ws[i]].at <= s[ws[j]].at
  }

  /** Nothing that is still active was due before the listed watchers. */
  ghost predicate NoneEarlier(s: Timers, ws: seq<Watcher>) {
    forall v, w :: v in ws && w in s && w !in ws && s[w].active ==> v in s && s[v].at <= s[w].at
  }

  /** One more expiry: w is taken while nothing active is due before it. */
  lemma PassStep(s: Timers, t: Timers, ws: seq<Watcher>, w: Watcher, now: int)
    requires PassDone(s, t, ws, now) && ByDeadline(s, ws) && NoneEarlier(s, ws)
    requires w in t && Due(t[w], now)
    requires forall v :: v in t && t[v].active ==> t[w].at <= t[v].at
    ensures w !in ws && w in s && s[w] == t[w]
    ensures PassDone(s, t[w := Fired(t[w], now)], ws + [w], now)
    ensures ByDeadline(s, ws + [w]) && NoneEarlier(s, ws + [w])
  {
    var us := ws + [w];
    assert forall v :: v in us <==> v in ws || v == w;
    forall v | v in s && v !in us && s[v].active ensures s[w].at <= s[v].at {
      assert t[v] == s[v];
    }
  }

  lemma PassIsDistinct(s: Timers, t: Timers, ws: seq<Watcher>, now: int)
    requires PassDone(s, t, ws, now)
    ensures forall i, j :: 0 <= i < j < |ws| ==> ws[i] != ws[j]
    ensures forall w :: w in ws ==> w in s
    ensures forall w :: w in ws ==> (w in OneShots(s, ws) <==> s[w].repeat == 0)
  {
  }

  /** A pass that leaves nothing due has fired exactly what was due. */
  lemma DueIsFired(s: Timers, t: Timers, ws: seq<Watcher>, now: int)
    requires PassDone(s, t, ws, now)
    requires forall w :: w in t ==> !Due(t[w], now)
    ensures forall w :: w in s ==> (w in ws <==> Due(s[w], now))
    ensures forall w :: w in ws ==> w in s
  {
  }

  /** The watchers among ws that an expiry stops for good. */
  ghost function OneShots(s: Timers, ws: seq<Watcher>): (r: seq<Watcher>)
    ensures forall w :: w in ws ==> (w in r <==> w in s && s[w].repeat == 0)
    ensures forall w :: w in r ==> w in ws
  {
    if ws == [] then []
    else
      var w := ws[|ws| - 1];
      OneShots(s, ws[..|ws| - 1]) + if w in s && s[w].repeat == 0 then [w] else []
  }

  lemma OneShotsStep(s: Timers, ws: seq<Watcher>, w: Watcher)
    ensures OneShots(s, ws + [w]) == OneShots(s, ws) + if w in s && s[w].repeat == 0 then [w] else []
  {
    assert (ws + [w])[..|ws|] == ws;
  }

  lemma NothingCleared(qs: Queues, dummy: Watcher, s: Timers)
    ensures ClearAll(qs, dummy, OneShots(s, [])) == qs
  {
  }

  class Loop {
    var timers: seq<Anhe<Watcher>>   // slots below HEAP0 are never used
    var pendings: Queues             // pendingcnt[pri] is |pendings[pri]|
    var pendingpri: int
    var rfeeds: seq<Watcher>
    var mnNow: int
    var activecnt: int
    const dummy: Watcher             // pending_w
    ghost const watchers: set<Watcher>

    ghost predicate Known()
    {
      dummy !in watchers
    }

    /** Entry i of queue p is cleared, or its watcher is pending right here. */
    ghost predicate EntryOk(p: int, i: int)
      reads this`pendings, watchers`pending
      requires 0 <= p < NUMPRI && 0 <= i < |pendings[p]|
    {
      var w := pendings[p][i].w;
      w == dummy || (w in watchers && w.pri == p && w.pending == i + 1)
    }

    /** w is not pending, or its back-index names its entry. */
    ghost predicate BackOk(w: Watcher)
      reads this`pendings, w`pending
    {
      w.pending == 0 ||
      (w.pending <= |pendings[w.pri]| && pendings[w.pri][w.pending - 1].w == w)
    }

    /** Back-indices and queue entries name each other. */
    ghost predicate PendingOk()
      reads this`pendings, watchers`pending, dummy`pending
    {
      && Known()
      && dummy.pending == 0
      && (forall p, i :: 0 <= p < NUMPRI && 0 <= i < |pendings[p]| ==> EntryOk(p, i))
      && (forall w :: w in watchers ==> BackOk(w))
    }

    lemma PendingSlot(w: Watcher)
      requires PendingOk() && w in watchers
      ensures w.pending == 0 ==> !Queued(pendings[w.pri], w)
      ensures w.pending != 0 ==> Queued(pendings[w.pri], w) && Slot(pendings[w.pri], w) == w.pending - 1
    {
      var q := pendings[w.pri];
      assert BackOk(w);
      forall j | 0 <= j < |q| && q[j].w == w ensures w.pending == j + 1 {
        assert EntryOk(w.pri, j);
      }
      if w.pending != 0 {
        SlotIs(q, w, w.pending - 1);
      }
    }

    ghost predicate SlotsOk()
      reads this`timers, this`activecnt, watchers`active
    {
      && HEAP0 <= |timers|
      && (forall k :: HEAP0 <= k < |timers| ==> timers[k].w in watchers && timers[k].w.active == k)
      && (forall w :: w in watchers && w.active != 0 ==>
            HEAP0 <= w.active < |timers| && timers[w.active].w == w)
      && activecnt == |timers| - HEAP0
    }

    ghost predicate CachesOk()
      reads this`timers, watchers`at
    {
      forall e :: e in Entries(timers) && e.w in watchers ==> e.at == e.w.at
    }

    /** The heap is ordered, holds exactly the active timers, each at its own back-index and
        with its own deadline cached. */
    ghost predicate TimersOk()
      reads this`timers, this`activecnt, watchers`active, watchers`at
    {
      SlotsOk() && CachesOk() && Ordered(timers)
    }

    ghost predicate Valid()
      reads this`pendings, this`timers, this`activecnt
      reads watchers`pending, watchers`active, watchers`at, dummy`pending
    {
      PendingOk() && TimersOk()
    }

    constructor (ghost ws: set<Watcher>, dummy: Watcher, filler: Watcher, now: int)
      requires dummy !in ws && dummy.pending == 0
      requires forall w :: w in ws ==> w.pending == 0 && w.active == 0
      ensures Valid() && watchers == ws && this.dummy == dummy
      ensures rfeeds == [] && activecnt == 0 && mnNow == now
      ensures forall p :: 0 <= p < NUMPRI ==> pendings[p] == []
    {
      timers := seq(HEAP0, _ => Anhe(filler, 0));
      pendings := [[], [], [], [], []];
      pendingpri := NUMPRI;
      rfeeds, mnNow, activecnt := [], now, 0;
      this.dummy := dummy;
      watchers := ws;
    }

    // ----- sifting -----

    /** What a sift that starts at slot k may rely on: only slot k can have a stale back-index. */
    ghost predicate Siftable(k: int)
      reads this`timers, watchers`active
    {
      && HEAP0 <= k < |timers|
      && (forall j :: HEAP0 <= j < |timers| ==> timers[j].w in watchers)
      && (forall j :: HEAP0 <= j < |timers| && j != k ==> timers[j].w.active == j && timers[j].w != timers[k].w)
    }

    ghost predicate Indexed()
      reads this`timers, watchers`active
    {
      forall j :: HEAP0 <= j < |timers| ==> timers[j].w in watchers && timers[j].w.active == j
    }

    /** Midway through a sift: he has been lifted out, slot k is free, and putting he there gives g. */
    ghost predicate Sifting(k: int, he: Anhe<Watcher>, g: seq<Anhe<Watcher>>)
      reads this`timers, watchers`active
    {
      && HEAP0 <= k < |timers| == |g|
      && he.w in watchers
      && g[k] == he
      && (forall j :: 0 <= j < |g| && j != k ==> timers[j] == g[j])
      && (forall j :: HEAP0 <= j < |g| && j != k ==>
            g[j].w in watchers && g[j].w.active == j && g[j].w != he.w)
    }

    /** Moves the entry of slot p into the free slot k. */
    method Shift(k: int, p: int, he: Anhe<Watcher>, ghost g: seq<Anhe<Watcher>>)
      requires Sifting(k, he, g) && HEAP0 <= p < |timers| && p != k
      modifies this`timers, timers[p].w`active
      ensures Sifting(p, he, Swap(g, k, p))
      ensures timers[k].w.active == k
      ensures forall w :: w in watchers && w != timers[k].w ==> w.active == old(w.active)
    {
      timers := timers[k := timers[p]];
      timers[k].w.active := k;
    }

    /** Puts the lifted entry into the free slot. */
    method Place(k: int, he: Anhe<Watcher>, ghost g: seq<Anhe<Watcher>>)
      requires Sifting(k, he, g)
      modifies this`timers, he.w`active
      ensures timers == g && Indexed()
    {
      timers := timers[k := he];
      he.w.active := k;
      assert timers == g;
    }

    /** Every watcher outside ws keeps its back-index. */
    twostate predicate OthersKept(ws: set<Watcher>)
      reads watchers`active
    {
      forall w :: w in watchers && w !in ws ==> w.active == old(w.active)
    }

    method Upheap(k0: int)
      requires Siftable(k0)
      modifies this`timers, watchers`active
      ensures timers == Up(old(timers), k0)
      ensures Indexed()
      ensures Entries(timers) == old(Entries(timers)) && OthersKept(Members(Entries(timers)))
    {
      var k := k0;
      var he := timers[k];
      ghost var g := timers;
      while true
        invariant Sifting(k, he, g)
        invariant Up(g, k) == Up(old(timers), k0)
        invariant Entries(g) == old(Entries(timers))
        invariant OthersKept(Members(Entries(g)))
        decreases k
      {
        ParentFacts(k);
        var p := HParent(k);
        if p == k || timers[p].at <= he.at {
          break;
        }
        Shift(k, p, he, g);
        SwapEntries(g, k, p);
        g := Swap(g, k, p);
        k := p;
      }
      Place(k, he, g);
    }

    method Downheap(k0: int)
      requires Siftable(k0)
      modifies this`timers, watchers`active
      ensures timers == Down(old(timers), k0)
      ensures Indexed()
      ensures Entries(timers) == old(Entries(timers)) && OthersKept(Members(Entries(timers)))
    {
      var k := k0;
      var he := timers[k];
      ghost var g := timers;
      while true
        invariant Sifting(k, he, g)
        invariant Down(g, k) == Down(old(timers), k0)
        invariant Entries(g) == old(Entries(timers))
        invariant OthersKept(Members(Entries(g)))
        decreases |g| - k
      {
        var minpos := EarlierChild(k, he, g);
        if minpos == k {
          break;
        }
        Shift(k, minpos, he, g);
        SwapEntries(g, k, minpos);
        g := Swap(g, k, minpos);
        k := minpos;
      }
      Place(k, he, g);
    }

    /** The child that must move up into the free slot k before he can be placed, or k itself. */
    method EarlierChild(k: int, he: Anhe<Watcher>, ghost g: seq<Anhe<Watcher>>) returns (minpos: int)
      requires Sifting(k, he, g)
      ensures minpos == k ==> Down(g, k) == g
      ensures minpos != k ==> k < minpos < |g| && Down(g, k) == Down(Swap(g, k, minpos), minpos)
    {
      ChildFacts(k, k + 1);
      minpos := k;
      if FirstChild(k) < |timers| {
        var c := FindMinChild(k, g);
        if he.at > timers[c].at {
          minpos := c;
        }
      }
    }

    /** The child search of `downheap`, with its fast path for four existing children. */
    method FindMinChild(k: int, ghost g: seq<Anhe<Watcher>>) returns (minpos: int)
      requires HEAP0 <= k && FirstChild(k) < |timers| == |g|
      requires forall j :: k < j < |g| ==> timers[j] == g[j]
      ensures minpos == MinChild(g, k)
    {
      var pos := FirstChild(k);
      var E := |timers|;
      minpos := pos;
      if pos + DHEAP - 1 < E {
        if timers[minpos].at > timers[pos + 1].at { minpos := pos + 1; }
        if timers[minpos].at > timers[pos + 2].at { minpos := pos + 2; }
        if timers[minpos].at > timers[pos + 3].at { minpos := pos + 3; }
      } else {
        // at most three children: a fourth one would have taken the fast path
        if pos + 1 < E && timers[minpos].at > timers[pos + 1].at { minpos := pos + 1; }
        if pos + 2 < E && timers[minpos].at > timers[pos + 2].at { minpos := pos + 2; }
      }
    }

    method Adjustheap(k: int)
      requires Siftable(k)
      modifies this`timers, watchers`active
      ensures timers == Adjust(old(timers), k)
      ensures Indexed()
      ensures Entries(timers) == old(Entries(timers)) && OthersKept(Members(Entries(timers)))
    {
      ParentFacts(k);
      if k > HEAP0 && timers[k].at <= timers[HParent(k)].at {
        Upheap(k);
      } else {
        Downheap(k);
      }
    }

    /** Rebuilds the heap after arbitrary changes of the cached keys. */
    method Reheap()
      requires HEAP0 <= |timers| && Indexed()
      modifies this`timers, watchers`active
      ensures Ordered(timers) && multiset(timers) == multiset(old(timers))
      ensures Indexed()
      ensures Entries(timers) == old(Entries(timers)) && OthersKept(Members(Entries(timers)))
    {
      var N := |timers| - HEAP0;
      for i := 0 to N
        invariant |timers| == HEAP0 + N && Indexed()
        invariant timers == Reheaped(old(timers), i)
        invariant OthersKept(Members(Entries(timers))) && Entries(timers) == old(Entries(timers))
      {
        Upheap(i + HEAP0);
      }
      ReheapOrders(old(timers), N);
    }

    // ----- pending events -----

    lemma FeedIs(w: Watcher, ev: Events)
      requires PendingOk() && w in watchers
      ensures BackOk(w)
      ensures w.pending == 0 ==>
                Feed(pendings, w, ev) == pendings[w.pri := pendings[w.pri] + [Anpending(w, ev)]]
      ensures w.pending != 0 ==>
                Feed(pendings, w, ev) ==
                pendings[w.pri := pendings[w.pri][w.pending - 1 := Anpending(w, pendings[w.pri][w.pending - 1].events + ev)]]
    {
      PendingSlot(w);
    }

    method EvFeedEvent(w: Watcher, revents: Events)
      requires Valid() && w in watchers
      modifies this`pendings, this`pendingpri, w`pending
      ensures Valid()
      ensures pendings == Feed(old(pendings), w, revents)
      ensures Queued(pendings[w.pri], w) && MaskOf(pendings[w.pri], w) == old(MaskOf(pendings[w.pri], w)) + revents
      ensures pendingpri == NUMPRI - 1
    {
      FeedIs(w, revents);
      PendingIsSolo(w);
      FeedMasks(pendings, w, revents, w);
      FeedQueues(pendings, w, revents, w);
      var pri := w.pri;
      if w.pending != 0 {
        var e := pendings[pri][w.pending - 1];
        SetSlot(w, w.pending - 1, Anpending(w, e.events + revents));
      } else {
        AppendEntry(w, revents);
      }
      pendingpri := NUMPRI - 1;
    }

    method AppendEntry(w: Watcher, revents: Events)
      requires PendingOk() && w in watchers && w.pending == 0
      modifies this`pendings, w`pending
      ensures PendingOk()
      ensures pendings == old(pendings[w.pri := pendings[w.pri] + [Anpending(w, revents)]])
    {
      w.pending := |pendings[w.pri]| + 1;
      pendings := pendings[w.pri := pendings[w.pri] + [Anpending(w, revents)]];
      forall p, i | 0 <= p < NUMPRI && 0 <= i < |pendings[p]| ensures EntryOk(p, i) {
        if !(p == w.pri && i == |old(pendings[p])|) {
          assert old(EntryOk(p, i));
        }
      }
      forall v | v in watchers ensures BackOk(v) {
        assert old(BackOk(v));
      }
    }

    /** Overwrites the entry of a pending watcher by one for itself or for the dummy. */
    method SetSlot(w: Watcher, i: int, e: Anpending)
      requires PendingOk() && w in watchers && w.pending == i + 1 && 0 <= i < |pendings[w.pri]|
      requires e.w == w || e.w == dummy
      modifies this`pendings, w`pending
      ensures PendingOk()
      ensures pendings == old(pendings[w.pri := pendings[w.pri][i := e]])
      ensures w.pending == if e.w == w then i + 1 else 0
    {
      assert BackOk(w);
      pendings := pendings[w.pri := pendings[w.pri][i := e]];
      if e.w != w {
        w.pending := 0;
      }
      forall p, j | 0 <= p < NUMPRI && 0 <= j < |pendings[p]| ensures EntryOk(p, j) {
        assert old(EntryOk(p, j));
      }
      forall v | v in watchers ensures BackOk(v) {
        assert old(BackOk(v));
      }
    }

    method EvClearPending(w: Watcher) returns (events: Events)
      requires Valid() && w in watchers
      modifies this`pendings, w`pending
      ensures Valid() && w.pending == 0 && !Queued(pendings[w.pri], w)
      ensures pendings == Clear(old(pendings), dummy, w)
      ensures events == old(MaskOf(pendings[w.pri], w))
    {
      PendingSlot(w);
      events := {};
      if w.pending != 0 {
        assert BackOk(w);
        events := pendings[w.pri][w.pending - 1].events;
        SetSlot(w, w.pending - 1, Anpending(dummy, events));
      }
      PendingSlot(w);
    }

    // ----- timers -----

    /** Nothing but w (and the slots the heap assigns) has changed. */
    twostate predicate OnlyTimer(w: Watcher)
      reads watchers
    {
      forall v :: v in watchers && v != w ==>
        v.at == old(v.at) && v.repeat == old(v.repeat) && (v.active != 0 <==> old(v.active != 0))
    }

    /** The timers of all watchers. */
    ghost function Snap(): (s: Timers)
      reads watchers`at, watchers`repeat, watchers`active
      ensures s.Keys == watchers
    {
      map w | w in watchers :: Timer(w.at, w.repeat, w.active != 0)
    }

    lemma SnapAt(w: Watcher)
      requires w in watchers
      ensures Snap()[w] == Timer(w.at, w.repeat, w.active != 0)
    {
    }

    twostate lemma SnapIs(w: Watcher)
      requires w in watchers && OnlyTimer(w)
      ensures Snap() == old(Snap())[w := Timer(w.at, w.repeat, w.active != 0)]
      ensures old(Snap())[w] == old(Timer(w.at, w.repeat, w.active != 0))
    {
    }

    /** Correct back-indices of the members are all there is to a correct heap of active watchers. */
    lemma SlotsIntro()
      requires HEAP0 <= |timers| && Indexed() && activecnt == |timers| - HEAP0
      requires forall w :: w in watchers && w.active != 0 ==> w in Members(Entries(timers))
      ensures SlotsOk()
    {
    }

    lemma MembersAreActive()
      requires SlotsOk()
      ensures forall w :: w in watchers ==> (w.active != 0 <==> w in Members(Entries(timers)))
      ensures forall e :: e in Entries(timers) ==> e.w in watchers && e == timers[e.w.active]
    {
      forall w | w in watchers && w.active != 0 ensures w in Members(Entries(timers)) {
        assert timers[w.active] in Entries(timers);
      }
    }

    /** Exactly the watchers that were active still are, w aside. */
    twostate predicate ActiveKept(w: Watcher)
      reads watchers`active
    {
      forall v :: v in watchers && v != w ==> (v.active != 0 <==> old(v.active != 0))
    }

    method HeapInsert(w: Watcher)
      requires SlotsOk() && Ordered(timers) && w in watchers && w.active == 0
      modifies this`timers, this`activecnt, watchers`active
      ensures SlotsOk() && Ordered(timers)
      ensures Entries(timers) == old(Entries(timers)) + {Anhe(w, w.at)}
      ensures w.active != 0 && ActiveKept(w)
      ensures activecnt == old(activecnt) + 1
    {
      MembersAreActive();
      var e := Anhe(w, w.at);
      activecnt := activecnt + 1;
      w.active := |timers|;
      PushRestores(timers, e);
      PushEntries(timers, e);
      timers := timers + [e];
      Upheap(w.active);
      SlotsIntro();
      MembersAreActive();
    }

    /** Copies the watcher's deadline into its entry and moves that where it belongs. */
    method HeapRekey(w: Watcher)
      requires SlotsOk() && Ordered(timers) && w in watchers && w.active != 0
      modifies this`timers, watchers`active
      ensures SlotsOk() && Ordered(timers)
      ensures Entries(timers) == old(Entries(timers) - {timers[w.active]}) + {Anhe(w, w.at)}
      ensures w.active != 0 && ActiveKept(w)
    {
      MembersAreActive();
      var k := w.active;
      AdjustRestores(timers, k, Anhe(w, w.at));
      SetEntries(timers, k, Anhe(w, w.at));
      timers := timers[k := Anhe(w, w.at)];
      Adjustheap(k);
      SlotsIntro();
      MembersAreActive();
    }

    /** Overwrites slot k by the entry that used to follow the last one. */
    method FillGap(k: int, e: Anhe<Watcher>)
      requires HEAP0 <= k < |timers| && Indexed() && Ordered(timers)
      requires e.w in watchers && e.w.active == |timers|
      modifies this`timers, watchers`active
      ensures |timers| == old(|timers|) && Indexed() && Ordered(timers)
      ensures Entries(timers) == old(Entries(timers) - {timers[k]}) + {e}
      ensures OthersKept(Members(Entries(timers)))
    {
      AdjustRestores(timers, k, e);
      SetEntries(timers, k, e);
      timers := timers[k := e];
      Adjustheap(k);
    }

    /** Takes the entry of w out; the last entry fills the gap. */
    method CutOut(w: Watcher)
      requires SlotsOk() && Ordered(timers) && w in watchers && w.active != 0
      modifies this`timers, watchers`active
      ensures |timers| == old(|timers|) - 1 && Indexed() && Ordered(timers)
      ensures Entries(timers) == old(Entries(timers) - {timers[w.active]})
      ensures OthersKept(Members(Entries(timers)))
    {
      var k := w.active;
      var last := |timers| - 1;
      DropLastEntries(timers);
      DropLastOrdered(timers);
      var e := timers[last];
      timers := timers[..last];
      if k < last {
        FillGap(k, e);
      }
    }

    method HeapRemove(w: Watcher)
      requires SlotsOk() && Ordered(timers) && w in watchers && w.active != 0
      modifies this`timers, this`activecnt, watchers`active
      ensures SlotsOk() && Ordered(timers)
      ensures Entries(timers) == old(Entries(timers) - {timers[w.active]})
      ensures w.active == 0 && ActiveKept(w)
      ensures activecnt == old(activecnt) - 1
    {
      MembersAreActive();
      assert forall e :: e in Entries(timers) && e.w == w ==> e == timers[w.active];
      CutOut(w);
      forall j | HEAP0 <= j < |timers| ensures timers[j].w != w {
        assert timers[j] in Entries(timers);
      }
      activecnt := activecnt - 1;
      w.active := 0;
      SlotsIntro();
      MembersAreActive();
    }

    /** Sets the relative time of a timer that is not running. */
    method SetAfter(w: Watcher, after: int)
      requires Valid() && w in watchers && w.active == 0
      modifies w`at
      ensures Valid() && OnlyTimer(w) && w.at == after
      ensures Snap() == old(Snap())[w := Timer(after, w.repeat, false)]
    {
      hide PendingOk, Snap;
      MembersAreActive();
      w.at := after;
      SnapIs(w);
    }

    /** Users set the repeat value of a running timer directly. */
    method SetRepeat(w: Watcher, repeat: nat)
      requires Valid() && w in watchers
      modifies w`repeat
      ensures Valid() && w.repeat == repeat
      ensures Snap() == old(Snap()[w := Snap()[w].(repeat := repeat)])
    {
      hide Valid, Snap;
      w.repeat := repeat;
      SnapIs(w);
    }

    /** Makes the time of a timer that is not running absolute, and inserts it. */
    method InsertTimer(w: Watcher)
      requires Valid() && w in watchers && w.active == 0
      modifies this`timers, this`activecnt, watchers`active, w`at
      ensures Valid() && OnlyTimer(w)
      ensures w.active != 0 && w.at == old(w.at) + mnNow
    {
      hide PendingOk;
      MembersAreActive();
      w.at := w.at + mnNow;
      HeapInsert(w);
      MembersAreActive();
    }

    method EvTimerStart(w: Watcher)
      requires Valid() && w in watchers
      modifies this`timers, this`activecnt, watchers`active, w`at
      ensures Valid() && OnlyTimer(w)
      ensures Snap() == old(Snap()[w := Started(Snap()[w], mnNow)])
      ensures w.active != 0 && w.at == if old(w.active) == 0 then mnNow + old(w.at) else old(w.at)
    {
      hide Valid, Snap;
      SnapAt(w);
      if w.active == 0 {
        InsertTimer(w);
      }
      SnapIs(w);
      SnapAt(w);
    }

    /** The part of `ev_timer_stop` after the pending entry has been cleared. */
    method HeapStop(w: Watcher)
      requires Valid() && w in watchers
      modifies this`timers, this`activecnt, watchers`active, w`at
      ensures Valid() && OnlyTimer(w)
      ensures Snap() == old(Snap()[w := Stopped(Snap()[w], mnNow)])
      ensures w.active == 0 && w.at == if old(w.active) == 0 then old(w.at) else old(w.at) - mnNow
    {
      hide PendingOk, Snap;
      if w.active != 0 {
        MembersAreActive();
        HeapRemove(w);
        w.at := w.at - mnNow;
        MembersAreActive();
      }
      SnapIs(w);
    }

    /** A stopped watcher has nothing to clear. */
    lemma NothingToClear(w: Watcher)
      requires Valid() && w in watchers && w.pending == 0
      ensures Clear(pendings, dummy, w) == pendings
    {
      PendingSlot(w);
    }

    method EvTimerStop(w: Watcher)
      requires Valid() && w in watchers
      modifies this`timers, this`activecnt, watchers`active, w`at, this`pendings, w`pending
      ensures Valid() && OnlyTimer(w)
      ensures pendings == Clear(old(pendings), dummy, w) && w.pending == 0
      ensures Snap() == old(Snap()[w := Stopped(Snap()[w], mnNow)])
      ensures w.active == 0 && w.at == if old(w.active) == 0 then old(w.at) else old(w.at) - mnNow
    {
      hide Valid, Snap;
      var _ := EvClearPending(w);
      HeapStop(w);
    }

    /** Changes the deadline of a running timer and restores the heap. */
    method ChangeDeadline(w: Watcher, at: int)
      requires Valid() && w in watchers && w.active != 0
      modifies this`timers, watchers`active, w`at
      ensures Valid() && OnlyTimer(w)
      ensures w.active != 0 && w.at == at
    {
      hide PendingOk;
      MembersAreActive();
      w.at := at;
      HeapRekey(w);
      MembersAreActive();
    }

    method EvTimerAgain(w: Watcher)
      requires Valid() && w in watchers
      modifies this`timers, this`activecnt, watchers`active, w`at, this`pendings, w`pending
      ensures Valid() && OnlyTimer(w)
      ensures pendings == Clear(old(pendings), dummy, w) && w.pending == 0
      ensures Snap() == old(Snap()[w := Again(Snap()[w], mnNow)])
      ensures w.repeat != 0 ==> w.active != 0 && w.at == mnNow + w.repeat
      ensures w.repeat == 0 ==> w.active == 0 && w.at == if old(w.active) == 0 then old(w.at) else old(w.at) - mnNow
    {
      hide Valid, Snap;
      var _ := EvClearPending(w);
      if w.active != 0 {
        if w.repeat != 0 {
          ChangeDeadline(w, mnNow + w.repeat);
        } else {
          NothingToClear(w);
          EvTimerStop(w);
        }
      } else if w.repeat != 0 {
        SetAfter(w, w.repeat);
        EvTimerStart(w);
      }
      SnapIs(w);
    }

    // ----- callbacks and their invocation -----

    /** Nothing is pending above the priority that is being worked on. */
    ghost predicate NothingAbove()
      reads this`pendings, this`pendingpri
    {
      forall p :: 0 <= p < NUMPRI && pendingpri < p ==> pendings[p] == []
    }

    method Do(a: Action)
      requires Valid() && a.w in watchers
      modifies this`timers, this`activecnt, this`pendings, this`pendingpri
      modifies watchers`active, watchers`at, watchers`pending, watchers`repeat
      ensures Valid()
      ensures pendings == Effect(old(pendings), dummy, a)
      ensures Snap() == old(Snap()[a.w := Acted(Snap()[a.w], a, mnNow)])
      ensures a.TimerStart? && old(a.w.active) == 0 ==> a.w.active != 0 && a.w.at == mnNow + a.after && a.w.repeat == a.repeat
      ensures a.TimerStop? ==> a.w.active == 0
      ensures a.TimerAgain? ==> a.w.repeat == a.repeat && (a.repeat != 0 ==> a.w.active != 0 && a.w.at == mnNow + a.repeat)
      ensures pendingpri == old(pendingpri) || pendingpri == NUMPRI - 1
      ensures old(NothingAbove()) ==> NothingAbove()
    {
      hide Valid, Snap, OnlyTimer;
      match a
      case FeedEvent(w, ev) =>
        EvFeedEvent(w, ev);
      case ClearPending(w) =>
        var _ := EvClearPending(w);
      case TimerStart(w, after, repeat) =>
        SnapAt(w);
        if w.active == 0 {
          SetAfter(w, after);
          SetRepeat(w, repeat);
        }
        EvTimerStart(w);
      case TimerStop(w) =>
        EvTimerStop(w);
      case TimerAgain(w, repeat) =>
        SetRepeat(w, repeat);
        EvTimerAgain(w);
    }

    method DoAll(acts: seq<Action>)
      requires Valid() && ActionsOk(acts, watchers)
      modifies this`timers, this`activecnt, this`pendings, this`pendingpri
      modifies watchers`active, watchers`at, watchers`pending, watchers`repeat
      ensures Valid()
      ensures pendings == Effects(old(pendings), dummy, acts)
      ensures Snap() == Performed(old(Snap()), acts, mnNow)
      ensures pendingpri == old(pendingpri) || pendingpri == NUMPRI - 1
      ensures old(NothingAbove()) ==> NothingAbove()
    {
      hide Valid, Snap;
      for i := 0 to |acts|
        invariant Valid()
        invariant Performed(Snap(), acts[i..], mnNow) == Performed(old(Snap()), acts, mnNow)
        invariant Effects(pendings, dummy, acts[i..]) == Effects(old(pendings), dummy, acts)
        invariant pendingpri == old(pendingpri) || pendingpri == NUMPRI - 1
        invariant old(NothingAbove()) ==> NothingAbove()
      {
        Do(acts[i]);
      }
    }

    /** Takes the top entry of the queue that is being worked on. */
    method TakeTop() returns (inv: Invocation)
      requires PendingOk() && 0 <= pendingpri < NUMPRI && pendings[pendingpri] != []
      modifies this`pendings, watchers`pending, dummy`pending
      ensures PendingOk()
      ensures pendings == Pop(old(pendings), pendingpri)
      ensures inv == var q := old(pendings[pendingpri]);
                     Invocation(q[|q| - 1].w, q[|q| - 1].events, pendingpri, |q| - 1)
      ensures inv.w == dummy || inv.w in watchers
    {
      var p := pendingpri;
      var i := |pendings[p]| - 1;
      var e := pendings[p][i];
      assert EntryOk(p, i);
      pendings := pendings[p := pendings[p][..i]];
      e.w.pending := 0;
      inv := Invocation(e.w, e.events, p, i);
      forall q, j | 0 <= q < NUMPRI && 0 <= j < |pendings[q]| ensures EntryOk(q, j) {
        assert old(EntryOk(q, j));
      }
      forall v | v in watchers ensures BackOk(v) {
        assert old(BackOk(v));
      }
    }

    /** Takes the top entry and lets its callback, if it has one, perform the next script. */
    method InvokeTop(scripts: seq<seq<Action>>) returns (inv: Invocation, rest: seq<seq<Action>>)
      requires Valid() && ScriptsOk(scripts, watchers)
      requires 0 <= pendingpri < NUMPRI && NothingAbove() && pendings[pendingpri] != []
      modifies this`timers, this`activecnt, this`pendings, this`pendingpri
      modifies watchers`active, watchers`at, watchers`pending, watchers`repeat, dummy`pending
      ensures Valid() && ScriptsOk(rest, watchers)
      ensures 0 <= pendingpri < NUMPRI && NothingAbove()
      ensures Run(old(pendings), dummy, scripts) == [inv] + Run(pendings, dummy, rest)
      ensures if inv.w != dummy && scripts != []
              then rest == scripts[1..] && Snap() == Performed(old(Snap()), scripts[0], mnNow)
              else rest == scripts && Snap() == old(Snap()) && Total(pendings) < Total(old(pendings))
    {
      hide TimersOk, PendingOk, Snap, Performed, Run, Effects;
      HighestIs(pendings, NUMPRI, pendingpri);
      TotalUpdate(pendings, pendingpri, pendings[pendingpri][..|pendings[pendingpri]| - 1]);
      RunUnfolds(pendings, dummy, scripts);
      rest := scripts;
      inv := TakeTop();
      if inv.w != dummy && rest != [] {
        DoAll(rest[0]);
        rest := rest[1..];
      }
      assert Run(old(pendings), dummy, scripts) == [inv] + Run(old(pendings), dummy, scripts)[1..];
    }

    /** How far a run has got that began with timers s and queues qs. */
    ghost predicate MidRun(log: seq<Invocation>, rest: seq<seq<Action>>, scripts: seq<seq<Action>>, s: Timers, qs: Queues)
      reads this`pendings, this`mnNow, watchers`at, watchers`repeat, watchers`active
    {
      var n := Used(log, dummy, scripts);
      && rest == scripts[n..]
      && log + Run(pendings, dummy, rest) == Run(qs, dummy, scripts)
      && Snap() == PerformedAll(s, scripts[..n], mnNow)
    }

    /** One more callback. */
    method InvokeNext(log: seq<Invocation>, rest: seq<seq<Action>>,
                      ghost scripts: seq<seq<Action>>, ghost s: Timers, ghost qs: Queues)
      returns (log': seq<Invocation>, rest': seq<seq<Action>>)
      requires Valid() && ScriptsOk(rest, watchers) && MidRun(log, rest, scripts, s, qs)
      requires 0 <= pendingpri < NUMPRI && NothingAbove() && pendings[pendingpri] != []
      modifies this`timers, this`activecnt, this`pendings, this`pendingpri
      modifies watchers`active, watchers`at, watchers`pending, watchers`repeat, dummy`pending
      ensures Valid() && ScriptsOk(rest', watchers) && MidRun(log', rest', scripts, s, qs)
      ensures 0 <= pendingpri < NUMPRI && NothingAbove()
      ensures |rest'| < |rest| || (rest' == rest && Total(pendings) < Total(old(pendings)))
    {
      hide Valid, Snap, Run, Used, ScriptsOk, NothingAbove, Performed, PerformedAll, Total;
      ghost var n := Used(log, dummy, scripts);
      var inv;
      inv, rest' := InvokeTop(rest);
      log' := log + [inv];
      UsedNext(log, inv, dummy, scripts);
      if inv.w != dummy && rest != [] {
        PerformedOneMore(s, scripts, n, mnNow);
      }
      assert log' + Run(pendings, dummy, rest') == log + ([inv] + Run(pendings, dummy, rest'));
    }

    /** Runs every pending callback, the i-th of which performs scripts[i].  The cursor `pendingpri`
        walks down and jumps back up on every feed, and still the order is that of `Run`, and the
        timers are what the scripts that were performed make of them. */
    method EvInvokePending(scripts: seq<seq<Action>>) returns (log: seq<Invocation>)
      requires Valid() && ScriptsOk(scripts, watchers)
      modifies this`timers, this`activecnt, this`pendings, this`pendingpri
      modifies watchers`active, watchers`at, watchers`pending, watchers`repeat, dummy`pending
      ensures Valid()
      ensures log == Run(old(pendings), dummy, scripts)
      ensures Snap() == PerformedAll(old(Snap()), scripts[..Used(log, dummy, scripts)], mnNow)
      ensures forall p :: 0 <= p < NUMPRI ==> pendings[p] == []
      ensures forall w :: w in watchers ==> w.pending == 0
    {
      hide Valid, Snap, MidRun, Used, PerformedAll, Run;
      var rest := scripts;
      log := [];
      ghost var s, qs := Snap(), pendings;
      RunStarts(scripts);
      pendingpri := NUMPRI;
      while pendingpri != 0
        invariant Valid() && ScriptsOk(rest, watchers) && MidRun(log, rest, scripts, s, qs)
        invariant 0 <= pendingpri <= NUMPRI
        invariant forall p :: 0 <= p < NUMPRI && pendingpri <= p ==> pendings[p] == []
        decreases |rest|, Total(pendings), pendingpri
      {
        pendingpri := pendingpri - 1;
        ghost var was := (|rest|, Total(pendings), pendingpri);
        while pendings[pendingpri] != []
          invariant Valid() && ScriptsOk(rest, watchers) && MidRun(log, rest, scripts, s, qs)
          invariant 0 <= pendingpri < NUMPRI && NothingAbove()
          invariant |rest| < was.0 || (|rest| == was.0 && Total(pendings) < was.1) ||
                    (|rest| == was.0 && Total(pendings) == was.1 && pendingpri == was.2)
          decreases |rest|, Total(pendings)
        {
          log, rest := InvokeNext(log, rest, scripts, s, qs);
        }
      }
      NothingPending();
      RunEnds(log, rest, scripts, s, qs);
    }

    lemma RunStarts(scripts: seq<seq<Action>>)
      ensures MidRun([], scripts, scripts, Snap(), pendings)
    {
      hide Snap, Run, Performed, PerformedAll;
      NothingUsed(dummy, scripts, Snap(), mnNow);
      assert [] + Run(pendings, dummy, scripts) == Run(pendings, dummy, scripts);
    }

    lemma RunEnds(log: seq<Invocation>, rest: seq<seq<Action>>, scripts: seq<seq<Action>>, s: Timers, qs: Queues)
      requires MidRun(log, rest, scripts, s, qs)
      requires forall p :: 0 <= p < NUMPRI ==> pendings[p] == []
      ensures log == Run(qs, dummy, scripts)
      ensures Snap() == PerformedAll(s, scripts[..Used(log, dummy, scripts)], mnNow)
    {
      hide Snap, Run, PerformedAll;
      NothingRuns(pendings, dummy, rest);
      assert log + [] == log;
    }

    lemma NothingPending()
      requires Valid()
      requires forall p :: 0 <= p < NUMPRI ==> pendings[p] == []
      ensures forall w :: w in watchers ==> w.pending == 0
    {
      forall w | w in watchers ensures w.pending == 0 {
        assert BackOk(w);
      }
    }

    // ----- expiry -----

    /** Copies the new deadline of the root's watcher into its entry and sifts it down. */
    method RekeyRoot(w: Watcher)
      requires SlotsOk() && Ordered(timers) && HEAP0 < |timers| && w == timers[HEAP0].w
      modifies this`timers, watchers`active
      ensures SlotsOk() && Ordered(timers)
      ensures Entries(timers) == old(Entries(timers) - {timers[w.active]}) + {Anhe(w, w.at)}
      ensures w.active != 0 && ActiveKept(w)
    {
      hide Down, Ordered;
      MembersAreActive();
      RootRestores(timers, Anhe(w, w.at));
      SetEntries(timers, HEAP0, Anhe(w, w.at));
      timers := timers[HEAP0 := Anhe(w, w.at)];
      Downheap(HEAP0);
      SlotsIntro();
      MembersAreActive();
    }

    /** Gives the root a later deadline. */
    method ChangeRoot(w: Watcher, at: int)
      requires TimersOk() && HEAP0 < |timers| && w == timers[HEAP0].w
      modifies this`timers, watchers`active, w`at
      ensures TimersOk() && OnlyTimer(w)
      ensures w.active != 0 && w.at == at
    {
      MembersAreActive();
      w.at := at;
      RekeyRoot(w);
      MembersAreActive();
    }

    /** Reschedules or stops the earliest timer. */
    method ExpireRoot() returns (w: Watcher)
      requires Valid() && HEAP0 < |timers| && timers[HEAP0].at < mnNow
      modifies this`timers, this`activecnt, this`pendings, watchers`active, watchers`at, watchers`pending
      ensures Valid() && w in watchers && Due(old(Snap())[w], mnNow)
      ensures forall v :: v in watchers && old(Snap())[v].active ==> old(Snap())[w].at <= old(Snap())[v].at
      ensures Snap() == old(Snap())[w := Fired(old(Snap())[w], mnNow)]
      ensures pendings == if old(Snap())[w].repeat != 0 then old(pendings) else Clear(old(pendings), dummy, w)
    {
      w := timers[HEAP0].w;
      assert timers[HEAP0] in Entries(timers);
      forall v | v in watchers && v.active != 0 ensures w.at <= v.at {
        RootIsMin(timers, v.active);
        assert timers[v.active] in Entries(timers);
      }
      if w.repeat != 0 {
        var at := w.at + w.repeat;
        if at < mnNow {
          at := mnNow;
        }
        ChangeRoot(w, at);
      } else {
        EvTimerStop(w);
      }
      SnapIs(w);
    }

    method FeedReverseDone(ev: Events)
      requires Valid() && rfeeds != []
      requires forall i :: 0 <= i < |rfeeds| ==> rfeeds[i] in watchers
      modifies this`rfeeds, this`pendings, this`pendingpri, watchers`pending
      ensures Valid() && rfeeds == []
      ensures pendings == FeedReversed(old(pendings), old(rfeeds), ev)
    {
      while rfeeds != []
        invariant Valid()
        invariant forall i :: 0 <= i < |rfeeds| ==> rfeeds[i] in watchers
        invariant FeedReversed(pendings, rfeeds, ev) == FeedReversed(old(pendings), old(rfeeds), ev)
        decreases |rfeeds|
      {
        var w := rfeeds[|rfeeds| - 1];
        rfeeds := rfeeds[..|rfeeds| - 1];
        EvFeedEvent(w, ev);
      }
    }

    /** How far a pass has got that began with timers s and queues qs. */
    ghost predicate MidPass(s: Timers, qs: Queues)
      reads this`pendings, this`rfeeds, this`mnNow, watchers`at, watchers`repeat, watchers`active
    {
      && PassDone(s, Snap(), rfeeds, mnNow) && ByDeadline(s, rfeeds) && NoneEarlier(s, rfeeds)
      && pendings == ClearAll(qs, dummy, OneShots(s, rfeeds))
    }

    /** One round: takes the earliest timer off the top and remembers its watcher. */
    method ExpireStep(ghost s: Timers, ghost qs: Queues) returns (w: Watcher)
      requires Valid() && HEAP0 < |timers| && timers[HEAP0].at < mnNow && MidPass(s, qs)
      modifies this`timers, this`activecnt, this`pendings, this`rfeeds
      modifies watchers`active, watchers`at, watchers`pending
      ensures Valid() && MidPass(s, qs)
      ensures w in watchers && w !in old(rfeeds) && rfeeds == old(rfeeds) + [w]
    {
      hide Valid, Snap, PassDone, ByDeadline, NoneEarlier, ClearAll, Clear, OneShots;
      ghost var t := Snap();
      w := ExpireRoot();
      assert Snap() == t[w := Fired(t[w], mnNow)];
      PassStep(s, t, rfeeds, w, mnNow);
      OneShotsStep(s, rfeeds, w);
      if s[w].repeat == 0 {
        ClearAllStep(qs, dummy, OneShots(s, rfeeds), w);
      } else {
        assert OneShots(s, rfeeds) + [] == OneShots(s, rfeeds);
      }
      rfeeds := rfeeds + [w];
    }

    /** The do loop of `timers_reify`: takes timers off the top of the heap until none is due. */
    method ExpireAll()
      requires Valid() && rfeeds == []
      modifies this`timers, this`activecnt, this`pendings, this`rfeeds
      modifies watchers`active, watchers`at, watchers`pending
      ensures Valid() && MidPass(old(Snap()), old(pendings))
      ensures forall w :: w in watchers ==> !Due(Snap()[w], mnNow)
    {
      hide Valid, MidPass;
      ghost var left := watchers;
      PassStarts();
      while HEAP0 < |timers| && timers[HEAP0].at < mnNow
        invariant Valid() && MidPass(old(Snap()), old(pendings))
        invariant forall w :: w in watchers && w !in rfeeds ==> w in left
        decreases |left|
      {
        var w := ExpireStep(old(Snap()), old(pendings));
        left := left - {w};
      }
      NoneDue();
    }

    lemma PassStarts()
      requires rfeeds == []
      ensures MidPass(Snap(), pendings)
    {
      NothingCleared(pendings, dummy, Snap());
    }

    lemma NoneDue()
      requires Valid() && (HEAP0 < |timers| ==> timers[HEAP0].at >= mnNow)
      ensures forall w :: w in watchers ==> !Due(Snap()[w], mnNow)
    {
      forall w | w in watchers && w.active != 0 ensures w.at >= mnNow {
        RootIsMin(timers, w.active);
        assert timers[w.active] in Entries(timers);
      }
    }

    /** Makes the expired timers pending and reschedules or stops them.
        fired lists them, each once, by nondecreasing deadline. */
    method TimersReify() returns (ghost fired: seq<Watcher>)
      requires Valid() && rfeeds == []
      modifies this`timers, this`activecnt, this`pendings, this`pendingpri, this`rfeeds
      modifies watchers`active, watchers`at, watchers`pending
      ensures Valid() && rfeeds == []
      ensures PassDone(old(Snap()), Snap(), fired, mnNow)
      ensures forall w :: w in watchers ==> (w in fired <==> Due(old(Snap())[w], mnNow))
      ensures ByDeadline(old(Snap()), fired)
      ensures forall w :: w in watchers ==> !Due(Snap()[w], mnNow)
      ensures forall w :: w in fired ==> w in watchers && Rescheduled(old(Snap())[w], Snap()[w], mnNow)
      ensures forall w :: w in watchers && w !in fired ==> Snap()[w] == old(Snap())[w]
      ensures pendings == FeedReversed(ClearAll(old(pendings), dummy, OneShots(old(Snap()), fired)), fired, {EV_TIMER})
    {
      hide Valid, Snap;
      ghost var s := Snap();
      ExpireAll();
      fired := rfeeds;
      DueIsFired(s, Snap(), rfeeds, mnNow);
      PassReschedules(s, Snap(), rfeeds, mnNow);
      if rfeeds != [] {
        FeedReverseDone({EV_TIMER});
      }
    }

    // ----- expiry and dispatch together -----

    lemma PendingIsSolo(w: Watcher)
      requires Valid() && w in watchers
      ensures Solo(pendings[w.pri], w)
      ensures w.pending == 0 ==> !Queued(pendings[w.pri], w)
    {
      PendingSlot(w);
      forall i, j | 0 <= i < j < |pendings[w.pri]| ensures !(pendings[w.pri][i].w == w && pendings[w.pri][j].w == w) {
        assert EntryOk(w.pri, i) && EntryOk(w.pri, j);
      }
    }

    /** The tail of a loop iteration: expire what is due, then run everything that is pending while
        the i-th callback performs scripts[i].  Every due timer fires once and is dispatched, for itself
        if and only if no callback before it has cleared it; among those of one priority that are not
        pending from before (a one-shot timer never is), the earlier deadline is dispatched first. */
    method Tick(scripts: seq<seq<Action>>)
      returns (ghost fired: seq<Watcher>, ghost passed: Timers, ghost queued: Queues, log: seq<Invocation>)
      requires Valid() && rfeeds == [] && ScriptsOk(scripts, watchers)
      modifies this`timers, this`activecnt, this`pendings, this`pendingpri, this`rfeeds
      modifies watchers`active, watchers`at, watchers`pending, watchers`repeat, dummy`pending
      ensures Valid() && rfeeds == []
      ensures forall w :: w in watchers ==> (w in fired <==> Due(old(Snap())[w], mnNow))
      ensures forall w :: w in fired ==> w in watchers
      ensures ByDeadline(old(Snap()), fired)
      ensures queued == FeedReversed(ClearAll(old(pendings), dummy, OneShots(old(Snap()), fired)), fired, {EV_TIMER})
      ensures log == Run(queued, dummy, scripts)
      ensures PassDone(old(Snap()), passed, fired, mnNow)
      ensures forall w :: w in fired ==> w in passed && Rescheduled(old(Snap())[w], passed[w], mnNow)
      ensures Snap() == PerformedAll(passed, scripts[..Used(log, dummy, scripts)], mnNow)
      ensures forall w :: w in fired && !NamedBySome(scripts[..Used(log, dummy, scripts)], w) ==>
                Iterates(old(Snap()), Snap(), Iteration(mnNow, fired, passed, scripts[..Used(log, dummy, scripts)]), w)
      ensures forall w :: w in fired ==> EV_TIMER in MaskOf(queued[w.pri], w)
      ensures (forall p :: 0 <= p < NUMPRI ==> pendings[p] == []) && (forall w :: w in watchers ==> w.pending == 0)
      ensures forall i, j :: 0 <= i < j < |fired| && fired[i].pri == fired[j].pri
                && (old(Snap())[fired[i]].repeat == 0 || fired[i] !in old(Pending()))
                && (old(Snap())[fired[j]].repeat == 0 || fired[j] !in old(Pending()))
                ==> DispatchedBefore(queued, dummy, scripts, fired[i], fired[j])
      ensures forall w :: w in watchers && Queued(queued[w.pri], w) ==> Dispatched(queued, dummy, scripts, w)
      ensures forall w :: w in fired ==> Queued(queued[w.pri], w) && Dispatched(queued, dummy, scripts, w)
      ensures forall w :: w in watchers ==> Invocations(log, w) <= 1 + FedByAll(scripts, w)
    {
      hide Valid, Snap, PassDone, ClearAll, FeedReversed, OneShots, Run, Pending, DispatchedBefore, Dispatched,
           Invocations, FedByAll, PerformedAll, Used, MaskOf, NamedBySome;
      ghost var s, qs := Snap(), pendings;
      ghost var pend := Pending();
      EntriesInOwnQueue();
      forall w | w in watchers ensures Solo(qs[w.pri], w) && (w !in pend ==> !Queued(qs[w.pri], w)) {
        PendingIsSolo(w);
        PendingMeans(w);
      }
      fired := TimersReify();
      queued, passed := pendings, Snap();
      PassIsDistinct(s, Snap(), fired, mnNow);
      ghost var stopped := OneShots(s, fired);
      ghost var q1 := ClearAll(qs, dummy, stopped);
      forall i, j | 0 <= i < j < |fired| && fired[i].pri == fired[j].pri
        && (s[fired[i]].repeat == 0 || fired[i] !in pend)
        && (s[fired[j]].repeat == 0 || fired[j] !in pend)
        ensures DispatchedBefore(queued, dummy, scripts, fired[i], fired[j])
      {
        ClearAllRemoves(qs, dummy, stopped, fired[i]);
        ClearAllRemoves(qs, dummy, stopped, fired[j]);
        FeedOrderIsDispatchOrder(q1, fired, {EV_TIMER}, dummy, scripts, i, j);
      }
      forall w | w in watchers && Queued(queued[w.pri], w) ensures Dispatched(queued, dummy, scripts, w) {
        PendingIsSolo(w);
        EntriesInOwnQueue();
        QueuedIsDispatched(queued, dummy, scripts, w);
      }
      forall w | w in fired ensures Queued(queued[w.pri], w) {
        FedIsQueued(q1, fired, {EV_TIMER}, w);
      }
      forall w | w in watchers ensures Invocations(Run(queued, dummy, scripts), w) <= 1 + FedByAll(scripts, w) {
        PendingIsSolo(w);
        SoloEntered(queued[w.pri], w);
        EntriesInOwnQueue();
        AtMostOncePerFeed(queued, dummy, scripts, w);
      }
      forall w | w in fired ensures EV_TIMER in MaskOf(queued[w.pri], w) {
        ClearAllRemoves(qs, dummy, stopped, w);
        FedHasMask(q1, fired, {EV_TIMER}, w);
      }
      log := EvInvokePending(scripts);
    }

    ghost function Pending(): set<Watcher>
      reads watchers`pending
    {
      set w | w in watchers && w.pending != 0
    }

    lemma PendingMeans(w: Watcher)
      requires w in watchers
      ensures w in Pending() <==> w.pending != 0
    {
    }

    lemma EntriesInOwnQueue()
      requires Valid()
      ensures InOwnQueue(pendings, dummy) && dummy !in watchers
    {
      forall p, i | 0 <= p < NUMPRI && 0 <= i < |pendings[p]|
        ensures pendings[p][i].w == dummy || pendings[p][i].w.pri == p
      {
        assert EntryOk(p, i);
      }
    }
  }
}
