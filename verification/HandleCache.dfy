/** The cache of library handles: a table that only grows, read without a lock, written under one.

    A step is one read or write of the table or of its length by one thread; the barrier before the
    length is raised makes their interleaving sequentially consistent. */
module HandleCache {

  const DL_CACHE_MAX := 32
  const PATH_SIZE := 256
  const NULL: nat := 0

  datatype Entry = Entry(path: string, handle: nat)

  /** Where a thread is inside `dl_get`. */
  datatype Thread =
    | Idle
    | Fast(path: string, n: nat, i: nat)      // scans the n entries that it saw published
    | WantLock(path: string)
    | Slow(path: string, i: nat)              // scans again, holding the lock
    | Load(path: string)                      // about to call dlopen
    | Loaded(path: string, handle: nat)       // got a handle to store
    | PathWritten(path: string, handle: nat)
    | Written(path: string, handle: nat)      // the entry is complete but not published
    | Leave(path: string, handle: nat)        // about to give the lock back

  datatype Result = Result(path: string, handle: nat)

  type Table = t: seq<Entry> | |t| == DL_CACHE_MAX witness seq(DL_CACHE_MAX, _ => Entry("", NULL))

  /** owner: the thread that holds the lock, or -1; loads and results: what all calls of dlopen and
      of dl_get have returned so far. */
  datatype State = State(table: Table, count: nat, owner: int, threads: seq<Thread>, loads: seq<Result>, results: seq<Result>)

  function Init(n: nat): State {
    State(seq(DL_CACHE_MAX, _ => Entry("", NULL)), 0, -1, seq(n, _ => Idle), [], [])
  }

  /** What snprintf stores in the 256 bytes of an entry. */
  function Stored(path: string): (s: string)
    ensures s == path <==> |path| < PATH_SIZE
    ensures s <= path
  {
    if |path| < PATH_SIZE then path else path[..PATH_SIZE - 1]
  }

  datatype Action =
    | Call(t: nat, path: string)
    | Step(t: nat)
    | Dlopen(t: nat, result: nat)

  function Set(s: State, t: nat, to: Thread): State
    requires t < |s.threads|
  {
    s.(threads := s.threads[t := to])
  }

  function Return(s: State, t: nat, path: string, handle: nat): State
    requires t < |s.threads|
  {
    Set(s, t, Idle).(results := s.results + [Result(path, handle)])
  }

  /** An action that is not possible leaves the state alone. */
  function Do(s: State, a: Action): State {
    if a.t >= |s.threads| then s
    else
      match (s.threads[a.t], a)
      case (Idle, Call(t, path)) => Set(s, t, Fast(path, s.count, 0))
      case (Fast(path, n, i), Step(t)) =>
        if i >= n || i >= DL_CACHE_MAX then Set(s, t, WantLock(path))
        else if s.table[i].path == path then Return(s, t, path, s.table[i].handle)
        else Set(s, t, Fast(path, n, i + 1))
      case (WantLock(path), Step(t)) =>
        if s.owner != -1 then s else Set(s, t, Slow(path, 0)).(owner := t)
      case (Slow(path, i), Step(t)) =>
        if i >= s.count || i >= DL_CACHE_MAX then
          Set(s, t, if s.count < DL_CACHE_MAX then Load(path) else Leave(path, NULL))
        else if s.table[i].path == path then Set(s, t, Leave(path, s.table[i].handle))
        else Set(s, t, Slow(path, i + 1))
      case (Load(path), Dlopen(t, h)) =>
        if h == NULL then Set(s, t, Leave(path, NULL))
        else Set(s, t, Loaded(path, h)).(loads := s.loads + [Result(path, h)])
      case (Loaded(path, h), Step(t)) =>
        if s.count >= DL_CACHE_MAX then s
        else Set(s, t, PathWritten(path, h)).(table := s.table[s.count := s.table[s.count].(path := Stored(path))])
      case (PathWritten(path, h), Step(t)) =>
        if s.count >= DL_CACHE_MAX then s
        else Set(s, t, Written(path, h)).(table := s.table[s.count := s.table[s.count].(handle := h)])
      case (Written(path, h), Step(t)) => Set(s, t, Leave(path, h)).(count := s.count + 1)
      case (Leave(path, h), Step(t)) => Return(s, t, path, h).(owner := -1)
      case _ => s
  }

  function After(s: State, run: seq<Action>): State {
    if run == [] then s else Do(After(s, run[..|run| - 1]), run[|run| - 1])
  }

  // ----- what every run keeps -----

  /** The first entry for a path among the first n. */
  function Lookup(table: seq<Entry>, n: nat, path: string): nat
    requires n <= |table|
  {
    if n == 0 then NULL
    else if Lookup(table, n - 1, path) != NULL then Lookup(table, n - 1, path)
    else if table[n - 1].path == path then table[n - 1].handle
    else NULL
  }

  predicate Locked(th: Thread) {
    th.Slow? || th.Load? || th.Loaded? || th.PathWritten? || th.Written? || th.Leave?
  }

  /** A call that returns h for a short path has taken it from the first entry for that path. */
  predicate Right(s: State, path: string, h: nat)
    requires s.count <= DL_CACHE_MAX
  {
    h == NULL || |path| >= PATH_SIZE || Lookup(s.table, s.count, path) == h
  }

  predicate ThreadOk(s: State, th: Thread)
    requires s.count <= DL_CACHE_MAX
  {
    match th
    case Idle => true
    case WantLock(_) => true
    case Fast(path, n, i) => i <= n <= s.count && Lookup(s.table, i, path) == NULL
    case Slow(path, i) => i <= s.count && Lookup(s.table, i, path) == NULL
    case Load(path) => s.count < DL_CACHE_MAX && Lookup(s.table, s.count, path) == NULL
    case Loaded(path, h) => s.count < DL_CACHE_MAX && Lookup(s.table, s.count, path) == NULL && h != NULL
    case PathWritten(path, h) =>
      s.count < DL_CACHE_MAX && Lookup(s.table, s.count, path) == NULL && h != NULL
      && s.table[s.count].path == Stored(path)
    case Written(path, h) =>
      s.count < DL_CACHE_MAX && Lookup(s.table, s.count, path) == NULL && h != NULL
      && s.table[s.count] == Entry(Stored(path), h)
    case Leave(path, h) => Right(s, path, h) && (h == NULL ==> Lookup(s.table, s.count, path) == NULL)
  }

  predicate Inv(s: State) {
    && s.count <= DL_CACHE_MAX
    && (forall i :: 0 <= i < s.count ==> s.table[i].handle != NULL)
    && (forall i :: 0 <= i < DL_CACHE_MAX ==> |s.table[i].path| < PATH_SIZE)
    && (forall t :: 0 <= t < |s.threads| ==> ThreadOk(s, s.threads[t]))
    && (forall t :: 0 <= t < |s.threads| && Locked(s.threads[t]) ==> s.owner == t)
    && (forall i :: 0 <= i < |s.results| ==> Right(s, s.results[i].path, s.results[i].handle))
  }

  lemma {:induction false} LookupSame(a: seq<Entry>, b: seq<Entry>, n: nat, path: string)
    requires n <= |a| && n <= |b| && a[..n] == b[..n]
    ensures Lookup(a, n, path) == Lookup(b, n, path)
  {
    if n > 0 {
      assert a[..n - 1] == a[..n][..n - 1] == b[..n - 1];
      assert a[n - 1] == a[..n][n - 1] == b[n - 1];
      LookupSame(a, b, n - 1, path);
    }
  }

  lemma {:induction false} LookupStays(table: seq<Entry>, n: nat, m: nat, path: string)
    requires n <= m <= |table| && Lookup(table, n, path) != NULL
    ensures Lookup(table, m, path) == Lookup(table, n, path)
  {
    if n < m {
      LookupStays(table, n, m - 1, path);
    }
  }

  /** A published entry never changes, and entries are published one at a time. */
  lemma StepGrows(s: State, a: Action)
    requires Inv(s)
    ensures var s' := Do(s, a);
      && s.count <= s'.count <= s.count + 1
      && s'.table[..s.count] == s.table[..s.count]
      && (s'.count > s.count ==> a.t < |s.threads| && s.threads[a.t].Written? && s'.table == s.table)
      && (s'.table != s.table || s'.count != s.count ==> a.t < |s.threads| && Locked(s.threads[a.t]))
  {
    var s' := Do(s, a);
    assert a.t < |s.threads| ==> ThreadOk(s, s.threads[a.t]);
    forall i | 0 <= i < s.count ensures s'.table[i] == s.table[i] {
    }
  }

  /** What is known of a thread that does not move. */
  lemma OthersKeep(s: State, a: Action, t: nat)
    requires Inv(s) && t < |s.threads| && t != a.t
    ensures var s' := Do(s, a); s'.count <= DL_CACHE_MAX && ThreadOk(s', s.threads[t])
  {
    var s' := Do(s, a);
    StepGrows(s, a);
    assert ThreadOk(s, s.threads[t]) && (a.t < |s.threads| ==> ThreadOk(s, s.threads[a.t]));
    match s.threads[t] {
      case Fast(path, n, i) =>
        assert s.table[..i] == s.table[..s.count][..i] && s'.table[..i] == s'.table[..s.count][..i];
        LookupSame(s.table, s'.table, i, path);
      case _ =>
    }
  }

  lemma RightStays(s: State, a: Action, path: string, h: nat)
    requires Inv(s) && Right(s, path, h)
    ensures var s' := Do(s, a); s'.count <= DL_CACHE_MAX && Right(s', path, h)
  {
    var s' := Do(s, a);
    StepGrows(s, a);
    assert a.t < |s.threads| ==> ThreadOk(s, s.threads[a.t]);
    LookupSame(s.table, s'.table, s.count, path);
    if Lookup(s.table, s.count, path) != NULL {
      LookupStays(s'.table, s.count, s'.count, path);
    }
  }

  lemma Found(s: State, i: nat, path: string)
    requires Inv(s) && i < s.count && s.table[i].path == path && Lookup(s.table, i, path) == NULL
    ensures Lookup(s.table, s.count, path) == s.table[i].handle
  {
    LookupStays(s.table, i + 1, s.count, path);
  }

  lemma MoverKeeps(s: State, a: Action)
    requires Inv(s) && a.t < |s.threads|
    ensures var s' := Do(s, a); s'.count <= DL_CACHE_MAX && ThreadOk(s', s'.threads[a.t])
    ensures var s' := Do(s, a); |s'.results| > |s.results| ==> Right(s, s'.results[|s.results|].path, s'.results[|s.results|].handle)
  {
    var s', th := Do(s, a), s.threads[a.t];
    StepGrows(s, a);
    assert ThreadOk(s, th);
    match th {
      case Fast(path, n, i) =>
        if i < n && s.table[i].path == path {
          Found(s, i, path);
        }
      case Slow(path, i) =>
        if i < s.count && s.table[i].path == path {
          Found(s, i, path);
        }
      case Loaded(path, h) => LookupSame(s.table, s'.table, s.count, path);
      case PathWritten(path, h) => LookupSame(s.table, s'.table, s.count, path);
      case Written(path, h) => LookupSame(s.table, s'.table, s.count, path);
      case _ =>
    }
  }

  lemma StepInv(s: State, a: Action)
    requires Inv(s)
    ensures Inv(Do(s, a))
  {
    hide ThreadOk, Right, Stored;
    var s' := Do(s, a);
    if a.t < |s.threads| {
      StepGrows(s, a);
      MoverKeeps(s, a);
      forall t | 0 <= t < |s'.threads| ensures ThreadOk(s', s'.threads[t]) {
        if t != a.t {
          OthersKeep(s, a, t);
        }
      }
      forall i | 0 <= i < |s'.results| ensures Right(s', s'.results[i].path, s'.results[i].handle) {
        RightStays(s, a, s'.results[i].path, s'.results[i].handle);
      }
      EntriesStayFull(s, a);
      LockStaysExclusive(s, a);
    }
  }

  lemma LockStaysExclusive(s: State, a: Action)
    requires Inv(s)
    ensures var s' := Do(s, a);
      && (forall t :: 0 <= t < |s'.threads| && Locked(s'.threads[t]) ==> s'.owner == t)
      && (forall i :: 0 <= i < DL_CACHE_MAX ==> |s'.table[i].path| < PATH_SIZE)
  {
  }

  lemma EntriesStayFull(s: State, a: Action)
    requires Inv(s)
    ensures var s' := Do(s, a); s'.count <= DL_CACHE_MAX && forall i :: 0 <= i < s'.count ==> s'.table[i].handle != NULL
  {
    var s' := Do(s, a);
    StepGrows(s, a);
    assert a.t < |s.threads| ==> ThreadOk(s, s.threads[a.t]);
    forall i | 0 <= i < s'.count ensures s'.table[i].handle != NULL {
      if i < s.count {
        assert s'.table[i] == s'.table[..s.count][i] == s.table[..s.count][i];
      }
    }
  }

  lemma {:induction false} RunInv(n: nat, run: seq<Action>)
    ensures Inv(After(Init(n), run))
  {
    if run != [] {
      RunInv(n, run[..|run| - 1]);
      StepInv(After(Init(n), run[..|run| - 1]), run[|run| - 1]);
    }
  }

  // ----- what that means -----

  /** Published entries are complete, and no later step of any thread changes them. */
  lemma {:induction false} PublishedNeverChanges(n: nat, run: seq<Action>, later: seq<Action>)
    ensures var s, s' := After(Init(n), run), After(Init(n), run + later);
      s.count <= s'.count <= DL_CACHE_MAX && s'.table[..s.count] == s.table[..s.count]
      && forall i :: 0 <= i < s.count ==> s.table[i].handle != NULL
  {
    hide Do, ThreadOk, Right;
    RunInv(n, run);
    if later == [] {
      assert run + later == run;
    } else {
      var most := later[..|later| - 1];
      assert (run + later)[..|run + later| - 1] == run + most;
      PublishedNeverChanges(n, run, most);
      RunInv(n, run + most);
      RunInv(n, run + later);
      var t := After(Init(n), run + most);
      StepGrows(t, later[|later| - 1]);
    }
  }

  /** All the calls for one path that return a handle at all return the same handle, whatever the
      threads do and whatever dlopen returns, if the path fits in an entry. */
  lemma SameHandle(n: nat, run: seq<Action>, i: nat, j: nat)
    requires var rs := After(Init(n), run).results;
      i < |rs| && j < |rs| && rs[i].path == rs[j].path && |rs[i].path| < PATH_SIZE
      && rs[i].handle != NULL && rs[j].handle != NULL
    ensures var rs := After(Init(n), run).results; rs[i].handle == rs[j].handle
  {
    RunInv(n, run);
    var s := After(Init(n), run);
    assert Right(s, s.results[i].path, s.results[i].handle) && Right(s, s.results[j].path, s.results[j].handle);
  }

  /** Only a path that fits has an entry. */
  lemma {:induction false} EntryIsShort(table: seq<Entry>, n: nat, q: string)
    requires n <= |table| && forall i :: 0 <= i < n ==> |table[i].path| < PATH_SIZE
    requires Lookup(table, n, q) != NULL
    ensures |q| < PATH_SIZE
  {
    if Lookup(table, n - 1, q) != NULL {
      EntryIsShort(table, n - 1, q);
    }
  }

  /** From here on every call for q that is over has got h, and dlopen has not been asked for q. */
  predicate HitsSince(s: State, s': State, q: string, h: nat) {
    && s.count <= s'.count <= DL_CACHE_MAX && Lookup(s'.table, s'.count, q) == h
    && s.results <= s'.results && s.loads <= s'.loads
    && (forall i :: |s.results| <= i < |s'.results| && s'.results[i].path == q ==> s'.results[i].handle == h)
    && (forall i :: |s.loads| <= i < |s'.loads| ==> s'.loads[i].path != q)
  }

  lemma StepHits(s: State, t: State, a: Action, q: string, h: nat)
    requires Inv(t) && h != NULL && HitsSince(s, t, q, h)
    ensures HitsSince(s, Do(t, a), q, h)
  {
    var t' := Do(t, a);
    StepGrows(t, a);
    StepInv(t, a);
    LookupSame(t.table, t'.table, t.count, q);
    LookupStays(t'.table, t.count, t'.count, q);
    if a.t < |t.threads| {
      ReturnsHit(t, a, q, h);
      hide Do, Inv, Lookup;
    }
  }

  /** A step that ends a call for q, or loads a library, while q has an entry. */
  lemma ReturnsHit(t: State, a: Action, q: string, h: nat)
    requires Inv(t) && h != NULL && Lookup(t.table, t.count, q) == h && a.t < |t.threads|
    ensures var t' := Do(t, a);
      && (t'.results == t.results || exists r :: t'.results == t.results + [r] && (r.path == q ==> r.handle == h))
      && (t'.loads == t.loads || exists r :: t'.loads == t.loads + [r] && r.path != q)
  {
    var t', th := Do(t, a), t.threads[a.t];
    assert ThreadOk(t, th);
    match th {
      case Fast(path, n, i) =>
        if i < n && t.table[i].path == path {
          Found(t, i, path);
          assert a.Step? ==> t'.results == t.results + [Result(path, t.table[i].handle)];
        }
      case Leave(path, x) =>
        EntryIsShort(t.table, t.count, q);
        assert a.Step? ==> t'.results == t.results + [Result(path, x)];
      case Load(path) =>
        assert a.Dlopen? && a.result != NULL ==> t'.loads == t.loads + [Result(path, a.result)];
      case _ =>
    }
  }

  /** Once a path has an entry, every call for it returns the handle of the first one, also a call that is
      under way, and dlopen is not asked for it any more, whatever the threads do. */
  lemma {:induction false} HitsAreReturned(n: nat, run: seq<Action>, later: seq<Action>, q: string)
    requires var s := After(Init(n), run); s.count <= DL_CACHE_MAX && Lookup(s.table, s.count, q) != NULL
    ensures var s := After(Init(n), run); HitsSince(s, After(Init(n), run + later), q, Lookup(s.table, s.count, q))
  {
    hide Do, Lookup, Inv;
    if later == [] {
      assert run + later == run;
    } else {
      var most := later[..|later| - 1];
      assert (run + later)[..|run + later| - 1] == run + most;
      HitsAreReturned(n, run, most, q);
      RunInv(n, run + most);
      var s := After(Init(n), run);
      StepHits(s, After(Init(n), run + most), later[|later| - 1], q, Lookup(s.table, s.count, q));
    }
  }

  // ----- paths that fit in an entry, and paths that do not -----

  predicate ShortRun(run: seq<Action>) {
    forall i :: 0 <= i < |run| && run[i].Call? ==> |run[i].path| < PATH_SIZE
  }

  predicate OneEntryEach(s: State)
    requires s.count <= DL_CACHE_MAX
  {
    forall i, j :: 0 <= i < j < s.count ==> s.table[i].path != s.table[j].path
  }

  predicate ShortThreads(s: State) {
    forall t :: 0 <= t < |s.threads| && !s.threads[t].Idle? ==> |s.threads[t].path| < PATH_SIZE
  }

  lemma {:induction false} NoEntry(table: seq<Entry>, n: nat, path: string)
    requires n <= |table| && Lookup(table, n, path) == NULL
    requires forall i :: 0 <= i < n ==> table[i].handle != NULL
    ensures forall i :: 0 <= i < n ==> table[i].path != path
  {
    if n > 0 {
      NoEntry(table, n - 1, path);
    }
  }

  lemma StepOneEntry(s: State, a: Action)
    requires Inv(s) && OneEntryEach(s) && ShortThreads(s) && ShortRun([a])
    ensures var s' := Do(s, a); s'.count <= DL_CACHE_MAX && OneEntryEach(s') && ShortThreads(s')
  {
    var s' := Do(s, a);
    assert [a][0] == a;
    StepGrows(s, a);
    assert s'.count > s.count ==> ThreadOk(s, s.threads[a.t]);
    if s'.count > s.count {
      NoEntry(s.table, s.count, s.threads[a.t].path);
    } else {
      forall i, j | 0 <= i < j < s'.count ensures s'.table[i].path != s'.table[j].path {
        assert s'.table[i] == s'.table[..s.count][i] == s.table[..s.count][i];
        assert s'.table[j] == s'.table[..s.count][j] == s.table[..s.count][j];
      }
    }
  }

  /** When every path fits in an entry, no path has two entries. */
  lemma {:induction false} OneEntryPerPath(n: nat, run: seq<Action>)
    requires ShortRun(run)
    ensures var s := After(Init(n), run); s.count <= DL_CACHE_MAX && OneEntryEach(s) && ShortThreads(s)
  {
    if run != [] {
      hide Do, Inv;
      var most, a := run[..|run| - 1], run[|run| - 1];
      OneEntryPerPath(n, most);
      RunInv(n, most);
      assert ShortRun([a]);
      StepOneEntry(After(Init(n), most), a);
    }
  }

  lemma OneMore(s: State, run: seq<Action>, a: Action)
    ensures After(s, run + [a]) == Do(After(s, run), a)
  {
    assert (run + [a])[..|run|] == run;
  }

  /** The state after a long path has been loaded once by a lone thread. */
  function LoadedOnce(path: string): State {
    var t := Init(1).table;
    State(t[0 := Entry(Stored(path), 1)], 1, -1, [Idle], [Result(path, 1)], [Result(path, 1)])
  }

  lemma ToLoad(path: string) returns (run: seq<Action>)
    ensures After(Init(1), run) == State(Init(1).table, 0, 0, [Load(path)], [], [])
  {
    assert After(Init(1), []) == Init(1);
    hide After, Stored;
    run := [];
    var s := Init(1);
    OneMore(Init(1), run, Call(0, path));
    run, s := run + [Call(0, path)], Do(s, Call(0, path));
    assert s.threads == [Fast(path, 0, 0)];
    OneMore(Init(1), run, Step(0));
    run, s := run + [Step(0)], Do(s, Step(0));
    assert s.threads == [WantLock(path)];
    OneMore(Init(1), run, Step(0));
    run, s := run + [Step(0)], Do(s, Step(0));
    assert s.threads == [Slow(path, 0)];
    OneMore(Init(1), run, Step(0));
    run, s := run + [Step(0)], Do(s, Step(0));
    assert s.threads == [Load(path)];
  }

  lemma FirstLoad(path: string) returns (run: seq<Action>)
    ensures After(Init(1), run) == LoadedOnce(path)
  {
    run := ToLoad(path);
    hide After, Stored;
    var t := Init(1).table;
    var s := State(t, 0, 0, [Load(path)], [], []);
    OneMore(Init(1), run, Dlopen(0, 1));
    run, s := run + [Dlopen(0, 1)], Do(s, Dlopen(0, 1));
    assert s.threads == [Loaded(path, 1)];
    OneMore(Init(1), run, Step(0));
    run, s := run + [Step(0)], Do(s, Step(0));
    assert s.threads == [PathWritten(path, 1)];
    OneMore(Init(1), run, Step(0));
    run, s := run + [Step(0)], Do(s, Step(0));
    assert s.threads == [Written(path, 1)];
    assert s.table == t[0 := Entry(Stored(path), 1)];
    assert s == State(t[0 := Entry(Stored(path), 1)], 0, 0, [Written(path, 1)], [Result(path, 1)], []);
    OneMore(Init(1), run, Step(0));
    run, s := run + [Step(0)], Do(s, Step(0));
    assert s.threads == [Leave(path, 1)];
    OneMore(Init(1), run, Step(0));
    run, s := run + [Step(0)], Do(s, Step(0));
    assert s.threads == [Idle];
  }

  lemma SecondLoad(path: string, first: seq<Action>) returns (run: seq<Action>)
    requires |path| >= PATH_SIZE && After(Init(1), first) == LoadedOnce(path)
    ensures After(Init(1), run).results == [Result(path, 1), Result(path, 2)]
  {
    hide After;
    run := first;
    var s := LoadedOnce(path);
    OneMore(Init(1), run, Call(0, path));
    run, s := run + [Call(0, path)], Do(s, Call(0, path));
    assert s.threads == [Fast(path, 1, 0)];
    OneMore(Init(1), run, Step(0));
    run, s := run + [Step(0)], Do(s, Step(0));
    assert s.threads == [Fast(path, 1, 1)];
    OneMore(Init(1), run, Step(0));
    run, s := run + [Step(0)], Do(s, Step(0));
    assert s.threads == [WantLock(path)];
    OneMore(Init(1), run, Step(0));
    run, s := run + [Step(0)], Do(s, Step(0));
    assert s.threads == [Slow(path, 0)];
    OneMore(Init(1), run, Step(0));
    run, s := run + [Step(0)], Do(s, Step(0));
    assert s.threads == [Slow(path, 1)];
    OneMore(Init(1), run, Step(0));
    run, s := run + [Step(0)], Do(s, Step(0));
    assert s.threads == [Load(path)];
    OneMore(Init(1), run, Dlopen(0, 2));
    run, s := run + [Dlopen(0, 2)], Do(s, Dlopen(0, 2));
    assert s.threads == [Loaded(path, 2)];
    OneMore(Init(1), run, Step(0));
    run, s := run + [Step(0)], Do(s, Step(0));
    assert s.threads == [PathWritten(path, 2)];
    OneMore(Init(1), run, Step(0));
    run, s := run + [Step(0)], Do(s, Step(0));
    assert s.threads == [Written(path, 2)];
    OneMore(Init(1), run, Step(0));
    run, s := run + [Step(0)], Do(s, Step(0));
    assert s.threads == [Leave(path, 2)];
    OneMore(Init(1), run, Step(0));
    run, s := run + [Step(0)], Do(s, Step(0));
    assert s.threads == [Idle];
  }

  /** A path that does not fit is never found again: every call asks dlopen anew, so that two calls
      return different handles if dlopen answers differently. */
  lemma LongPathLoadsAgain(path: string)
    requires |path| >= PATH_SIZE
    ensures exists run :: After(Init(1), run).results == [Result(path, 1), Result(path, 2)]
  {
    var first := FirstLoad(path);
    var run := SecondLoad(path, first);
  }

  // ----- whose handle a call returns -----

  /** dlopen has returned the handle for some path that an entry stores like this. */
  predicate Traced(loads: seq<Result>, stored: string, handle: nat) {
    exists j :: 0 <= j < |loads| && loads[j].handle == handle && Stored(loads[j].path) == stored
  }

  /** dlopen has returned the handle for this very path, or the path was found in an entry. */
  predicate Sourced(loads: seq<Result>, path: string, handle: nat) {
    Result(path, handle) in loads || Traced(loads, path, handle)
  }

  predicate ThreadSourced(s: State, th: Thread) {
    match th
    case Loaded(path, h) => Result(path, h) in s.loads
    case PathWritten(path, h) => Result(path, h) in s.loads
    case Written(path, h) => Result(path, h) in s.loads
    case Leave(path, h) => h == NULL || Sourced(s.loads, path, h)
    case _ => true
  }

  predicate AllSourced(s: State) {
    && s.count <= DL_CACHE_MAX
    && (forall i :: 0 <= i < s.count ==> Traced(s.loads, s.table[i].path, s.table[i].handle))
    && (forall t :: 0 <= t < |s.threads| ==> ThreadSourced(s, s.threads[t]))
    && (forall i :: 0 <= i < |s.results| ==>
          s.results[i].handle == NULL || Sourced(s.loads, s.results[i].path, s.results[i].handle))
  }

  lemma TracedStays(loads: seq<Result>, more: seq<Result>, stored: string, handle: nat)
    requires Traced(loads, stored, handle)
    ensures Traced(loads + more, stored, handle)
  {
    var j :| 0 <= j < |loads| && loads[j].handle == handle && Stored(loads[j].path) == stored;
    assert (loads + more)[j] == loads[j];
  }

  /** loads only grows. */
  lemma LoadsGrow(s: State, a: Action) returns (more: seq<Result>)
    ensures Do(s, a).loads == s.loads + more
  {
    more := Do(s, a).loads[|s.loads|..];
  }

  lemma EntriesStaySourced(s: State, a: Action)
    requires Inv(s) && AllSourced(s)
    ensures var s' := Do(s, a);
      s'.count <= DL_CACHE_MAX && forall i :: 0 <= i < s'.count ==> Traced(s'.loads, s'.table[i].path, s'.table[i].handle)
  {
    var s' := Do(s, a);
    var more := LoadsGrow(s, a);
    StepGrows(s, a);
    StepInv(s, a);
    forall i | 0 <= i < s'.count ensures Traced(s'.loads, s'.table[i].path, s'.table[i].handle) {
      if i < s.count {
        assert s'.table[i] == s'.table[..s.count][i] == s.table[..s.count][i];
        TracedStays(s.loads, more, s.table[i].path, s.table[i].handle);
      } else {
        assert ThreadOk(s, s.threads[a.t]) && ThreadSourced(s, s.threads[a.t]);
        TracedStays(s.loads, more, s'.table[i].path, s'.table[i].handle);
      }
    }
  }

  lemma ThreadStaysSourced(s: State, a: Action, th: Thread)
    requires ThreadSourced(s, th)
    ensures ThreadSourced(Do(s, a), th)
  {
    hide Do;
    var more := LoadsGrow(s, a);
    if th.Leave? && Traced(s.loads, th.path, th.handle) {
      TracedStays(s.loads, more, th.path, th.handle);
    }
  }

  lemma StepSourced(s: State, a: Action)
    requires Inv(s) && AllSourced(s)
    ensures AllSourced(Do(s, a))
  {
    var s' := Do(s, a);
    EntriesStaySourced(s, a);
    if a.t < |s.threads| {
      hide Sourced, Traced, ThreadSourced;
      forall t | 0 <= t < |s'.threads| ensures ThreadSourced(s', s'.threads[t]) {
        if t != a.t {
          ThreadStaysSourced(s, a, s.threads[t]);
        }
      }
      forall i | 0 <= i < |s'.results|
        ensures s'.results[i].handle == NULL || Sourced(s'.loads, s'.results[i].path, s'.results[i].handle)
      {
        ResultStaysSourced(s, a, s'.results[i]);
      }
    }
  }

  lemma ResultStaysSourced(s: State, a: Action, r: Result)
    requires r.handle == NULL || Sourced(s.loads, r.path, r.handle)
    ensures r.handle == NULL || Sourced(Do(s, a).loads, r.path, r.handle)
  {
    hide Do;
    var more := LoadsGrow(s, a);
    if r.handle != NULL && Traced(s.loads, r.path, r.handle) {
      TracedStays(s.loads, more, r.path, r.handle);
    }
  }

  lemma {:induction false} RunSourced(n: nat, run: seq<Action>)
    ensures AllSourced(After(Init(n), run))
  {
    if run != [] {
      RunInv(n, run[..|run| - 1]);
      RunSourced(n, run[..|run| - 1]);
      StepSourced(After(Init(n), run[..|run| - 1]), run[|run| - 1]);
    }
  }

  /** Some longer path has been loaded whose stored part is this path. */
  predicate Shadowed(loads: seq<Result>, path: string) {
    exists j :: 0 <= j < |loads| && loads[j].path != path && Stored(loads[j].path) == path
  }

  /** A handle that a call returns is one that dlopen has returned for that very path, unless a
      longer path has been loaded whose first 255 bytes are this path. */
  lemma OwnHandleUnlessShadowed(n: nat, run: seq<Action>, i: nat)
    requires i < |After(Init(n), run).results| && After(Init(n), run).results[i].handle != NULL
    ensures var s := After(Init(n), run); s.results[i] in s.loads || Shadowed(s.loads, s.results[i].path)
  {
    RunSourced(n, run);
    var s := After(Init(n), run);
    var r := s.results[i];
    assert Sourced(s.loads, r.path, r.handle);
    if r !in s.loads {
      var j :| 0 <= j < |s.loads| && s.loads[j].handle == r.handle && Stored(s.loads[j].path) == r.path;
      assert s.loads[j] in s.loads;
      assert s.loads[j] == Result(s.loads[j].path, r.handle) && r == Result(r.path, r.handle);
    }
  }

  /** Some call for the path has returned a handle that was never loaded for it. */
  predicate Foreign(s: State, path: string) {
    exists i :: 0 <= i < |s.results| && s.results[i].path == path && s.results[i].handle != NULL && s.results[i] !in s.loads
  }

  /** A path of 255 bytes is mistaken for a longer one that begins with it. */
  lemma ShadowedGetsForeign(path: string) returns (run: seq<Action>)
    requires |path| == PATH_SIZE - 1
    ensures Foreign(After(Init(1), run), path)
  {
    var longer := path + "/";
    assert Stored(longer) == path;
    var first := FirstLoad(longer);
    hide After, Stored;
    var s := LoadedOnce(longer);
    OneMore(Init(1), first, Call(0, path));
    run, s := first + [Call(0, path)], Do(s, Call(0, path));
    assert s.threads == [Fast(path, 1, 0)] && s.table[0] == Entry(path, 1);
    OneMore(Init(1), run, Step(0));
    run, s := run + [Step(0)], Do(s, Step(0));
    assert s.results[1] == Result(path, 1) && s.loads == [Result(longer, 1)] && longer != path;
  }

  /** A call for a path can return the handle of another library if and only if the path has exactly
      255 bytes. */
  lemma WrongLibraryIff(path: string)
    ensures (exists n, run :: Foreign(After(Init(n), run), path)) <==> |path| == PATH_SIZE - 1
  {
    if n, run :| Foreign(After(Init(n), run), path) {
      var s := After(Init(n), run);
      var i :| 0 <= i < |s.results| && s.results[i].path == path && s.results[i].handle != NULL && s.results[i] !in s.loads;
      OwnHandleUnlessShadowed(n, run, i);
    }
    if |path| == PATH_SIZE - 1 {
      var run := ShadowedGetsForeign(path);
    }
  }

  // ----- what a long path costs -----

  /** dlopen has always answered the same for the same path. */
  predicate Steady(loads: seq<Result>) {
    forall i, j :: 0 <= i < j < |loads| && loads[i].path == loads[j].path ==> loads[i].handle == loads[j].handle
  }

  /** With a dlopen that answers the same for the same path, all calls for a long path that return a
      handle return the same one, too. */
  lemma LongPathSameIfSteady(n: nat, run: seq<Action>, i: nat, j: nat)
    requires var s := After(Init(n), run);
      Steady(s.loads) && i < |s.results| && j < |s.results| && s.results[i].path == s.results[j].path
      && |s.results[i].path| >= PATH_SIZE && s.results[i].handle != NULL && s.results[j].handle != NULL
    ensures var rs := After(Init(n), run).results; rs[i].handle == rs[j].handle
  {
    OwnHandleUnlessShadowed(n, run, i);
    OwnHandleUnlessShadowed(n, run, j);
    var s := After(Init(n), run);
    var k :| 0 <= k < |s.loads| && s.loads[k] == s.results[i];
    var m :| 0 <= m < |s.loads| && s.loads[m] == s.results[j];
  }

  function Count(th: Thread): nat {
    if th.Leave? && th.handle != NULL && |th.path| >= PATH_SIZE then 1 else 0
  }

  /** The threads that are about to return a handle for a long path. */
  function Leaving(ths: seq<Thread>): nat {
    if ths == [] then 0 else Count(ths[0]) + Leaving(ths[1..])
  }

  /** The calls for long paths that have returned a handle. */
  function LongResults(rs: seq<Result>): nat {
    if rs == [] then 0
    else LongResults(rs[..|rs| - 1]) + if |rs[|rs| - 1].path| >= PATH_SIZE && rs[|rs| - 1].handle != NULL then 1 else 0
  }

  lemma {:induction false} LeavingMoves(ths: seq<Thread>, t: nat, to: Thread)
    requires t < |ths|
    ensures Leaving(ths[t := to]) == Leaving(ths) - Count(ths[t]) + Count(to)
  {
    if t == 0 {
      assert ths[t := to][1..] == ths[1..];
    } else {
      assert ths[t := to][1..] == ths[1..][t - 1 := to];
      LeavingMoves(ths[1..], t - 1, to);
    }
  }

  /** No entry matches a long path, and every handle for one has used an entry up. */
  predicate Paid(s: State) {
    && (forall i :: 0 <= i < DL_CACHE_MAX ==> |s.table[i].path| < PATH_SIZE)
    && LongResults(s.results) + Leaving(s.threads) <= s.count
  }

  /** What a step means for the handles of long paths: only publishing an entry makes one, and only
      returning it to the caller makes it a result. */
  lemma StepPays(s: State, a: Action)
    requires a.t < |s.threads|
    requires forall i :: 0 <= i < DL_CACHE_MAX ==> |s.table[i].path| < PATH_SIZE
    ensures var s', th := Do(s, a), s.threads[a.t];
      && (forall i :: 0 <= i < DL_CACHE_MAX ==> |s'.table[i].path| < PATH_SIZE)
      && s'.threads == s.threads[a.t := s'.threads[a.t]]
      && s'.count == s.count + (if th.Written? && a.Step? then 1 else 0)
      && Count(s'.threads[a.t]) <= (if th.Written? && a.Step? then 1 else if s'.results == s.results then Count(th) else 0)
      && (s'.results == s.results ||
            (th.Leave? && s'.results == s.results + [Result(th.path, th.handle)]) ||
            (th.Fast? && |th.path| < PATH_SIZE && |s'.results| > 0 && s'.results[..|s'.results| - 1] == s.results
               && s'.results[|s'.results| - 1].path == th.path))
  {
  }

  lemma OneMoreResult(rs: seq<Result>, r: Result)
    ensures LongResults(rs + [r]) == LongResults(rs) + if |r.path| >= PATH_SIZE && r.handle != NULL then 1 else 0
  {
    assert (rs + [r])[..|rs|] == rs;
  }

  lemma StepPaid(s: State, a: Action)
    requires Paid(s)
    ensures Paid(Do(s, a))
  {
    if a.t < |s.threads| {
      var s', th := Do(s, a), s.threads[a.t];
      StepPays(s, a);
      LeavingMoves(s.threads, a.t, s'.threads[a.t]);
      hide Do, Leaving;
      if th.Leave? {
        OneMoreResult(s.results, Result(th.path, th.handle));
      }
    }
  }

  /** In any run, at most as many calls for long paths as there are entries get a handle, all of them
      together: every one of them uses an entry up for good. */
  lemma {:induction false} LongPathsUseEntriesUp(n: nat, run: seq<Action>)
    ensures var s := After(Init(n), run); Paid(s) && LongResults(s.results) <= s.count <= DL_CACHE_MAX
  {
    RunInv(n, run);
    if run == [] {
      NoneLeaving(n);
    } else {
      LongPathsUseEntriesUp(n, run[..|run| - 1]);
      StepPaid(After(Init(n), run[..|run| - 1]), run[|run| - 1]);
    }
  }

  lemma {:induction false} NoneLeaving(n: nat)
    ensures Leaving(seq(n, _ => Idle)) == 0
  {
    if n > 0 {
      assert seq(n, _ => Idle)[1..] == seq(n - 1, _ => Idle);
      NoneLeaving(n - 1);
    }
  }

  /** The table is full, has no entry for q, and a thread that asks for q is not going to load it. */
  predicate Refusing(s: State, q: string) {
    && s.count == DL_CACHE_MAX
    && Lookup(s.table, DL_CACHE_MAX, q) == NULL
    && forall t :: 0 <= t < |s.threads| ==>
        && !s.threads[t].Load? && !s.threads[t].Loaded? && !s.threads[t].PathWritten? && !s.threads[t].Written?
        && (s.threads[t].Leave? && s.threads[t].path == q ==> s.threads[t].handle == NULL)
  }

  lemma StepRefusing(s: State, a: Action, q: string)
    requires Inv(s) && Refusing(s, q)
    ensures var s' := Do(s, a);
      && Refusing(s', q) && s'.loads == s.loads && s'.table == s.table
      && s.results <= s'.results
      && forall i :: |s.results| <= i < |s'.results| && s'.results[i].path == q ==> s'.results[i].handle == NULL
  {
    if a.t < |s.threads| {
      var th := s.threads[a.t];
      if (th.Fast? || th.Slow?) && th.i < DL_CACHE_MAX {
        NoEntry(s.table, DL_CACHE_MAX, q);
      }
    }
  }

  lemma {:induction false} RefusesOn(n: nat, run: seq<Action>, later: seq<Action>, q: string)
    requires Refusing(After(Init(n), run), q)
    ensures var s, s' := After(Init(n), run), After(Init(n), run + later);
      && Refusing(s', q) && s'.loads == s.loads && s'.table == s.table && s.results <= s'.results
      && forall i :: |s.results| <= i < |s'.results| && s'.results[i].path == q ==> s'.results[i].handle == NULL
  {
    if later == [] {
      assert run + later == run;
    } else {
      hide Do, Inv, Refusing;
      var most := later[..|later| - 1];
      assert (run + later)[..|run + later| - 1] == run + most;
      RefusesOn(n, run, most, q);
      RunInv(n, run + most);
      StepRefusing(After(Init(n), run + most), later[|later| - 1], q);
    }
  }

  /** No call for the path is just returning a handle. */
  predicate NoneReturning(s: State, q: string) {
    forall t :: 0 <= t < |s.threads| && s.threads[t].Leave? && s.threads[t].path == q ==> s.threads[t].handle == NULL
  }

  /** Once the table is full, a call for a path that has no entry returns null without asking dlopen,
      for ever: whatever all threads go on to do, nothing is loaded any more. */
  lemma FullTableRefuses(n: nat, run: seq<Action>, later: seq<Action>, q: string)
    requires var s := After(Init(n), run);
      s.count == DL_CACHE_MAX && Lookup(s.table, DL_CACHE_MAX, q) == NULL && NoneReturning(s, q)
    ensures var s, s' := After(Init(n), run), After(Init(n), run + later);
      && s'.loads == s.loads && s'.table == s.table && s.results <= s'.results
      && forall i :: |s.results| <= i < |s'.results| && s'.results[i].path == q ==> s'.results[i].handle == NULL
  {
    RunInv(n, run);
    var s := After(Init(n), run);
    assert Refusing(s, q) by {
      assert forall t :: 0 <= t < |s.threads| ==> ThreadOk(s, s.threads[t]);
    }
    RefusesOn(n, run, later, q);
  }

  function FilledTable(path: string, k: nat): (t: seq<Entry>)
    ensures |t| == DL_CACHE_MAX
    ensures forall i :: 0 <= i < DL_CACHE_MAX ==> t[i] == if i < k then Entry(Stored(path), 1) else Entry("", NULL)
  {
    seq(DL_CACHE_MAX, i => if i < k then Entry(Stored(path), 1) else Entry("", NULL))
  }

  /** The state after a lone thread has called k times for a path that does not fit, with a dlopen
      that always answers the same. */
  function Filled(path: string, k: nat): State
    requires k <= DL_CACHE_MAX
  {
    State(FilledTable(path, k), k, -1, [Idle], seq(k, _ => Result(path, 1)), seq(k, _ => Result(path, 1)))
  }

  function With(s: State, th: Thread, owner: int): State {
    s.(threads := [th], owner := owner)
  }

  lemma FillScan(path: string, k: nat, run0: seq<Action>) returns (run: seq<Action>)
    requires |path| >= PATH_SIZE && k < DL_CACHE_MAX && After(Init(1), run0) == Filled(path, k) && CallsOnly(run0, path)
    ensures CallsOnly(run, path) && After(Init(1), run) == With(Filled(path, k), WantLock(path), -1)
  {
    hide After, FilledTable;
    assert Stored(path) != path;
    OneMore(Init(1), run0, Call(0, path));
    run := run0 + [Call(0, path)];
    var i := 0;
    while i < k
      invariant 0 <= i <= k && After(Init(1), run) == With(Filled(path, k), Fast(path, k, i), -1)
      invariant CallsOnly(run, path)
    {
      OneMore(Init(1), run, Step(0));
      run := run + [Step(0)];
      i := i + 1;
    }
    OneMore(Init(1), run, Step(0));
    run := run + [Step(0)];
  }

  lemma FillScanLocked(path: string, k: nat, run0: seq<Action>) returns (run: seq<Action>)
    requires |path| >= PATH_SIZE && k < DL_CACHE_MAX
    requires After(Init(1), run0) == With(Filled(path, k), WantLock(path), -1) && CallsOnly(run0, path)
    ensures CallsOnly(run, path) && After(Init(1), run) == With(Filled(path, k), Load(path), 0)
  {
    hide After, FilledTable;
    assert Stored(path) != path;
    OneMore(Init(1), run0, Step(0));
    run := run0 + [Step(0)];
    var i := 0;
    while i < k
      invariant 0 <= i <= k && After(Init(1), run) == With(Filled(path, k), Slow(path, i), 0)
      invariant CallsOnly(run, path)
    {
      OneMore(Init(1), run, Step(0));
      run := run + [Step(0)];
      i := i + 1;
    }
    OneMore(Init(1), run, Step(0));
    run := run + [Step(0)];
  }

  lemma FillOne(path: string, k: nat, run0: seq<Action>) returns (run: seq<Action>)
    requires k < DL_CACHE_MAX && After(Init(1), run0) == With(Filled(path, k), Load(path), 0)
    requires CallsOnly(run0, path)
    ensures CallsOnly(run, path) && After(Init(1), run) == Filled(path, k + 1)
  {
    hide After, Stored;
    var f, g := Filled(path, k), Filled(path, k + 1);
    assert f.loads + [Result(path, 1)] == g.loads && f.results + [Result(path, 1)] == g.results;
    OneMore(Init(1), run0, Dlopen(0, 1));
    run := run0 + [Dlopen(0, 1)];
    assert After(Init(1), run) == With(f, Loaded(path, 1), 0).(loads := g.loads);
    OneMore(Init(1), run, Step(0));
    run := run + [Step(0)];
    OneMore(Init(1), run, Step(0));
    run := run + [Step(0)];
    assert After(Init(1), run).table == g.table;
    assert After(Init(1), run) == With(f, Written(path, 1), 0).(loads := g.loads, table := g.table);
    OneMore(Init(1), run, Step(0));
    run := run + [Step(0)];
    OneMore(Init(1), run, Step(0));
    run := run + [Step(0)];
  }

  lemma {:induction false} FillsUp(path: string, k: nat) returns (run: seq<Action>)
    requires |path| >= PATH_SIZE && k <= DL_CACHE_MAX
    ensures CallsOnly(run, path) && After(Init(1), run) == Filled(path, k)
  {
    if k == 0 {
      run := [];
      assert Filled(path, 0).table == Init(1).table;
    } else {
      run := FillsUp(path, k - 1);
      run := FillScan(path, k - 1, run);
      run := FillScanLocked(path, k - 1, run);
      run := FillOne(path, k - 1, run);
    }
  }

  /** Every call so far has been for this path. */
  predicate OnlyFor(s: State, path: string) {
    && (forall i :: 0 <= i < |s.loads| ==> s.loads[i].path == path)
    && (forall i :: 0 <= i < |s.results| ==> s.results[i].path == path)
    && (forall t :: 0 <= t < |s.threads| && !s.threads[t].Idle? ==> s.threads[t].path == path)
  }

  predicate CallsOnly(run: seq<Action>, path: string) {
    forall i :: 0 <= i < |run| && run[i].Call? ==> run[i].path == path
  }

  lemma {:induction false} RunOnlyFor(n: nat, run: seq<Action>, path: string)
    requires CallsOnly(run, path)
    ensures OnlyFor(After(Init(n), run), path)
  {
    hide Do;
    if run != [] {
      RunOnlyFor(n, run[..|run| - 1], path);
      StepOnlyFor(After(Init(n), run[..|run| - 1]), run[|run| - 1], path);
    }
  }

  lemma StepOnlyFor(s: State, a: Action, path: string)
    requires OnlyFor(s, path) && (a.Call? ==> a.path == path)
    ensures OnlyFor(Do(s, a), path)
  {
  }

  /** Calls for one short path never use more than one entry. */
  lemma ShortPathUsesOne(n: nat, run: seq<Action>, path: string)
    requires CallsOnly(run, path) && |path| < PATH_SIZE
    ensures After(Init(n), run).count <= 1
  {
    OneEntryPerPath(n, run);
    RunOnlyFor(n, run, path);
    RunSourced(n, run);
    var s := After(Init(n), run);
    if s.count > 1 {
      TracedPath(s.loads, s.table[0].path, s.table[0].handle, path);
      TracedPath(s.loads, s.table[1].path, s.table[1].handle, path);
    }
  }

  lemma TracedPath(loads: seq<Result>, stored: string, handle: nat, path: string)
    requires Traced(loads, stored, handle) && forall i :: 0 <= i < |loads| ==> loads[i].path == path
    ensures stored == Stored(path)
  {
  }

  /** Calls for one path alone, with a dlopen that always gives the same handle, can fill the whole
      table if and only if the path does not fit in an entry. */
  lemma OnePathFillsTableIff(path: string)
    ensures (exists n, run :: CallsOnly(run, path) && Steady(After(Init(n), run).loads)
                              && After(Init(n), run).count == DL_CACHE_MAX)
       <==> |path| >= PATH_SIZE
  {
    if n, run :| CallsOnly(run, path) && Steady(After(Init(n), run).loads) && After(Init(n), run).count == DL_CACHE_MAX {
      if |path| < PATH_SIZE {
        ShortPathUsesOne(n, run, path);
      }
    }
    if |path| >= PATH_SIZE {
      var run := FillsUp(path, DL_CACHE_MAX);
      assert Steady(After(Init(1), run).loads);
    }
  }

  lemma {:induction false} FilledHasNoOther(path: string, k: nat, n: nat, q: string)
    requires k <= DL_CACHE_MAX && n <= DL_CACHE_MAX && q != Stored(path)
    ensures Lookup(FilledTable(path, k), n, q) == NULL
  {
    if n > 0 {
      FilledHasNoOther(path, k, n - 1, q);
    }
  }

  /** One long path, called often enough, shuts every other path out for good: after such calls a call
      for any path but the stored part of the long one returns null without asking dlopen. */
  lemma OneLongPathShutsOthersOut(path: string, q: string) returns (run: seq<Action>)
    requires |path| >= PATH_SIZE && q != Stored(path)
    ensures CallsOnly(run, path) && Steady(After(Init(1), run).loads)
    ensures forall later :: var s, s' := After(Init(1), run), After(Init(1), run + later);
      && s'.loads == s.loads && s.results <= s'.results
      && forall i :: |s.results| <= i < |s'.results| && s'.results[i].path == q ==> s'.results[i].handle == NULL
  {
    run := FillsUp(path, DL_CACHE_MAX);
    FilledHasNoOther(path, DL_CACHE_MAX, DL_CACHE_MAX, q);
    var s := After(Init(1), run);
    hide After, Filled;
    assert Steady(s.loads) && s.count == DL_CACHE_MAX && NoneReturning(s, q)
      && Lookup(s.table, DL_CACHE_MAX, q) == NULL by { FilledFacts(path); }
    forall later ensures var s' := After(Init(1), run + later);
      && s'.loads == s.loads && s.results <= s'.results
      && forall i :: |s.results| <= i < |s'.results| && s'.results[i].path == q ==> s'.results[i].handle == NULL
    {
      FullTableRefuses(1, run, later, q);
    }
  }

  lemma FilledFacts(path: string)
    ensures var s := Filled(path, DL_CACHE_MAX);
      Steady(s.loads) && s.count == DL_CACHE_MAX && s.threads == [Idle] && s.table == FilledTable(path, DL_CACHE_MAX)
  {
  }
}
