/** File descriptor watchers of a libev loop: the watcher lists, the deferred list of changed
    descriptors, and the interest set of the poll backend. */
module FdSet {
  import opened EvBits

  class Io {
    const fd: nat
    var events: Events      // what the watcher waits for, and EV_IOFDSET until it is started
    var active: bool

    constructor (fd: nat, events: Events)
      ensures this.fd == fd && this.events == events + {EV_IOFDSET} && !active
    {
      this.fd := fd;
      this.events := events + {EV_IOFDSET};
      active := false;
    }
  }

  /** head: the started watchers, latest first; events: what the backend has been told;
      reify, fdset: the two bits of the reify field. */
  datatype Anfd = Anfd(head: seq<Io>, events: Events, reify: bool, fdset: bool)

  datatype PollBit = POLLIN | POLLOUT

  datatype PollFd = PollFd(fd: nat, events: set<PollBit>)

  function PollMask(ev: Events): (m: set<PollBit>) {
    (if EV_READ in ev then {POLLIN} else {}) + (if EV_WRITE in ev then {POLLOUT} else {})
  }

  /** The masks that a started watcher can have. */
  predicate Plain(ev: Events) {
    ev <= {EV_READ, EV_WRITE}
  }

  // ----- the poll backend -----

  class PollSet {
    var polls: seq<PollFd>     // pollcnt is |polls|
    var pollidxs: seq<int>     // index into polls by descriptor, or -1

    /** The two arrays are inverse to each other. */
    ghost predicate Linked()
      reads this
    {
      && (forall i :: 0 <= i < |polls| ==> polls[i].fd < |pollidxs| && pollidxs[polls[i].fd] == i)
      && (forall fd :: 0 <= fd < |pollidxs| ==>
            pollidxs[fd] == -1 || (0 <= pollidxs[fd] < |polls| && polls[pollidxs[fd]].fd == fd))
    }

    /** ... and every entry waits for something. */
    ghost predicate Valid()
      reads this
    {
      Linked() && forall i :: 0 <= i < |polls| ==> polls[i].events != {}
    }

    /** What poll(2) is asked to report for a descriptor. */
    ghost function Interest(fd: nat): set<PollBit>
      reads this
    {
      if fd < |pollidxs| && 0 <= pollidxs[fd] < |polls| then polls[pollidxs[fd]].events else {}
    }

    constructor ()
      ensures Valid() && forall fd: nat :: Interest(fd) == {}
    {
      polls, pollidxs := [], [];
    }

    /** Finds or makes the entry of a descriptor. */
    method Entry(fd: nat) returns (idx: nat)
      requires Linked()
      modifies this
      ensures Linked()
      ensures fd < |pollidxs| && pollidxs[fd] == idx < |polls|
      ensures forall i :: 0 <= i < |polls| && i != idx ==> i < |old(polls)| && polls[i] == old(polls)[i]
      ensures forall g: nat :: g != fd ==> Interest(g) == old(Interest(g))
    {
      if |pollidxs| <= fd {
        pollidxs := pollidxs + seq(fd + 1 - |pollidxs|, _ => -1);
      }
      if pollidxs[fd] < 0 {
        pollidxs := pollidxs[fd := |polls|];
        polls := polls + [PollFd(fd, {})];
      }
      idx := pollidxs[fd];
    }

    /** Removes entry idx; the last entry takes its place. */
    method Drop(fd: nat, idx: nat)
      requires Linked() && fd < |pollidxs| && pollidxs[fd] == idx < |polls|
      modifies this
      ensures Linked() && Interest(fd) == {}
      ensures forall g: nat :: g != fd ==> Interest(g) == old(Interest(g))
      ensures |polls| == |old(polls)| - 1
      ensures forall i :: 0 <= i < |polls| ==> polls[i] == old(polls)[if i == idx then |old(polls)| - 1 else i]
    {
      pollidxs := pollidxs[fd := -1];
      var last := polls[|polls| - 1];
      polls := polls[..|polls| - 1];
      if idx < |polls| {
        polls := polls[idx := last];
        pollidxs := pollidxs[last.fd := idx];
      }
    }

    /** `poll_modify`. */
    method Modify(fd: nat, oev: Events, nev: Events)
      requires Valid() && Plain(oev) && Plain(nev)
      requires Interest(fd) == PollMask(oev)
      modifies this
      ensures Valid()
      ensures Interest(fd) == PollMask(nev)
      ensures POLLIN in Interest(fd) <==> EV_READ in nev
      ensures POLLOUT in Interest(fd) <==> EV_WRITE in nev
      ensures forall g: nat :: g != fd ==> Interest(g) == old(Interest(g))
    {
      if oev == nev {
        return;
      }
      var idx := Entry(fd);
      assert polls[idx].fd == fd;
      if nev != {} {
        polls := polls[idx := PollFd(fd, PollMask(nev))];
      } else {
        Drop(fd, idx);
      }
    }
  }

  // ----- watcher lists and changed descriptors -----

  /** Some watcher of the list waits for b. */
  ghost predicate Wanted(ws: seq<Io>, b: EvBit)
    reads (set w | w in ws)`events
  {
    exists i :: 0 <= i < |ws| && b in ws[i].events
  }

  /** The union of the masks. */
  ghost predicate IsUnion(ws: seq<Io>, ev: Events)
    reads (set w | w in ws)`events
  {
    forall b :: b in ev <==> Wanted(ws, b)
  }

  /** anfds after array_needsize: zero-filled up to n. */
  function Padded(anfds: seq<Anfd>, n: nat): (r: seq<Anfd>)
    ensures |r| == if |anfds| < n then n else |anfds|
  {
    anfds + seq(if |anfds| < n then n - |anfds| else 0, _ => Anfd([], {}, false, false))
  }

  function Lists(anfds: seq<Anfd>): seq<seq<Io>> {
    seq(|anfds|, fd requires 0 <= fd < |anfds| => anfds[fd].head)
  }

  predicate Distinct(ws: seq<Io>) {
    forall i, j :: 0 <= i < j < |ws| ==> ws[i] != ws[j]
  }

  /** `wlist_del`: the list without the first occurrence of w. */
  function Unlinked(ws: seq<Io>, w: Io): (r: seq<Io>) {
    if ws == [] then [] else if ws[0] == w then ws[1..] else [ws[0]] + Unlinked(ws[1..], w)
  }

  lemma {:induction false} UnlinkedAt(ws: seq<Io>, w: Io, i: nat)
    requires i < |ws| && ws[i] == w && w !in ws[..i]
    ensures Unlinked(ws, w) == ws[..i] + ws[i + 1..]
  {
    if i > 0 {
      assert ws[0] in ws[..i];
      assert ws[1..][..i - 1] == ws[..i][1..];
      UnlinkedAt(ws[1..], w, i - 1);
    }
  }

  lemma {:induction false} NothingUnlinked(ws: seq<Io>, w: Io)
    requires w !in ws
    ensures Unlinked(ws, w) == ws
  {
    if ws != [] {
      NothingUnlinked(ws[1..], w);
    }
  }

  /** In a list that holds w once, wlist_del removes w and keeps the rest in order. */
  lemma UnlinkedKeeps(ws: seq<Io>, w: Io)
    requires Distinct(ws)
    ensures var r := Unlinked(ws, w);
      && Distinct(r) && (forall x :: x in r <==> x in ws && x != w)
      && (if w in ws then exists i :: 0 <= i < |ws| && ws[i] == w && r == ws[..i] + ws[i + 1..] else r == ws)
  {
    hide Unlinked;
    if w in ws {
      var i :| 0 <= i < |ws| && ws[i] == w;
      UnlinkedAt(ws, w, i);
      assert ws == ws[..i] + [w] + ws[i + 1..];
    } else {
      NothingUnlinked(ws, w);
    }
  }

  /** All the descriptors of a list of lists. */
  function AllKilled(kills: seq<seq<nat>>): set<nat> {
    if kills == [] then {} else AllKilled(kills[..|kills| - 1]) + ToSet(kills[|kills| - 1])
  }

  function ToSet(fds: seq<nat>): set<nat> {
    set fd | fd in fds
  }

  /** What stopping the watchers of some descriptors can do to the watcher lists and to fdchanges:
      their lists become empty, and only they can be appended to fdchanges. */
  predicate OnlyKilled(lists: seq<seq<Io>>, changes: seq<nat>, lists': seq<seq<Io>>, changes': seq<nat>, fds: set<nat>) {
    && |lists'| == |lists|
    && (forall fd :: 0 <= fd < |lists| ==> lists'[fd] == if fd in fds then [] else lists[fd])
    && changes <= changes'
    && (forall i :: |changes| <= i < |changes'| ==> changes'[i] in fds)
  }

  lemma OnlyKilledMeans(was: seq<Anfd>, anfds: seq<Anfd>, changes: seq<nat>, changes': seq<nat>, fds: set<nat>)
    requires OnlyKilled(Lists(was), changes, Lists(anfds), changes', fds)
    ensures |was| == |anfds| && |changes| <= |changes'|
    ensures forall fd :: 0 <= fd < |anfds| ==> anfds[fd].head == if fd in fds then [] else was[fd].head
    ensures forall fd :: fd in changes'[|changes|..] ==> fd in fds
  {
    forall fd | 0 <= fd < |anfds| ensures anfds[fd].head == if fd in fds then [] else was[fd].head {
      assert anfds[fd].head == Lists(anfds)[fd] && was[fd].head == Lists(was)[fd];
    }
  }

  lemma OnlyKilledStart(lists: seq<seq<Io>>, changes: seq<nat>)
    ensures OnlyKilled(lists, changes, lists, changes, {})
  {
  }

  lemma OnlyKilledTrans(lists: seq<seq<Io>>, changes: seq<nat>, lists': seq<seq<Io>>, changes': seq<nat>,
                        lists'': seq<seq<Io>>, changes'': seq<nat>, fds: set<nat>, more: set<nat>)
    requires OnlyKilled(lists, changes, lists', changes', fds) && OnlyKilled(lists', changes', lists'', changes'', more)
    ensures OnlyKilled(lists, changes, lists'', changes'', fds + more)
  {
    forall i | |changes| <= i < |changes''| ensures changes''[i] in fds + more {
      if i < |changes'| {
        assert changes''[i] == changes'[i];
      }
    }
  }

  class FdLoop {
    var anfds: seq<Anfd>
    var fdchanges: seq<nat>
    const backend: PollSet
    ghost const watchers: set<Io>
    ghost var base: nat          // how much of fdchanges a running fd_reify has dealt with
    var errors: seq<Io>          // the watchers that fd_kill has stopped and fed EV_ERROR | EV_READ | EV_WRITE

    ghost predicate HeadOk(fd: nat)
      reads this`anfds, watchers`events, watchers`active
      requires fd < |anfds|
    {
      && (forall w :: w in anfds[fd].head ==> w in watchers && w.fd == fd && w.active && Plain(w.events))
      && Distinct(anfds[fd].head)
    }

    ghost predicate WatcherOk(w: Io)
      reads this`anfds, w`events, w`active
    {
      && w.events <= {EV_IOFDSET, EV_READ, EV_WRITE}
      && (w.active ==> w.fd < |anfds| && w in anfds[w.fd].head)
    }

    /** The watcher lists hold exactly the started watchers, each once. */
    ghost predicate HeadsOk()
      reads this`anfds, watchers`events, watchers`active
    {
      && (forall fd :: 0 <= fd < |anfds| ==> HeadOk(fd))
      && (forall w :: w in watchers ==> WatcherOk(w))
    }

    /** fdchanges lists exactly the descriptors marked for reification, each once. */
    ghost predicate ChangesOk()
      reads this`anfds, this`fdchanges, this`base
    {
      && base <= |fdchanges|
      && (forall i :: base <= i < |fdchanges| ==> fdchanges[i] < |anfds| && anfds[fdchanges[i]].reify)
      && (forall i, j :: base <= i < j < |fdchanges| ==> fdchanges[i] != fdchanges[j])
      && (forall fd :: 0 <= fd < |anfds| && anfds[fd].reify ==> fd in fdchanges[base..])
    }

    /** A descriptor that is not marked is in sync with its watchers. */
    ghost predicate FdOk(fd: nat)
      reads this`anfds, watchers`events
      requires fd < |anfds|
    {
      var a := anfds[fd];
      && Plain(a.events)
      && (forall w :: w in a.head ==> w in watchers)
      && (!a.reify ==> !a.fdset && IsUnion(a.head, a.events))
    }

    ghost predicate FdsOk()
      reads this`anfds, watchers`events
    {
      forall fd :: 0 <= fd < |anfds| ==> FdOk(fd)
    }

    /** The backend has been told what the events fields say. */
    ghost predicate BackendOk()
      reads this`anfds, backend
    {
      && backend.Valid()
      && (forall fd: nat :: backend.Interest(fd) == PollMask(Told(fd)))
    }

    ghost function Told(fd: nat): Events
      reads this`anfds
    {
      if fd < |anfds| then anfds[fd].events else {}
    }

    ghost predicate Valid()
      reads this`anfds, this`fdchanges, this`base, watchers`events, watchers`active, backend
    {
      HeadsOk() && ChangesOk() && FdsOk() && BackendOk()
    }

    constructor (ghost ws: set<Io>)
      requires forall w :: w in ws ==> !w.active && w.events <= {EV_IOFDSET, EV_READ, EV_WRITE}
      ensures Valid() && watchers == ws && base == 0 && fdchanges == [] && errors == [] && fresh(backend)
    {
      anfds, fdchanges, errors := [], [], [];
      base := 0;
      backend := new PollSet();
      watchers := ws;
    }

    twostate lemma BackendKept()
      requires old(BackendOk()) && unchanged(backend)
      requires forall fd: nat :: Told(fd) == old(Told(fd))
      ensures BackendOk()
    {
      forall fd: nat ensures backend.Interest(fd) == PollMask(Told(fd)) {
        assert old(backend.Interest(fd)) == PollMask(old(Told(fd)));
      }
    }

    twostate lemma ChangesKept()
      requires old(ChangesOk()) && base == old(base) && fdchanges == old(fdchanges)
      requires |old(anfds)| <= |anfds|
      requires forall fd :: 0 <= fd < |anfds| ==> anfds[fd].reify == (fd < |old(anfds)| && old(anfds)[fd].reify)
      ensures ChangesOk()
    {
    }

    /** `fd_change`. */
    method FdChange(fd: nat, fdset: bool)
      requires fd < |anfds| && ChangesOk()
      modifies this`anfds, this`fdchanges
      ensures ChangesOk()
      ensures anfds == old(anfds[fd := anfds[fd].(reify := true, fdset := anfds[fd].fdset || fdset)])
      ensures fdchanges == if old(anfds[fd].reify) then old(fdchanges) else old(fdchanges) + [fd]
    {
      var reify := anfds[fd].reify;
      anfds := anfds[fd := anfds[fd].(reify := true, fdset := anfds[fd].fdset || fdset)];
      if !reify {
        fdchanges := fdchanges + [fd];
        assert fdchanges[base..] == old(fdchanges[base..]) + [fd];
      }
    }

    twostate lemma HeadsStarted(w: Io)
      requires old(HeadsOk()) && w in watchers && !old(w.active) && w.fd < |anfds|
      requires forall x :: x in watchers ==>
        x.active == (old(x.active) || x == w) && x.events == if x == w then old(x.events) - {EV_IOFDSET} else old(x.events)
      requires |old(anfds)| <= |anfds|
      requires forall fd :: 0 <= fd < |anfds| ==>
        anfds[fd].head == (if fd == w.fd then [w] else []) + if fd < |old(anfds)| then old(anfds)[fd].head else []
      ensures HeadsOk()
    {
      assert old(WatcherOk(w));
      forall fd | 0 <= fd < |anfds| ensures HeadOk(fd) {
        assert fd < |old(anfds)| ==> old(HeadOk(fd));
      }
      forall x | x in watchers ensures WatcherOk(x) {
        assert old(WatcherOk(x));
      }
    }

    twostate lemma HeadsStopped(w: Io)
      requires old(HeadsOk()) && w in watchers && old(w.active)
      requires forall x :: x in watchers ==>
        x.active == (old(x.active) && x != w) && x.events == old(x.events)
      requires |old(anfds)| == |anfds|
      requires forall fd :: 0 <= fd < |anfds| ==>
        anfds[fd].head == if fd == w.fd then Unlinked(old(anfds)[fd].head, w) else old(anfds)[fd].head
      ensures HeadsOk()
    {
      assert old(WatcherOk(w)) && old(HeadOk(w.fd));
      UnlinkedKeeps(old(anfds)[w.fd].head, w);
      forall fd | 0 <= fd < |anfds| ensures HeadOk(fd) {
        assert old(HeadOk(fd));
      }
      forall x | x in watchers ensures WatcherOk(x) {
        assert old(WatcherOk(x));
      }
    }

    /** Every descriptor except fd keeps its list and its masks. */
    twostate lemma FdsKept(fd: nat)
      requires old(HeadsOk()) && old(FdsOk()) && HeadsOk() && fd < |anfds|
      requires forall x :: x in watchers && x.fd != fd ==> x.events == old(x.events)
      requires |old(anfds)| <= |anfds| && anfds[fd].reify && anfds[fd].events == old(Told(fd))
      requires forall g :: 0 <= g < |anfds| && g != fd ==>
        anfds[g] == if g < |old(anfds)| then old(anfds)[g] else Anfd([], {}, false, false)
      ensures FdsOk()
    {
      forall g | 0 <= g < |anfds| ensures FdOk(g) {
        assert HeadOk(g);
        assert g < |old(anfds)| ==> old(FdOk(g)) && old(HeadOk(g));
      }
    }

    /** `ev_io_start`. */
    method IoStart(w: Io)
      requires Valid() && w in watchers
      modifies this`anfds, this`fdchanges, w`events, w`active
      ensures Valid() && w.active
      ensures old(w.active) ==>
        w.events == old(w.events) && anfds == old(anfds) && fdchanges == old(fdchanges)
      ensures !old(w.active) ==>
        && w.events == old(w.events) - {EV_IOFDSET}
        && var a := Padded(old(anfds), w.fd + 1);
        && anfds == a[w.fd := Anfd([w] + a[w.fd].head, a[w.fd].events, true, a[w.fd].fdset || EV_IOFDSET in old(w.events))]
        && fdchanges == if a[w.fd].reify then old(fdchanges) else old(fdchanges) + [w.fd]
    {
      hide BackendOk, ChangesOk, FdsOk, HeadsOk;
      if w.active {
        return;
      }
      w.active := true;
      anfds := Padded(anfds, w.fd + 1);
      anfds := anfds[w.fd := anfds[w.fd].(head := [w] + anfds[w.fd].head)];
      ChangesKept();
      FdChange(w.fd, EV_IOFDSET in w.events);
      w.events := w.events - {EV_IOFDSET};
      HeadsStarted(w);
      FdsKept(w.fd);
      BackendKept();
    }

    /** `ev_io_stop`, after clear_pending. */
    method IoStop(w: Io)
      requires Valid() && w in watchers
      modifies this`anfds, this`fdchanges, w`active
      ensures Valid() && !w.active
      ensures !old(w.active) ==> anfds == old(anfds) && fdchanges == old(fdchanges)
      ensures old(w.active) ==>
        && w.fd < |old(anfds)|
        && var a := old(anfds)[w.fd];
        && anfds == old(anfds)[w.fd := a.(head := Unlinked(a.head, w), reify := true)]
        && fdchanges == if a.reify then old(fdchanges) else old(fdchanges) + [w.fd]
    {
      hide BackendOk, ChangesOk, FdsOk, HeadOk;
      if !w.active {
        return;
      }
      assert w.fd < |anfds| by { assert WatcherOk(w); }
      anfds := anfds[w.fd := anfds[w.fd].(head := Unlinked(anfds[w.fd].head, w))];
      w.active := false;
      ChangesKept();
      FdChange(w.fd, false);
      HeadsStopped(w);
      FdsKept(w.fd);
      BackendKept();
    }

    lemma FirstOfHead(fd: nat)
      requires HeadsOk() && fd < |anfds| && anfds[fd].head != []
      ensures var w := anfds[fd].head[0]; w in watchers && w.active && w.fd == fd
    {
      assert HeadOk(fd) && anfds[fd].head[0] in anfds[fd].head;
    }

    /** `fd_kill`: stops every watcher of the descriptor and feeds it an error. */
    method FdKill(fd: nat)
      requires Valid() && fd < |anfds|
      modifies this`anfds, this`fdchanges, this`errors, watchers`active
      ensures Valid()
      ensures anfds == old(anfds[fd := anfds[fd].(head := [], reify := anfds[fd].reify || anfds[fd].head != [])])
      ensures fdchanges == if old(anfds[fd].reify || anfds[fd].head == []) then old(fdchanges) else old(fdchanges) + [fd]
      ensures errors == old(errors) + old(anfds[fd].head)
      ensures forall w :: w in watchers ==> w.active == (old(w.active) && w.fd != fd)
    {
      hide HeadOk, ChangesOk, FdsOk, BackendOk;
      while anfds[fd].head != []
        invariant Valid() && fd < |anfds|
        invariant anfds == old(anfds)[fd := anfds[fd]]
        invariant anfds[fd] == old(anfds)[fd].(head := anfds[fd].head, reify := anfds[fd].reify)
        invariant anfds[fd].reify == (old(anfds)[fd].reify || anfds[fd].head != old(anfds)[fd].head)
        invariant fdchanges == if anfds[fd].reify && !old(anfds)[fd].reify then old(fdchanges) + [fd] else old(fdchanges)
        invariant errors + anfds[fd].head == old(errors) + old(anfds[fd].head)
        invariant forall w :: w in watchers && w.fd != fd ==> w.active == old(w.active)
        invariant forall w :: w in watchers && w.active ==> old(w.active)
        decreases |anfds[fd].head|
      {
        var w := anfds[fd].head[0];
        FirstOfHead(fd);
        ghost var rest := anfds[fd].head[1..];
        IoStop(w);
        errors := errors + [w];
        assert anfds[fd].head == rest;
      }
      forall w | w in watchers ensures w.active == (old(w.active) && w.fd != fd) {
        assert WatcherOk(w);
      }
    }

    /** The union of the masks of a list of watchers. */
    method Union(ws: seq<Io>) returns (ev: Events)
      ensures IsUnion(ws, ev)
    {
      ev := {};
      for i := 0 to |ws|
        invariant IsUnion(ws[..i], ev)
      {
        ghost var was := ev;
        ev := ev + ws[i].events;
        forall b ensures b in ev <==> Wanted(ws[..i + 1], b) {
          assert ws[..i + 1] == ws[..i] + [ws[i]];
          assert b in was <==> Wanted(ws[..i], b);
          if Wanted(ws[..i], b) {
            var j :| 0 <= j < i && b in ws[..i][j].events;
            assert ws[..i + 1][j] == ws[j];
          }
          if b in ws[i].events {
            assert ws[..i + 1][i] == ws[i];
          }
        }
      }
      assert ws[..|ws|] == ws;
    }

    /** The first listed descriptor has been dealt with. */
    twostate lemma ChangesTaken(ev: Events)
      requires old(ChangesOk()) && old(base) < |fdchanges| && base == old(base) + 1 && fdchanges == old(fdchanges)
      requires fdchanges[old(base)] < |old(anfds)|
      requires anfds ==
        old(anfds)[fdchanges[old(base)] := Anfd(old(anfds)[fdchanges[old(base)]].head, ev, false, false)]
      ensures ChangesOk()
    {
      assert fdchanges[old(base)..] == [fdchanges[old(base)]] + fdchanges[base..];
      assert fdchanges[old(base)] !in fdchanges[base..];
    }

    twostate lemma HeadsKept()
      requires old(HeadsOk()) && |anfds| == |old(anfds)|
      requires forall fd :: 0 <= fd < |anfds| ==> anfds[fd].head == old(anfds)[fd].head
      requires forall w :: w in watchers ==> unchanged(w)
      ensures HeadsOk()
    {
      forall fd | 0 <= fd < |anfds| ensures HeadOk(fd) {
        assert old(HeadOk(fd));
      }
      forall x | x in watchers ensures WatcherOk(x) {
        assert old(WatcherOk(x));
      }
    }

    /** The descriptor of a turn is in sync after it, and so are the others that were. */
    twostate lemma OneInSync(fd: nat)
      requires old(HeadsOk()) && old(FdsOk()) && fd < |old(anfds)|
      requires |anfds| == |old(anfds)| && anfds == old(anfds)[fd := anfds[fd]]
      requires anfds[fd].head == old(anfds)[fd].head && !anfds[fd].fdset && IsUnion(anfds[fd].head, anfds[fd].events)
      requires forall w :: w in watchers ==> unchanged(w)
      ensures FdsOk() && Plain(anfds[fd].events) && Plain(old(anfds)[fd].events)
    {
      assert old(FdOk(fd)) && old(HeadOk(fd));
      forall g | 0 <= g < |anfds| ensures FdOk(g) {
        assert old(FdOk(g)) && old(HeadOk(g));
      }
    }

    /** Recomputes the mask of descriptor fdchanges[i] and takes its mark off. */
    method Refresh(i: nat) returns (fd: nat, was: Anfd)
      requires Valid() && i == base < |fdchanges|
      modifies this`anfds, this`base
      ensures HeadsOk() && ChangesOk() && FdsOk() && base == i + 1
      ensures fd < |anfds| && fd < |old(anfds)| && was == old(anfds)[fd]
      ensures Plain(was.events) && Plain(anfds[fd].events)
      ensures fd == fdchanges[i]
      ensures anfds == old(anfds)[fd := Anfd(was.head, anfds[fd].events, false, false)]
      ensures IsUnion(anfds[fd].head, anfds[fd].events)
    {
      fd := fdchanges[i];
      was := anfds[fd];
      var ev := Union(was.head);
      anfds := anfds[fd := Anfd(was.head, ev, false, false)];
      base := base + 1;
      OneInSync(fd);
      ChangesTaken(ev);
      HeadsKept();
    }

    /** One turn of the loop of `fd_reify`: brings descriptor fdchanges[i] in sync. */
    method ReifyOne(i: nat)
      requires Valid() && i == base < |fdchanges|
      modifies this`anfds, this`base, backend
      ensures Valid() && base == i + 1
      ensures Lists(anfds) == Lists(old(anfds))
      ensures fdchanges[i] < |anfds| == |old(anfds)|
      ensures anfds[fdchanges[i]] == Anfd(old(anfds)[fdchanges[i]].head, anfds[fdchanges[i]].events, false, false)
      ensures IsUnion(anfds[fdchanges[i]].head, anfds[fdchanges[i]].events)
      ensures backend.Interest(fdchanges[i]) == PollMask(anfds[fdchanges[i]].events)
      ensures forall g: nat :: g != fdchanges[i] ==>
        (g < |anfds| ==> anfds[g] == old(anfds)[g]) && backend.Interest(g) == old(backend.Interest(g))
    {
      hide HeadOk, ChangesOk, FdsOk;
      var fd, was := Refresh(i);
      if was.fdset || was.events != anfds[fd].events {
        backend.Modify(fd, was.events, anfds[fd].events);
      }
    }

    method KillAll(fds: seq<nat>)
      requires Valid() && forall fd :: fd in fds ==> fd < |anfds|
      modifies this`anfds, this`fdchanges, this`errors, watchers`active
      ensures Valid() && |anfds| == |old(anfds)|
      ensures OnlyKilled(old(Lists(anfds)), old(fdchanges), Lists(anfds), fdchanges, ToSet(fds))
    {
      hide HeadOk, ChangesOk, FdsOk, BackendOk;
      for i := 0 to |fds|
        invariant Valid() && |anfds| == |old(anfds)|
        invariant OnlyKilled(old(Lists(anfds)), old(fdchanges), Lists(anfds), fdchanges, ToSet(fds[..i]))
      {
        assert fds[i] in fds;
        ghost var l, c := Lists(anfds), fdchanges;
        FdKill(fds[i]);
        assert OnlyKilled(l, c, Lists(anfds), fdchanges, {fds[i]});
        OnlyKilledTrans(old(Lists(anfds)), old(fdchanges), l, c, Lists(anfds), fdchanges, ToSet(fds[..i]), {fds[i]});
        assert ToSet(fds[..i + 1]) == ToSet(fds[..i]) + {fds[i]} by { assert fds[..i + 1] == fds[..i] + [fds[i]]; }
      }
      assert fds[..|fds|] == fds;
    }

    /** `fd_reify`.  kills[i] are the descriptors that the backend finds unusable and kills while
        it is told about the i-th change. */
    method FdReify(kills: seq<seq<nat>>)
      requires Valid() && base == 0 && |kills| == |fdchanges|
      requires forall k :: 0 <= k < |kills| ==> forall fd :: fd in kills[k] ==> fd < |anfds|
      modifies this`anfds, this`fdchanges, this`errors, this`base, watchers`active, backend
      ensures Valid() && base == 0 && |anfds| == |old(anfds)|
      ensures forall fd :: 0 <= fd < |anfds| ==>
        anfds[fd].head == if fd in AllKilled(kills) then [] else old(anfds)[fd].head
      ensures forall fd :: fd in fdchanges ==> fd in AllKilled(kills)
    {
      hide HeadOk, ChangesOk, HeadsOk, FdsOk, BackendOk, OnlyKilled;
      var changecnt := |fdchanges|;
      ghost var lists, changes := Lists(anfds), fdchanges;
      OnlyKilledStart(lists, changes);
      for i := 0 to changecnt
        invariant Valid() && base == i && |anfds| == |old(anfds)|
        invariant OnlyKilled(lists, changes, Lists(anfds), fdchanges, AllKilled(kills[..i]))
        invariant |fdchanges| >= changecnt
      {
        ghost var l, c := Lists(anfds), fdchanges;
        assert kills[..i + 1][..i] == kills[..i];
        ReifyOne(i);
        assert Lists(anfds) == l && fdchanges == c;
        KillAll(kills[i]);
        OnlyKilledTrans(lists, changes, l, c, Lists(anfds), fdchanges, AllKilled(kills[..i]), ToSet(kills[i]));
      }
      assert kills[..changecnt] == kills;
      OnlyKilledMeans(old(anfds), anfds, changes, fdchanges, AllKilled(kills));
      Compact(changecnt);
    }

    /** The memmove at the end of `fd_reify`. */
    method Compact(changecnt: nat)
      requires ChangesOk() && base == changecnt <= |fdchanges|
      modifies this`fdchanges, this`base
      ensures ChangesOk() && base == 0 && fdchanges == old(fdchanges)[changecnt..]
    {
      fdchanges := fdchanges[changecnt..];
      base := 0;
    }

    // ----- what the loop asks the backend for -----

    /** Some started watcher of the descriptor waits for b. */
    ghost predicate Awaited(fd: nat, b: EvBit)
      reads watchers`events, watchers`active
    {
      exists w :: w in watchers && w.active && w.fd == fd && b in w.events
    }

    ghost function Asked(fd: nat): set<PollBit>
      reads watchers`events, watchers`active
    {
      (if Awaited(fd, EV_READ) then {POLLIN} else {}) + (if Awaited(fd, EV_WRITE) then {POLLOUT} else {})
    }

    /** Between calls of fd_reify, poll(2) is asked for exactly what the started watchers of a
        descriptor wait for, unless a change of that descriptor is still listed. */
    lemma InterestIsAsked(fd: nat)
      requires Valid() && base == 0 && fd !in fdchanges
      ensures backend.Interest(fd) == Asked(fd)
    {
      if fd < |anfds| {
        assert FdOk(fd) && HeadOk(fd) && !anfds[fd].reify;
        var head := anfds[fd].head;
        forall b ensures Wanted(head, b) <==> Awaited(fd, b) {
          if Wanted(head, b) {
            var i :| 0 <= i < |head| && b in head[i].events;
            assert head[i] in head;
          }
          if Awaited(fd, b) {
            var w :| w in watchers && w.active && w.fd == fd && b in w.events;
            assert WatcherOk(w);
          }
        }
      } else {
        assert forall w :: w in watchers && w.fd == fd ==> WatcherOk(w) && !w.active;
      }
    }

    /** The array handed to poll(2) has exactly one entry for each descriptor that a started
        watcher waits for, with exactly the union of the masks, and no other entry. */
    lemma PollsIsExact()
      requires Valid() && fdchanges == []
      ensures forall i :: 0 <= i < |backend.polls| ==>
        backend.polls[i].events == Asked(backend.polls[i].fd) && Asked(backend.polls[i].fd) != {}
      ensures forall i, j :: 0 <= i < j < |backend.polls| ==> backend.polls[i].fd != backend.polls[j].fd
      ensures forall fd: nat :: Asked(fd) != {} ==> exists i :: 0 <= i < |backend.polls| && backend.polls[i].fd == fd
    {
      forall i | 0 <= i < |backend.polls|
        ensures backend.polls[i].events == Asked(backend.polls[i].fd)
      {
        InterestIsAsked(backend.polls[i].fd);
      }
      forall fd: nat | Asked(fd) != {}
        ensures exists i :: 0 <= i < |backend.polls| && backend.polls[i].fd == fd
      {
        InterestIsAsked(fd);
        assert backend.polls[backend.pollidxs[fd]].fd == fd;
      }
    }
  }
}
