/** The 4-ary timer heap of libev, on values.

    A heap lives in slots HEAP0, HEAP0 + 1, ... of its array; the slots below HEAP0 are
    never used.  Each entry caches the deadline of the watcher it points to.
    The functions below say where the sift loops put every entry; the loops themselves,
    which also maintain the back-index of each watcher, are in `EvLoop`. */
module TimerHeap {

  const DHEAP := 4
  const HEAP0 := DHEAP - 1

  datatype Anhe<W> = Anhe(w: W, at: int)

  /** C's division truncates towards zero. */
  function CDiv(a: int, b: int): int
    requires b > 0
  {
    if a >= 0 then a / b else -(-a / b)
  }

  function HParent(k: int): int {
    CDiv(k - HEAP0 - 1, DHEAP) + HEAP0
  }

  /** The first of the four child slots of slot k. */
  function FirstChild(k: int): int {
    DHEAP * (k - HEAP0) + HEAP0 + 1
  }

  lemma ParentFacts(k: int)
    requires HEAP0 <= k
    ensures HParent(HEAP0) == HEAP0
    ensures k > HEAP0 ==> HEAP0 <= HParent(k) < k
  {
  }

  lemma ChildFacts(k: int, j: int)
    requires HEAP0 <= k && HEAP0 < j
    ensures HParent(j) == k <==> FirstChild(k) <= j < FirstChild(k) + DHEAP
    ensures k < FirstChild(k)
  {
  }

  /** The entry in slot k is no earlier than the one above it. */
  predicate LinkOk<W>(h: seq<Anhe<W>>, k: int)
    requires HEAP0 < k < |h|
  {
    ParentFacts(k);
    h[HParent(k)].at <= h[k].at
  }

  /** The entry in slot k is no earlier than the one two levels up. */
  predicate SkipOk<W>(h: seq<Anhe<W>>, k: int)
    requires HEAP0 < k < |h|
  {
    ParentFacts(k);
    ParentFacts(HParent(k));
    h[HParent(HParent(k))].at <= h[k].at
  }

  ghost predicate OrderedUpTo<W>(h: seq<Anhe<W>>, n: int)
    requires n <= |h|
  {
    forall k :: HEAP0 < k < n ==> LinkOk(h, k)
  }

  ghost predicate Ordered<W>(h: seq<Anhe<W>>) {
    OrderedUpTo(h, |h|)
  }

  function Swap<W>(h: seq<Anhe<W>>, i: nat, j: nat): (r: seq<Anhe<W>>)
    requires i < |h| && j < |h|
    ensures |r| == |h|
    ensures multiset(r) == multiset(h)
  {
    h[i := h[j]][j := h[i]]
  }

  /** The entries of the heap proper. */
  ghost function Entries<W>(h: seq<Anhe<W>>): set<Anhe<W>> {
    set j | HEAP0 <= j < |h| :: h[j]
  }

  lemma SwapEntries<W>(h: seq<Anhe<W>>, i: int, j: int)
    requires HEAP0 <= i < |h| && HEAP0 <= j < |h|
    ensures Entries(Swap(h, i, j)) == Entries(h)
  {
    var g := Swap(h, i, j);
    forall e | e in Entries(h) ensures e in Entries(g) {
      var k :| HEAP0 <= k < |h| && h[k] == e;
      assert g[if k == i then j else if k == j then i else k] == e;
    }
    forall e | e in Entries(g) ensures e in Entries(h) {
      var k :| HEAP0 <= k < |g| && g[k] == e;
      assert h[if k == i then j else if k == j then i else k] == e;
    }
  }

  /** Where `upheap` leaves everything when it starts at slot k. */
  function Up<W>(h: seq<Anhe<W>>, k: int): (r: seq<Anhe<W>>)
    requires HEAP0 <= k < |h|
    ensures |r| == |h|
    decreases k
  {
    ParentFacts(k);
    var p := HParent(k);
    if p == k || h[p].at <= h[k].at then h else Up(Swap(h, k, p), p)
  }

  /** The child search of `downheap`: a later child wins only when it is strictly earlier. */
  function Earlier<W>(h: seq<Anhe<W>>, c: int, j: int): (r: int)
    requires HEAP0 <= c < |h| && c < j
  {
    if j < |h| && h[c].at > h[j].at then j else c
  }

  function MinChild<W>(h: seq<Anhe<W>>, k: int): (c: int)
    requires HEAP0 <= k && FirstChild(k) < |h|
    ensures FirstChild(k) <= c < FirstChild(k) + DHEAP && c < |h|
    ensures forall j :: FirstChild(k) <= j < FirstChild(k) + DHEAP && j < |h| ==> h[c].at <= h[j].at
    ensures forall j :: FirstChild(k) <= j < c ==> h[c].at < h[j].at
  {
    var pos := FirstChild(k);
    Earlier(h, Earlier(h, Earlier(h, pos, pos + 1), pos + 2), pos + 3)
  }

  /** Where `downheap` leaves everything when it starts at slot k. */
  function Down<W>(h: seq<Anhe<W>>, k: int): (r: seq<Anhe<W>>)
    requires HEAP0 <= k < |h|
    ensures |r| == |h|
    decreases |h| - k
  {
    ChildFacts(k, k + 1);
    if FirstChild(k) >= |h| then h
    else
      var c := MinChild(h, k);
      if h[k].at <= h[c].at then h else Down(Swap(h, k, c), c)
  }

  function Adjust<W>(h: seq<Anhe<W>>, k: int): (r: seq<Anhe<W>>)
    requires HEAP0 <= k < |h|
    ensures |r| == |h|
  {
    ParentFacts(k);
    if k > HEAP0 && h[k].at <= h[HParent(k)].at then Up(h, k) else Down(h, k)
  }

  /** Sifting rearranges: no entry is lost, doubled or changed. */
  lemma {:induction false} UpPermutes<W>(h: seq<Anhe<W>>, k: int)
    requires HEAP0 <= k < |h|
    ensures multiset(Up(h, k)) == multiset(h)
    ensures forall j :: 0 <= j < HEAP0 || k < j < |h| ==> Up(h, k)[j] == h[j]
    decreases k
  {
    ParentFacts(k);
    var p := HParent(k);
    if p != k && h[p].at > h[k].at {
      UpPermutes(Swap(h, k, p), p);
    }
  }

  lemma {:induction false} DownPermutes<W>(h: seq<Anhe<W>>, k: int)
    requires HEAP0 <= k < |h|
    ensures multiset(Down(h, k)) == multiset(h)
    ensures forall j :: 0 <= j < k ==> Down(h, k)[j] == h[j]
    decreases |h| - k
  {
    ChildFacts(k, k + 1);
    if FirstChild(k) < |h| {
      var c := MinChild(h, k);
      if h[k].at > h[c].at {
        var g := Swap(h, k, c);
        DownPermutes(g, c);
        assert Down(h, k) == Down(g, c);
        assert forall j :: 0 <= j < k ==> g[j] == h[j];
      }
    }
  }

  /** Ordered but for the link above slot k, whose children already respect k's parent. */
  ghost predicate AlmostUp<W>(h: seq<Anhe<W>>, k: int, n: int)
    requires HEAP0 <= k < n <= |h|
  {
    && (forall j :: HEAP0 < j < n && j != k ==> LinkOk(h, j))
    && (forall j :: HEAP0 < j < n && HParent(j) == k ==> SkipOk(h, j))
  }

  lemma UpStep<W>(h: seq<Anhe<W>>, k: int, n: int)
    requires HEAP0 < k < n <= |h|
    requires AlmostUp(h, k, n)
    requires HEAP0 <= HParent(k) < k && h[HParent(k)].at > h[k].at
    ensures AlmostUp(Swap(h, k, HParent(k)), HParent(k), n)
  {
    var p := HParent(k);
    var g := Swap(h, k, p);
    ParentFacts(p);
    forall j | HEAP0 < j < n && j != p ensures LinkOk(g, j) {
      ParentFacts(j);
      if j != k {
        assert LinkOk(h, j);
        if HParent(j) == k { assert SkipOk(h, j); }
      }
    }
    forall j | HEAP0 < j < n && HParent(j) == p ensures SkipOk(g, j) {
      ParentFacts(j);
      if p > HEAP0 {
        assert LinkOk(h, p);
        if j != k { assert LinkOk(h, j); }
      } else {
        if j != k { assert LinkOk(h, j); }
      }
    }
  }

  lemma {:induction false} UpRestores<W>(h: seq<Anhe<W>>, k: int, n: int)
    requires HEAP0 <= k < n <= |h|
    requires AlmostUp(h, k, n)
    ensures OrderedUpTo(Up(h, k), n)
    decreases k
  {
    ParentFacts(k);
    var p := HParent(k);
    if p != k && h[p].at > h[k].at {
      UpStep(h, k, n);
      UpRestores(Swap(h, k, p), p, n);
    } else {
      forall j | HEAP0 < j < n ensures LinkOk(h, j) {
      }
    }
  }

  /** Ordered but for the links below slot k, whose children already respect k's parent. */
  ghost predicate AlmostDown<W>(h: seq<Anhe<W>>, k: int)
    requires HEAP0 <= k < |h|
  {
    && (forall j :: HEAP0 < j < |h| && HParent(j) != k ==> LinkOk(h, j))
    && (forall j :: HEAP0 < j < |h| && HParent(j) == k && k > HEAP0 ==> SkipOk(h, j))
  }

  lemma DownStep<W>(h: seq<Anhe<W>>, k: int, c: int)
    requires HEAP0 <= k && FirstChild(k) < |h|
    requires AlmostDown(h, k)
    requires c == MinChild(h, k) && h[k].at > h[c].at
    ensures k < c && AlmostDown(Swap(h, k, c), c)
  {
    ChildFacts(k, c);
    var g := Swap(h, k, c);
    forall j | HEAP0 < j < |g| && HParent(j) != c ensures LinkOk(g, j) {
      ParentFacts(j);
      ChildFacts(k, j);
      if HParent(j) != k {
        assert LinkOk(h, j);
        if j == k { assert SkipOk(h, c); }
      }
    }
    forall j | HEAP0 < j < |g| && HParent(j) == c ensures SkipOk(g, j) {
      ParentFacts(j);
      assert LinkOk(h, j);
    }
  }

  lemma {:induction false} DownRestores<W>(h: seq<Anhe<W>>, k: int)
    requires HEAP0 <= k < |h|
    requires AlmostDown(h, k)
    ensures Ordered(Down(h, k))
    decreases |h| - k
  {
    ChildFacts(k, k + 1);
    if FirstChild(k) < |h| && h[k].at > h[MinChild(h, k)].at {
      var c := MinChild(h, k);
      DownStep(h, k, c);
      DownRestores(Swap(h, k, c), c);
    } else {
      forall j | HEAP0 < j < |h| ensures LinkOk(h, j) {
        ParentFacts(j);
        ChildFacts(k, j);
      }
    }
  }

  /** One direction is always enough: whatever key is put into slot k of a heap,
      `adjustheap` makes it a heap again. */
  lemma AdjustRestores<W>(h: seq<Anhe<W>>, k: int, e: Anhe<W>)
    requires HEAP0 <= k < |h|
    requires Ordered(h)
    ensures Ordered(Adjust(h[k := e], k))
    ensures multiset(Adjust(h[k := e], k)) == multiset(h[k := e])
  {
    var g := h[k := e];
    ParentFacts(k);
    if k > HEAP0 { assert LinkOk(h, k); }
    forall j | HEAP0 < j < |g| && j != k && HParent(j) != k ensures LinkOk(g, j) {
      assert LinkOk(h, j);
    }
    forall j | HEAP0 < j < |g| && HParent(j) == k && k > HEAP0 ensures SkipOk(g, j) {
      ParentFacts(j);
      assert LinkOk(h, j);
    }
    if k > HEAP0 && g[k].at <= g[HParent(k)].at {
      forall j | HEAP0 < j < |g| && j != k ensures LinkOk(g, j) {
        assert LinkOk(h, j);
      }
      UpRestores(g, k, |g|);
      UpPermutes(g, k);
    } else {
      DownRestores(g, k);
      DownPermutes(g, k);
    }
  }

  /** A root that has become later needs to move down only. */
  lemma RootRestores<W>(h: seq<Anhe<W>>, e: Anhe<W>)
    requires HEAP0 < |h| && Ordered(h)
    ensures Ordered(Down(h[HEAP0 := e], HEAP0))
  {
    AdjustRestores(h, HEAP0, e);
  }

  /** Adding a new last entry and sifting it up. */
  lemma PushRestores<W>(h: seq<Anhe<W>>, e: Anhe<W>)
    requires HEAP0 <= |h|
    requires Ordered(h)
    ensures Ordered(Up(h + [e], |h|))
    ensures multiset(Up(h + [e], |h|)) == multiset(h) + multiset{e}
  {
    var g := h + [e];
    forall j | HEAP0 < j < |g|
      ensures j != |h| ==> LinkOk(g, j)
      ensures HParent(j) != |h|
    {
      ParentFacts(j);
      if j < |h| { assert LinkOk(h, j); }
    }
    UpRestores(g, |h|, |g|);
    UpPermutes(g, |h|);
  }

  lemma PushEntries<W>(h: seq<Anhe<W>>, e: Anhe<W>)
    requires HEAP0 <= |h|
    ensures Entries(h + [e]) == Entries(h) + {e}
  {
    var g := h + [e];
    assert g[|h|] in Entries(g);
    forall x | x in Entries(h) ensures x in Entries(g) {
      var k :| HEAP0 <= k < |h| && h[k] == x;
      assert g[k] == x;
    }
  }

  lemma SetEntries<W>(h: seq<Anhe<W>>, k: int, e: Anhe<W>)
    requires HEAP0 <= k < |h|
    requires forall j :: HEAP0 <= j < |h| && j != k ==> h[j] != h[k]
    ensures Entries(h[k := e]) == Entries(h) - {h[k]} + {e}
  {
    var g := h[k := e];
    assert g[k] in Entries(g);
    forall x | x in Entries(h) && x != h[k] ensures x in Entries(g) {
      var j :| HEAP0 <= j < |h| && h[j] == x;
      assert g[j] == x;
    }
    forall x | x in Entries(g) && x != e ensures x in Entries(h) && x != h[k] {
      var j :| HEAP0 <= j < |g| && g[j] == x;
      assert h[j] == x;
    }
  }

  lemma DropLastEntries<W>(h: seq<Anhe<W>>)
    requires HEAP0 < |h|
    requires forall j :: HEAP0 <= j < |h| - 1 ==> h[j] != h[|h| - 1]
    ensures Entries(h[..|h| - 1]) == Entries(h) - {h[|h| - 1]}
  {
    var g := h[..|h| - 1];
    forall x | x in Entries(h) && x != h[|h| - 1] ensures x in Entries(g) {
      var j :| HEAP0 <= j < |h| && h[j] == x;
      assert g[j] == x;
    }
  }

  /** Dropping the last entry of a heap leaves a heap. */
  lemma DropLastOrdered<W>(h: seq<Anhe<W>>)
    requires HEAP0 < |h| && Ordered(h)
    ensures Ordered(h[..|h| - 1])
  {
    var g := h[..|h| - 1];
    forall k | HEAP0 < k < |g| ensures LinkOk(g, k) {
      ParentFacts(k);
      assert LinkOk(h, k);
    }
  }

  /** The root of a heap is its earliest entry. */
  lemma {:induction false} RootIsMin<W>(h: seq<Anhe<W>>, k: int)
    requires Ordered(h)
    requires HEAP0 <= k < |h|
    ensures h[HEAP0].at <= h[k].at
    decreases k
  {
    if k > HEAP0 {
      ParentFacts(k);
      assert LinkOk(h, k);
      RootIsMin(h, HParent(k));
    }
  }

  /** `reheap`: sift up slot after slot. */
  function Reheaped<W>(h: seq<Anhe<W>>, n: nat): (r: seq<Anhe<W>>)
    requires HEAP0 + n <= |h|
    ensures |r| == |h|
  {
    if n == 0 then h else Up(Reheaped(h, n - 1), n - 1 + HEAP0)
  }

  /** `reheap` turns any array into a heap holding the same entries. */
  lemma {:induction false} ReheapOrders<W>(h: seq<Anhe<W>>, n: nat)
    requires HEAP0 + n <= |h|
    ensures OrderedUpTo(Reheaped(h, n), HEAP0 + n)
    ensures multiset(Reheaped(h, n)) == multiset(h)
  {
    if n > 0 {
      ReheapOrders(h, n - 1);
      var g := Reheaped(h, n - 1);
      var k := n - 1 + HEAP0;
      forall j | HEAP0 < j <= k ensures HParent(j) != k && (j < k ==> LinkOk(g, j)) {
        ParentFacts(j);
      }
      UpRestores(g, k, k + 1);
      UpPermutes(g, k);
    }
  }
}
