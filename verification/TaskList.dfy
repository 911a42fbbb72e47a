/** The list of real-time tasks: a singly linked list with a counter. */
module TaskList {

  const UUID_SIZE := 64

  /** What strncpy leaves in the uuid field. */
  function Stored(uuid: string): (s: string)
    ensures s == uuid <==> |uuid| < UUID_SIZE
    ensures |s| < UUID_SIZE
  {
    if |uuid| < UUID_SIZE then uuid else uuid[..UUID_SIZE - 1]
  }

  class Node {
    const uuid: string
    var connId: nat
    var next: Node?

    constructor (uuid: string, next: Node?)
      ensures this.uuid == Stored(uuid) && connId == 0 && this.next == next
    {
      this.uuid, connId, this.next := Stored(uuid), 0, next;
    }
  }

  predicate Distinct(ns: seq<Node>) {
    forall i, j :: 0 <= i < j < |ns| ==> ns[i] != ns[j]
  }

  predicate Fitting(ns: seq<Node>) {
    forall i :: 0 <= i < |ns| ==> |ns[i].uuid| < UUID_SIZE
  }

  predicate UniqueUuids(ns: seq<Node>) {
    forall i, j :: 0 <= i < j < |ns| ==> ns[i].uuid != ns[j].uuid
  }

  /** Some node of the list has this uuid. */
  predicate Taken(ns: seq<Node>, uuid: string) {
    exists i :: 0 <= i < |ns| && ns[i].uuid == uuid
  }

  /** The nodes that are not in dead, in their order. */
  function Minus(ns: seq<Node>, dead: set<Node>): (r: seq<Node>)
    ensures forall i :: 0 <= i < |r| ==> r[i] in ns && r[i] !in dead
  {
    if ns == [] then [] else (if ns[0] in dead then [] else [ns[0]]) + Minus(ns[1..], dead)
  }

  lemma {:induction false} MinusHas(ns: seq<Node>, dead: set<Node>, n: Node)
    ensures n in Minus(ns, dead) <==> n in ns && n !in dead
  {
    if ns != [] {
      MinusHas(ns[1..], dead, n);
      assert n in ns <==> n == ns[0] || n in ns[1..];
    }
  }

  lemma ConsIsUniqueIff(n: Node, ns: seq<Node>)
    ensures UniqueUuids([n] + ns) <==> UniqueUuids(ns) && !Taken(ns, n.uuid)
  {
    var all := [n] + ns;
    if UniqueUuids(all) {
      forall i, j | 0 <= i < j < |ns| ensures ns[i].uuid != ns[j].uuid {
        assert all[i + 1] == ns[i] && all[j + 1] == ns[j];
      }
      forall i | 0 <= i < |ns| ensures ns[i].uuid != n.uuid {
        assert all[0] == n && all[i + 1] == ns[i];
      }
    }
  }

  lemma {:induction false} MinusMinus(ns: seq<Node>, a: set<Node>, b: set<Node>)
    ensures Minus(Minus(ns, a), b) == Minus(ns, a + b)
  {
    if ns != [] {
      MinusMinus(ns[1..], a, b);
      if ns[0] in a {
        assert Minus(ns, a) == Minus(ns[1..], a);
      } else {
        assert Minus(ns, a)[1..] == Minus(ns[1..], a);
      }
    }
  }

  lemma {:induction false} MinusNone(ns: seq<Node>, dead: set<Node>)
    requires forall n :: n in ns ==> n !in dead
    ensures Minus(ns, dead) == ns
  {
    if ns != [] {
      MinusNone(ns[1..], dead);
    }
  }

  lemma {:induction false} MinusOne(ns: seq<Node>, k: nat)
    requires Distinct(ns) && k < |ns|
    ensures Minus(ns, {ns[k]}) == ns[..k] + ns[k + 1..]
  {
    if k == 0 {
      MinusNone(ns[1..], {ns[0]});
    } else {
      MinusOne(ns[1..], k - 1);
      assert ns[1..][..k - 1] == ns[..k][1..] && ns[1..][k..] == ns[k + 1..];
    }
  }

  lemma CutKeeps(ns: seq<Node>, k: nat)
    requires Distinct(ns) && Fitting(ns) && k < |ns|
    ensures var r := ns[..k] + ns[k + 1..]; Distinct(r) && Fitting(r)
  {
    var r := ns[..k] + ns[k + 1..];
    assert forall i :: 0 <= i < |r| ==> r[i] == ns[if i < k then i else i + 1];
  }

  lemma {:induction false} MinusKeeps(ns: seq<Node>, dead: set<Node>)
    ensures Distinct(ns) ==> Distinct(Minus(ns, dead))
    ensures UniqueUuids(ns) ==> UniqueUuids(Minus(ns, dead))
    ensures |Minus(ns, dead)| <= |ns|
  {
    if ns != [] {
      MinusKeeps(ns[1..], dead);
      var rest := Minus(ns[1..], dead);
      assert forall i :: 0 <= i < |rest| ==> rest[i] in ns[1..];
    }
  }

  function Set(ns: seq<Node>): set<Node> {
    set n | n in ns
  }

  lemma SetOneMore(ns: seq<Node>, i: nat)
    requires Distinct(ns) && i < |ns|
    ensures ns[i] !in Set(ns[..i]) && Set(ns[..i + 1]) == Set(ns[..i]) + {ns[i]}
  {
    assert ns[..i + 1] == ns[..i] + [ns[i]];
  }

  lemma MinusShrinks(ns: seq<Node>, n: Node)
    requires Distinct(ns) && n in ns
    ensures |Minus(ns, {n})| == |ns| - 1
  {
    var j :| 0 <= j < |ns| && ns[j] == n;
    MinusOne(ns, j);
  }

  /** Taking one more of a list of nodes out. */
  lemma NextVictim(all: seq<Node>, victims: seq<Node>, i: nat, ns: seq<Node>)
    requires Distinct(victims) && i < |victims| && victims[i] in all
    requires ns == Minus(all, Set(victims[..i])) && Distinct(ns)
    ensures victims[i] in ns && |Minus(ns, {victims[i]})| == |ns| - 1
    ensures Minus(ns, {victims[i]}) == Minus(all, Set(victims[..i + 1]))
  {
    hide Minus, Set;
    SetOneMore(victims, i);
    hide Distinct;
    MinusHas(all, Set(victims[..i]), victims[i]);
    MinusShrinks(ns, victims[i]);
    MinusMinus(all, Set(victims[..i]), {victims[i]});
  }

  /** The tasks of other connections, in their order. */
  ghost function Others(ns: seq<Node>, conn: nat): seq<Node>
    reads (set n | n in ns)`connId
  {
    if ns == [] then [] else (if ns[0].connId == conn then [] else [ns[0]]) + Others(ns[1..], conn)
  }

  lemma {:induction false} OthersIsMinus(ns: seq<Node>, conn: nat, dead: set<Node>)
    requires forall n :: n in ns ==> (n in dead <==> n.connId == conn)
    ensures Minus(ns, dead) == Others(ns, conn)
  {
    if ns != [] {
      OthersIsMinus(ns[1..], conn, dead);
    }
  }

  lemma AfterCut(ns: seq<Node>, k: nat)
    requires k < |ns|
    ensures var r := ns[..k] + ns[k + 1..];
      && |r| == |ns| - 1
      && (forall i :: -1 <= i < k - 1 ==> After(r, i) == After(ns, i))
      && (forall i :: k - 1 <= i < |r| ==> After(r, i) == After(ns, i + 1))
  {
  }

  /** The calls that change the list. */
  datatype Op = Create(uuid: string) | Remove(uuid: string) | RemoveConn(conn: nat) | SetConn(uuid: string, conn: nat)

  predicate AllShort(ops: seq<Op>) {
    forall i :: 0 <= i < |ops| && ops[i].Create? ==> |ops[i].uuid| < UUID_SIZE
  }

  /** What follows position i of the list. */
  function After(ns: seq<Node>, i: int): Node?
    requires -1 <= i
  {
    if i + 1 < |ns| then ns[i + 1] else null
  }

  class Scheduler {
    var tasks: Node?
    var count: int
    ghost var nodes: seq<Node>

    /** The list behind tasks is nodes, each node once, and count is its length. */
    ghost predicate Valid()
      reads this, (set n | n in nodes)`next
    {
      && count == |nodes|
      && tasks == After(nodes, -1)
      && (forall i :: 0 <= i < |nodes| ==> nodes[i].next == After(nodes, i))
      && Distinct(nodes)
      && Fitting(nodes)
    }

    constructor ()
      ensures Valid() && nodes == []
    {
      tasks, count, nodes := null, 0, [];
    }

    /** `find_node`. */
    method FindNode(uuid: string) returns (n: Node?)
      requires Valid()
      ensures n == null <==> !Taken(nodes, uuid)
      ensures n != null ==>
        exists i :: 0 <= i < |nodes| && nodes[i] == n && n.uuid == uuid && forall j :: 0 <= j < i ==> nodes[j].uuid != uuid
    {
      n := tasks;
      ghost var i := 0;
      while n != null
        invariant 0 <= i <= |nodes| && n == if i < |nodes| then nodes[i] else null
        invariant forall j :: 0 <= j < i ==> nodes[j].uuid != uuid
        decreases |nodes| - i
      {
        if n.uuid == uuid { return; }
        n := n.next;
        i := i + 1;
      }
    }

    /** `rt_create_task`, when the allocation succeeds. */
    method CreateTask(uuid: string) returns (n: Node?)
      requires Valid()
      modifies this
      ensures Valid()
      ensures n == null <==> Taken(old(nodes), uuid)
      ensures n == null ==> nodes == old(nodes)
      ensures n != null ==> fresh(n) && n.uuid == Stored(uuid) && nodes == [n] + old(nodes)
      ensures |uuid| < UUID_SIZE && UniqueUuids(old(nodes)) ==> UniqueUuids(nodes)
      ensures |uuid| >= UUID_SIZE ==>
        && n != null
        && (UniqueUuids(nodes) <==> UniqueUuids(old(nodes)) && !Taken(old(nodes), uuid[..UUID_SIZE - 1]))
    {
      hide Valid, UniqueUuids, Taken, Distinct;
      LongIsFree(uuid);
      n := FindNode(uuid);
      if n != null {
        return null;
      }
      n := Prepend(uuid);
      ConsIsUniqueIff(n, old(nodes));
    }

    /** Puts a new node in front of the list. */
    method Prepend(uuid: string) returns (n: Node)
      requires Valid()
      modifies this
      ensures Valid()
      ensures fresh(n) && n.uuid == Stored(uuid) && nodes == [n] + old(nodes)
    {
      n := new Node(uuid, tasks);
      tasks := n;
      count := count + 1;
      nodes := [n] + nodes;
      forall i | 0 <= i < |nodes| ensures nodes[i].next == After(nodes, i) {
        if i > 0 {
          assert nodes[i] == old(nodes)[i - 1] && old(nodes)[i - 1].next == After(old(nodes), i - 1);
        }
      }
    }

    /** No stored uuid is as long as a uuid that does not fit. */
    lemma LongIsFree(uuid: string)
      requires Valid()
      ensures |uuid| >= UUID_SIZE ==> !Taken(nodes, uuid)
    {
    }

    /** `rt_remove_task`. */
    method RemoveTask(node: Node) returns (rc: int)
      requires Valid()
      modifies this, (set n | n in nodes)`next
      ensures Valid()
      ensures rc == if node in old(nodes) then 0 else -1
      ensures nodes == Minus(old(nodes), {node})
      ensures UniqueUuids(old(nodes)) ==> UniqueUuids(nodes)
    {
      var prev: Node?, cur := null, tasks;
      ghost var k := 0;
      while cur != null && cur != node
        invariant 0 <= k <= |nodes| && cur == After(nodes, k - 1)
        invariant if k == 0 then prev == null else prev == nodes[k - 1]
        invariant forall j :: 0 <= j < k ==> nodes[j] != node
        decreases |nodes| - k
      {
        prev := cur;
        cur := cur.next;
        k := k + 1;
      }
      if cur == null {
        MinusNone(nodes, {node});
        return -1;
      }
      MinusOne(nodes, k);
      MinusKeeps(nodes, {node});
      Unlink(prev, cur, k);
      return 0;
    }

    lemma OthersDiffer(k: nat)
      requires Valid() && k < |nodes|
      ensures forall i :: 0 <= i < |nodes| && i != k - 1 && k > 0 ==> nodes[i] != nodes[k - 1]
    {
    }

    /** Takes node k out of the list. */
    method Unlink(prev: Node?, cur: Node, ghost k: nat)
      requires Valid() && k < |nodes| && cur == nodes[k]
      requires if k == 0 then prev == null else prev == nodes[k - 1]
      modifies this, (set n | n in nodes)`next
      ensures Valid() && nodes == old(nodes)[..k] + old(nodes)[k + 1..]
    {
      OthersDiffer(k);
      hide Distinct, Fitting;
      if prev != null {
        prev.next := cur.next;
      } else {
        tasks := cur.next;
      }
      count := count - 1;
      ghost var was := nodes;
      CutKeeps(was, k);
      nodes := nodes[..k] + nodes[k + 1..];
      AfterCut(was, k);
      forall i | 0 <= i < |nodes| ensures nodes[i].next == After(nodes, i) {
        if i < k {
          assert nodes[i] == was[i];
        } else {
          assert nodes[i] == was[i + 1];
        }
      }
    }

    /** Following the list from position k. */
    lemma Follow(k: int)
      requires Valid() && -1 <= k < |nodes|
      ensures k == -1 ==> tasks == After(nodes, k)
      ensures k >= 0 ==> nodes[k].next == After(nodes, k) && nodes[k] !in nodes[..k]
    {
    }

    /** The tasks of a connection. */
    method Victims(conn: nat) returns (victims: seq<Node>)
      requires Valid()
      ensures Distinct(victims)
      ensures forall i :: 0 <= i < |victims| ==> victims[i] in nodes && victims[i].connId == conn
      ensures forall i :: 0 <= i < |nodes| && nodes[i].connId == conn ==> nodes[i] in victims
    {
      hide Valid;
      victims := [];
      Follow(-1);
      var cur := tasks;
      ghost var k := 0;
      while cur != null
        invariant 0 <= k <= |nodes| && cur == After(nodes, k - 1)
        invariant forall i :: 0 <= i < |victims| ==> victims[i] in nodes[..k] && victims[i].connId == conn
        invariant forall i :: 0 <= i < k && nodes[i].connId == conn ==> nodes[i] in victims
        invariant Distinct(victims)
        decreases |nodes| - k
      {
        Follow(k);
        assert nodes[..k + 1] == nodes[..k] + [cur];
        if cur.connId == conn {
          victims := victims + [cur];
        }
        cur := cur.next;
        k := k + 1;
      }
    }

    /** `rt_remove_tasks_by_conn`, when the allocations succeed. */
    method RemoveTasksByConn(conn: nat) returns (removed: nat)
      requires Valid()
      modifies this, (set n | n in nodes)`next
      ensures Valid()
      ensures nodes == Others(old(nodes), conn)
      ensures removed == |old(nodes)| - |nodes|
      ensures forall i :: 0 <= i < |nodes| ==> nodes[i] in old(nodes)
      ensures UniqueUuids(old(nodes)) ==> UniqueUuids(nodes)
    {
      hide Valid, UniqueUuids, Distinct;
      var victims := Victims(conn);
      ghost var all := nodes;
      MinusNone(all, Set(victims[..0]));
      removed := 0;
      for i := 0 to |victims|
        invariant Valid() && nodes == Minus(all, Set(victims[..i]))
        invariant removed == i == |all| - |nodes|
        invariant forall j :: 0 <= j < |nodes| ==> nodes[j] in all
      {
        removed := RemoveVictim(victims, i, all, removed);
      }
      assert victims[..|victims|] == victims;
      forall n | n in all ensures n in Set(victims) <==> n.connId == conn {
      }
      OthersIsMinus(all, conn, Set(victims));
      MinusKeeps(all, Set(victims));
    }

    lemma ListIsDistinct()
      requires Valid()
      ensures Distinct(nodes)
    {
    }

    /** One turn of the second loop of `rt_remove_tasks_by_conn`. */
    method RemoveVictim(victims: seq<Node>, i: nat, ghost all: seq<Node>, removed: nat) returns (more: nat)
      requires Valid() && Distinct(victims) && i < |victims| && victims[i] in all
      requires nodes == Minus(all, Set(victims[..i]))
      modifies this, (set n | n in nodes)`next
      ensures Valid() && nodes == Minus(all, Set(victims[..i + 1]))
      ensures more == removed + 1 && |nodes| == |old(nodes)| - 1
    {
      hide Valid, UniqueUuids;
      ListIsDistinct();
      NextVictim(all, victims, i, nodes);
      var rc := RemoveTask(victims[i]);
      more := removed;
      if rc == 0 {
        more := more + 1;
      }
    }

    /** Any run of creations and removals, and of tasks changing hands. */
    method Perform(ops: seq<Op>)
      requires Valid()
      modifies this, (set n | n in nodes)
      ensures Valid()
      ensures AllShort(ops) && UniqueUuids(old(nodes)) ==> UniqueUuids(nodes)
    {
      hide Valid, UniqueUuids, Taken, Distinct;
      ghost var start := nodes;
      for i := 0 to |ops|
        invariant Valid() && forall n :: n in nodes ==> n in start || fresh(n)
        invariant AllShort(ops) && UniqueUuids(old(nodes)) ==> UniqueUuids(nodes)
      {
        match ops[i] {
          case Create(uuid) =>
            ghost var before := nodes;
            var n := CreateTask(uuid);
            assert forall x :: x in nodes ==> x in before || x == n;
          case Remove(uuid) =>
            var n := FindNode(uuid);
            if n != null {
              var _ := RemoveTask(n);
            }
          case RemoveConn(conn) =>
            var _ := RemoveTasksByConn(conn);
          case SetConn(uuid, conn) =>
            var n := FindNode(uuid);
            if n != null {
              n.connId := conn;
            }
        }
      }
    }

    /** A uuid that does not fit can be created twice: the second creation does not see the first,
        and leaves two nodes with one uuid. */
    method CreateLongTwice(uuid: string) returns (a: Node?, b: Node?)
      requires Valid() && |uuid| >= UUID_SIZE
      modifies this
      ensures Valid() && a != null && b != null && a != b && a.uuid == b.uuid
      ensures nodes == [b, a] + old(nodes) && !UniqueUuids(nodes)
    {
      a := CreateTask(uuid);
      b := CreateTask(uuid);
      assert nodes[0].uuid == nodes[1].uuid;
    }
  }
}
