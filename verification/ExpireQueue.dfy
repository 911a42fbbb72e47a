/** The expiration queue of nng's aio framework: the list that the expire thread scans and the
    time of its next wake-up. */
module ExpireQueue {

  const NNI_TIME_NEVER: nat := 0xFFFF_FFFF_FFFF_FFFF
  const NNI_EXPIRE_BATCH := 100

  /** What one scan takes off the list, what it leaves, and when to look again. */
  datatype Scan = Scan(batch: seq<nat>, kept: seq<nat>, next: nat)

  function Min(a: nat, b: nat): nat {
    if a < b then a else b
  }

  /** From the front: an expired entry goes into the batch while there is room, any other entry
      stays and is taken into account for the next wake-up.  times[a] is the expiration of aio a. */
  function Split(list: seq<nat>, times: seq<nat>, now: nat, room: nat): (r: Scan)
    requires forall i :: 0 <= i < |list| ==> list[i] < |times|
    ensures r.next <= NNI_TIME_NEVER
  {
    if list == [] then Scan([], [], NNI_TIME_NEVER)
    else if times[list[0]] < now && room > 0 then
      var r := Split(list[1..], times, now, room - 1);
      r.(batch := [list[0]] + r.batch)
    else
      var r := Split(list[1..], times, now, room);
      Scan(r.batch, [list[0]] + r.kept, Min(times[list[0]], r.next))
  }

  /** A scan loses and doubles nothing. */
  lemma {:induction false} SplitKeepsAll(list: seq<nat>, times: seq<nat>, now: nat, room: nat)
    requires forall i :: 0 <= i < |list| ==> list[i] < |times|
    ensures var r := Split(list, times, now, room); multiset(r.batch) + multiset(r.kept) == multiset(list)
  {
    if list != [] {
      assert list == [list[0]] + list[1..];
      var expired := times[list[0]] < now && room > 0;
      SplitKeepsAll(list[1..], times, now, if expired then room - 1 else room);
      var r := Split(list[1..], times, now, if expired then room - 1 else room);
      if expired {
        assert multiset([list[0]] + r.batch) == multiset{list[0]} + multiset(r.batch);
      } else {
        assert multiset([list[0]] + r.kept) == multiset{list[0]} + multiset(r.kept);
      }
    }
  }

  /** The batch holds strictly expired entries only and is never larger than there is room;
      an expired entry stays behind only when the batch is full; and no entry that stays
      expires before the next wake-up. */
  lemma {:induction false} SplitMeaning(list: seq<nat>, times: seq<nat>, now: nat, room: nat)
    requires forall i :: 0 <= i < |list| ==> list[i] < |times|
    ensures var r := Split(list, times, now, room);
            && |r.batch| <= room
            && (forall i :: 0 <= i < |r.batch| ==> r.batch[i] < |times| && times[r.batch[i]] < now)
            && (forall i :: 0 <= i < |r.kept| ==> r.kept[i] < |times| && r.next <= times[r.kept[i]])
            && ((exists i :: 0 <= i < |r.kept| && times[r.kept[i]] < now) ==> |r.batch| == room)
            && (r.next == NNI_TIME_NEVER || exists i :: 0 <= i < |r.kept| && r.next == times[r.kept[i]])
  {
    if list != [] {
      var expired := times[list[0]] < now && room > 0;
      SplitMeaning(list[1..], times, now, if expired then room - 1 else room);
      var q := Split(list[1..], times, now, if expired then room - 1 else room);
      var r := Split(list, times, now, room);
      if !expired {
        assert r.kept[0] == list[0] && forall i :: 0 <= i < |q.kept| ==> r.kept[i + 1] == q.kept[i];
        if q.next != NNI_TIME_NEVER {
          var i :| 0 <= i < |q.kept| && q.next == times[q.kept[i]];
          assert r.kept[i + 1] == q.kept[i];
        }
        if exists i :: 0 <= i < |r.kept| && times[r.kept[i]] < now {
          var i :| 0 <= i < |r.kept| && times[r.kept[i]] < now;
          assert i == 0 || q.kept[i - 1] == r.kept[i];
        }
      } else {
        assert r.kept == q.kept;
        assert r.batch[0] == list[0] && forall i :: 0 <= i < |q.batch| ==> r.batch[i + 1] == q.batch[i];
      }
    }
  }

  /** The list after the first entry for a has been unlinked. */
  function Without(list: seq<nat>, a: nat): (r: seq<nat>)
    ensures forall b :: b != a ==> (b in r <==> b in list)
  {
    if list == [] then [] else if list[0] == a then list[1..] else [list[0]] + Without(list[1..], a)
  }

  /** The first position of a, or the length. */
  function Position(list: seq<nat>, a: nat): (i: nat)
    ensures i <= |list|
  {
    if list == [] || list[0] == a then 0 else 1 + Position(list[1..], a)
  }

  predicate InOrder(list: seq<nat>, xs: seq<nat>) {
    forall i, j :: 0 <= i < j < |xs| ==> Position(list, xs[i]) < Position(list, xs[j])
  }

  lemma OrderBehind(list: seq<nat>, xs: seq<nat>)
    requires list != [] && list[0] !in list[1..] && InOrder(list[1..], xs)
    requires forall i :: 0 <= i < |xs| ==> xs[i] in list[1..]
    ensures InOrder(list, xs) && InOrder(list, [list[0]] + xs)
  {
    assert forall i :: 0 <= i < |xs| ==> Position(list, xs[i]) == 1 + Position(list[1..], xs[i]);
  }

  /** A scan changes no order: what stays, and what goes into the batch, keeps the order of the list. */
  lemma {:induction false} SplitKeepsOrder(list: seq<nat>, times: seq<nat>, now: nat, room: nat)
    requires forall i :: 0 <= i < |list| ==> list[i] < |times|
    requires forall i, j :: 0 <= i < j < |list| ==> list[i] != list[j]
    ensures var r := Split(list, times, now, room); InOrder(list, r.kept) && InOrder(list, r.batch)
  {
    if list != [] {
      hide InOrder, Position;
      var more := if times[list[0]] < now && room > 0 then room - 1 else room;
      SplitKeepsOrder(list[1..], times, now, more);
      SplitMembers(list[1..], times, now, more);
      var q := Split(list[1..], times, now, more);
      assert forall i :: 0 <= i < |q.kept| ==> q.kept[i] in q.kept;
      assert forall i :: 0 <= i < |q.batch| ==> q.batch[i] in q.batch;
      OrderBehind(list, q.kept);
      OrderBehind(list, q.batch);
    } else {
      assert Split(list, times, now, room).kept == [];
    }
  }

  lemma {:induction false} PositionAppends(list: seq<nat>, b: nat, a: nat)
    ensures a in list ==> Position(list + [b], a) == Position(list, a)
  {
    if list != [] {
      assert (list + [b])[1..] == list[1..] + [b];
      PositionAppends(list[1..], b, a);
    }
  }

  /** Unlinking another entry does not move an entry back. */
  lemma {:induction false} PositionWithout(list: seq<nat>, b: nat, a: nat)
    ensures a != b ==> Position(Without(list, b), a) <= Position(list, a)
  {
    if list != [] {
      PositionWithout(list[1..], b, a);
    }
  }

  /** A scan puts an expired entry into the batch, no further back than it was, or fills the batch
      with what stood before it. */
  lemma {:induction false} PositionSplit(list: seq<nat>, times: seq<nat>, now: nat, room: nat, a: nat)
    requires forall i :: 0 <= i < |list| ==> list[i] < |times|
    requires a in list && times[a] < now
    ensures var r := Split(list, times, now, room);
      if a in r.batch then Position(r.batch, a) <= Position(list, a)
      else |r.batch| == room && Position(r.kept, a) + room == Position(list, a)
  {
    var expired := times[list[0]] < now && room > 0;
    if list[0] != a {
      PositionSplit(list[1..], times, now, if expired then room - 1 else room, a);
    } else if room == 0 {
      NoRoom(list, times, now);
    }
  }

  lemma {:induction false} NoRoom(list: seq<nat>, times: seq<nat>, now: nat)
    requires forall i :: 0 <= i < |list| ==> list[i] < |times|
    ensures Split(list, times, now, 0).batch == []
  {
    if list != [] {
      NoRoom(list[1..], times, now);
    }
  }

  lemma {:induction false} WithoutAt(list: seq<nat>, a: nat, i: nat)
    requires i <= |list| && a !in list[..i] && (i < |list| ==> list[i] == a)
    ensures Without(list, a) == if i < |list| then list[..i] + list[i + 1..] else list
  {
    if i > 0 {
      assert list[0] in list[..i];
      assert list[1..][..i - 1] == list[1..i];
      forall b | b in list[1..i] ensures b != a {
        assert b in list[..i];
      }
      WithoutAt(list[1..], a, i - 1);
    }
  }

  lemma {:induction false} WithoutDistinct(list: seq<nat>, a: nat)
    requires forall i, j :: 0 <= i < j < |list| ==> list[i] != list[j]
    ensures var r := Without(list, a); a !in r && forall i, j :: 0 <= i < j < |r| ==> r[i] != r[j]
  {
    if list != [] && list[0] != a {
      WithoutDistinct(list[1..], a);
      assert list[0] !in list[1..];
    }
  }

  /** The queue as the expire thread and the callers of the aio functions share it. */
  class Queue {
    var eqList: seq<nat>
    var eqNext: nat
    var woken: bool            // eq_cv has been signalled
    const expire: array<nat>   // a_expire of every aio

    /** No listed aio expires before the next wake-up, and none is listed twice. */
    ghost predicate Valid()
      reads this, expire
    {
      && (forall i :: 0 <= i < |eqList| ==> eqList[i] < expire.Length && eqNext <= expire[eqList[i]])
      && (forall i, j :: 0 <= i < j < |eqList| ==> eqList[i] != eqList[j])
    }

    constructor (n: nat)
      ensures Valid() && eqList == [] && eqNext == NNI_TIME_NEVER && !woken && expire.Length == n && fresh(expire)
    {
      eqList, eqNext, woken := [], NNI_TIME_NEVER, false;
      expire := new nat[n](_ => NNI_TIME_NEVER);
    }

    method Add(a: nat)
      requires Valid() && a < expire.Length && a !in eqList
      modifies this
      ensures Valid() && eqList == old(eqList) + [a]
      ensures eqNext == Min(old(eqNext), expire[a])
      ensures woken <==> old(woken) || eqNext < old(eqNext)
    {
      eqList := eqList + [a];
      if eqNext > expire[a] {
        eqNext := expire[a];
        woken := true;
      }
    }

    /** Removes an aio wherever it is; the wake-up time stays, at the price of a spurious one. */
    method Remove(a: nat)
      requires Valid()
      modifies this`eqList
      ensures Valid() && a !in eqList
      ensures eqList == Without(old(eqList), a)
      ensures if a in old(eqList) then exists i :: 0 <= i < |old(eqList)| && old(eqList)[i] == a
                                                   && eqList == old(eqList)[..i] + old(eqList)[i + 1..]
              else eqList == old(eqList)
    {
      hide Without;
      var i := 0;
      while i < |eqList| && eqList[i] != a
        invariant i <= |eqList| && a !in eqList[..i]
      {
        i := i + 1;
      }
      WithoutAt(eqList, a, i);
      if i < |eqList| {
        eqList := eqList[..i] + eqList[i + 1..];
      }
    }

    /** The scan of the expire loop. */
    method TakeExpired(now: nat) returns (expires: seq<nat>)
      requires Valid()
      modifies this`eqList, this`eqNext
      ensures Valid()
      ensures var r := Split(old(eqList), expire[..], now, NNI_EXPIRE_BATCH);
              expires == r.batch && eqList == r.kept && eqNext == r.next
    {
      hide Split, Joined;
      ghost var times := expire[..];
      ghost var whole := Split(eqList, times, now, NNI_EXPIRE_BATCH);
      SplitMeaning(eqList, times, now, NNI_EXPIRE_BATCH);
      KeptIsDistinct(eqList, times, now, NNI_EXPIRE_BATCH);
      JoinNothing(eqList, times, now);
      expires := [];
      eqNext := NNI_TIME_NEVER;
      var i := 0;
      while i < |eqList|
        invariant 0 <= i <= |eqList| && |expires| <= NNI_EXPIRE_BATCH
        invariant eqNext <= NNI_TIME_NEVER
        invariant forall j :: 0 <= j < |eqList| ==> eqList[j] < |times|
        invariant Joined(expires, eqList[..i], eqNext, Split(eqList[i..], times, now, NNI_EXPIRE_BATCH - |expires|)) == whole
        decreases |eqList| - i
      {
        var a := eqList[i];
        Advance(expires, eqList, i, eqNext, times, now);
        if expire[a] < now && |expires| < NNI_EXPIRE_BATCH {
          expires := expires + [a];
          eqList := eqList[..i] + eqList[i + 1..];
        } else {
          if expire[a] < eqNext {
            eqNext := expire[a];
          }
          i := i + 1;
        }
      }
      assert eqList[..i] == eqList;
      NothingLeft(expires, eqList, eqNext, times, now);
    }
  }

  /** What has been taken off, passed over and seen so far, and what the rest of the scan adds. */
  function Joined(batch: seq<nat>, kept: seq<nat>, next: nat, r: Scan): Scan {
    Scan(batch + r.batch, kept + r.kept, Min(next, r.next))
  }

  lemma JoinNothing(list: seq<nat>, times: seq<nat>, now: nat)
    requires forall j :: 0 <= j < |list| ==> list[j] < |times|
    ensures Joined([], list[..0], NNI_TIME_NEVER, Split(list[0..], times, now, NNI_EXPIRE_BATCH)) == Split(list, times, now, NNI_EXPIRE_BATCH)
  {
    assert list[0..] == list;
  }

  lemma NothingLeft(batch: seq<nat>, kept: seq<nat>, next: nat, times: seq<nat>, now: nat)
    requires next <= NNI_TIME_NEVER && |batch| <= NNI_EXPIRE_BATCH
    ensures Joined(batch, kept, next, Split([], times, now, NNI_EXPIRE_BATCH - |batch|)) == Scan(batch, kept, next)
  {
  }

  /** One round of the scan at position i moves the entry there to the right side. */
  lemma Advance(batch: seq<nat>, list: seq<nat>, i: nat, next: nat, times: seq<nat>, now: nat)
    requires i < |list| && |batch| <= NNI_EXPIRE_BATCH
    requires forall j :: 0 <= j < |list| ==> list[j] < |times|
    ensures var rest := list[..i] + list[i + 1..];
            var whole := Joined(batch, list[..i], next, Split(list[i..], times, now, NNI_EXPIRE_BATCH - |batch|));
            if times[list[i]] < now && |batch| < NNI_EXPIRE_BATCH then
              Joined(batch + [list[i]], rest[..i], next, Split(rest[i..], times, now, NNI_EXPIRE_BATCH - |batch| - 1)) == whole
            else
              Joined(batch, list[..i + 1], Min(times[list[i]], next), Split(list[i + 1..], times, now, NNI_EXPIRE_BATCH - |batch|)) == whole
  {
    var rest := list[..i] + list[i + 1..];
    assert rest[i..] == list[i + 1..] == list[i..][1..];
    assert rest[..i] == list[..i];
    assert list[..i + 1] == list[..i] + [list[i]];
  }

  lemma {:induction false} SplitMembers(list: seq<nat>, times: seq<nat>, now: nat, room: nat)
    requires forall i :: 0 <= i < |list| ==> list[i] < |times|
    ensures var r := Split(list, times, now, room);
            forall a :: a in list <==> a in r.batch || a in r.kept
  {
    if list != [] {
      var expired := times[list[0]] < now && room > 0;
      SplitMembers(list[1..], times, now, if expired then room - 1 else room);
      assert list == [list[0]] + list[1..];
    }
  }

  /** What was listed once is afterwards in the batch or in the list, once. */
  lemma {:induction false} KeptIsDistinct(list: seq<nat>, times: seq<nat>, now: nat, room: nat)
    requires forall i :: 0 <= i < |list| ==> list[i] < |times|
    requires forall i, j :: 0 <= i < j < |list| ==> list[i] != list[j]
    ensures var r := Split(list, times, now, room);
            && (forall i, j :: 0 <= i < j < |r.kept| ==> r.kept[i] != r.kept[j])
            && (forall i, j :: 0 <= i < j < |r.batch| ==> r.batch[i] != r.batch[j])
            && (forall a :: a in r.batch ==> a !in r.kept)
  {
    if list != [] {
      var expired := times[list[0]] < now && room > 0;
      KeptIsDistinct(list[1..], times, now, if expired then room - 1 else room);
      SplitMembers(list[1..], times, now, if expired then room - 1 else room);
      assert list[0] !in list[1..];
    }
  }
}
