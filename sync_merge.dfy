/**
 * Reconciling the browser variant's order list with the snapshot held in the
 * remote file store. Either the snapshot replaces the list wholesale, or the
 * two are merged per id: remote orders first, then local ones that are
 * strictly newer or unknown remotely, and finally local-only orders older than
 * five minutes are dropped.
 */
module SyncMerge {
  import opened Common
  import opened LocalOrders

  /** How long a local-only order survives a merge: five minutes, in milliseconds. */
  const RecentWindowMs: int := 5 * 60 * 1000

  /** `new Date(a) > new Date(b)`: false when either side is missing (an invalid date compares false). */
  predicate Later(a: Option<int>, b: Option<int>)
  {
    a.Some? && b.Some? && a.value > b.value
  }

  /** Updated within the last five minutes. */
  predicate IsRecent(o: Order, now: int)
  {
    Later(o.updatedAt, Some(now - RecentWindowMs))
  }

  /** `remoteOrders.some(r => r.id === order.id)`. */
  predicate InRemote(remote: seq<Order>, o: Order)
  {
    exists r :: r in remote && r.id == o.id
  }

  predicate UniqueIds(os: seq<Order>)
  {
    forall i, j :: 0 <= i < j < |os| ==> os[i].id != os[j].id
  }

  /** A JavaScript Map from id to order: its keys in insertion order, and its entries. */
  datatype OrderMap = OrderMap(keys: seq<string>, entries: map<string, Order>)

  ghost predicate Valid(m: OrderMap)
  {
    && (forall i, j :: 0 <= i < j < |m.keys| ==> m.keys[i] != m.keys[j])
    && (forall k :: k in m.keys <==> k in m.entries)
    && (forall k :: k in m.entries ==> m.entries[k].id == k)
  }

  const Empty: OrderMap := OrderMap([], map[])

  /** `map.set(o.id, o)`: a new key goes last, an existing key keeps its place. */
  function Put(m: OrderMap, o: Order): (r: OrderMap)
    requires Valid(m)
    ensures Valid(r)
    ensures r.entries == m.entries[o.id := o]
    ensures o.id in m.entries ==> r.keys == m.keys
    ensures o.id !in m.entries ==> r.keys == m.keys + [o.id]
  {
    if o.id in m.entries then m.(entries := m.entries[o.id := o])
    else OrderMap(m.keys + [o.id], m.entries[o.id := o])
  }

  /** The members of a non-empty sequence: those before its last element, and the last. */
  lemma MembersOfSnoc(s: seq<Order>)
    requires s != []
    ensures forall x :: x in s <==> x in s[..|s| - 1] || x == s[|s| - 1]
  {
    assert s == s[..|s| - 1] + [s[|s| - 1]];
  }

  /** The map after `remoteOrders.forEach(r => map.set(r.id, r))`. */
  function PutAll(os: seq<Order>): (m: OrderMap)
    ensures Valid(m)
    ensures forall k :: k in m.entries <==> exists o :: o in os && o.id == k
    ensures forall k :: k in m.entries ==> m.entries[k] in os
    decreases |os|
  {
    if os == [] then Empty
    else
      var front := os[..|os| - 1];
      var m := Put(PutAll(front), os[|os| - 1]);
      MembersOfSnoc(os);
      m
  }

  /** Whether a local order takes the place of what the map holds for its id. */
  predicate Replaces(m: OrderMap, o: Order)
    requires Valid(m)
  {
    o.id !in m.entries || Later(o.updatedAt, m.entries[o.id].updatedAt)
  }

  /** The map after the local pass of the merge, over the local orders in order. */
  function Overlay(m: OrderMap, local: seq<Order>): (r: OrderMap)
    requires Valid(m)
    ensures Valid(r)
    ensures forall k :: k in r.entries <==> k in m.entries || exists o :: o in local && o.id == k
    ensures forall k :: k in r.entries ==> r.entries[k] in local || (k in m.entries && r.entries[k] == m.entries[k])
    decreases |local|
  {
    if local == [] then m
    else
      var front := local[..|local| - 1];
      var o := local[|local| - 1];
      var prev := Overlay(m, front);
      MembersOfSnoc(local);
      if Replaces(prev, o) then Put(prev, o) else prev
  }

  /** `Array.from(map.values())`: the entries in key order. */
  function Values(m: OrderMap): (vs: seq<Order>)
    requires Valid(m)
    ensures |vs| == |m.keys|
    ensures forall i :: 0 <= i < |vs| ==> vs[i] == m.entries[m.keys[i]]
    ensures UniqueIds(vs)
    ensures forall o :: o in vs <==> o.id in m.entries && m.entries[o.id] == o
  {
    var vs := seq(|m.keys|, i requires 0 <= i < |m.keys| => m.entries[m.keys[i]]);
    assert forall o: Order :: o.id in m.entries && m.entries[o.id] == o ==> o in vs by {
      forall o: Order | o.id in m.entries && m.entries[o.id] == o ensures o in vs {
        var i :| 0 <= i < |m.keys| && m.keys[i] == o.id;
        assert vs[i] == o;
      }
    }
    vs
  }

  /** The retention filter of the merge: known remotely, or updated in the last five minutes. */
  function Retained(remote: seq<Order>, now: int): Order -> bool
  {
    (o: Order) => InRemote(remote, o) || IsRecent(o, now)
  }

  /** The merged list, stated as folds over the two lists: each id at most once, each order known remotely or recent. */
  function Merge(local: seq<Order>, remote: seq<Order>, now: int): (r: seq<Order>)
    ensures UniqueIds(r)
    ensures forall o :: o in r ==> InRemote(remote, o) || IsRecent(o, now)
  {
    var vs := Values(Overlay(PutAll(remote), local));
    KeepUniqueIds(vs, Retained(remote, now));
    Keep(vs, Retained(remote, now))
  }

  /** `remoteOrders.forEach(r => map.set(r.id, r))` on a fresh map. */
  method RemotePass(remote: seq<Order>) returns (m: OrderMap)
    ensures Valid(m) && m == PutAll(remote)
  {
    m := Empty;
    var i := 0;
    while i < |remote|
      invariant 0 <= i <= |remote|
      invariant Valid(m) && m == PutAll(remote[..i])
    {
      PutAllStep(remote, i);
      m := Put(m, remote[i]);
      i := i + 1;
    }
    assert remote[..i] == remote;
  }

  /** The local pass: each local order replaces the entry for its id when it is new there or strictly later. */
  method LocalPass(base: OrderMap, local: seq<Order>) returns (m: OrderMap)
    requires Valid(base)
    ensures Valid(m) && m == Overlay(base, local)
  {
    m := base;
    var j := 0;
    while j < |local|
      invariant 0 <= j <= |local|
      invariant Valid(m) && m == Overlay(base, local[..j])
    {
      OverlayStep(base, local, j);
      var o := local[j];
      if o.id !in m.entries || Later(o.updatedAt, m.entries[o.id].updatedAt) {
        m := Put(m, o);
      }
      j := j + 1;
    }
    assert local[..j] == local;
  }

  /** The merge as the source runs it: two passes that fill a map, then the retention filter. */
  method MergeOrders(local: seq<Order>, remote: seq<Order>, now: int) returns (merged: seq<Order>)
    ensures merged == Merge(local, remote, now)
    ensures UniqueIds(merged)
    ensures forall r :: r in remote ==> exists o :: o in merged && o.id == r.id
  {
    var base := RemotePass(remote);
    var m := LocalPass(base, local);
    merged := Keep(Values(m), Retained(remote, now));
    MergeKeepsRemoteIds(local, remote, now);
  }

  lemma PutAllStep(os: seq<Order>, i: nat)
    requires i < |os|
    ensures PutAll(os[..i + 1]) == Put(PutAll(os[..i]), os[i])
  {
    assert os[..i + 1][..i] == os[..i];
  }

  lemma OverlayStep(m: OrderMap, local: seq<Order>, j: nat)
    requires Valid(m) && j < |local|
    ensures var prev := Overlay(m, local[..j]);
      Overlay(m, local[..j + 1]) == if Replaces(prev, local[j]) then Put(prev, local[j]) else prev
  {
    assert local[..j + 1][..j] == local[..j];
  }

  lemma {:induction false} KeepUniqueIds(s: seq<Order>, p: Order -> bool)
    requires UniqueIds(s)
    ensures UniqueIds(Keep(s, p))
  {
    if s != [] {
      KeepUniqueIds(s[1..], p);
      var rest := Keep(s[1..], p);
      forall j | 0 <= j < |rest| ensures rest[j].id != s[0].id {
        assert rest[j] in s[1..];
      }
    }
  }

  /** Every order of the merged list comes from one side or the other and passed the retention filter. */
  lemma MergeFromInputs(local: seq<Order>, remote: seq<Order>, now: int)
    ensures forall o :: o in Merge(local, remote, now) ==>
      (o in remote || o in local) && (InRemote(remote, o) || IsRecent(o, now))
  {
    var m := Overlay(PutAll(remote), local);
    forall o | o in Merge(local, remote, now) ensures o in remote || o in local {
      MergedIsEntry(m, Retained(remote, now), o);
    }
  }

  /** Every id of the snapshot is present after the merge. */
  lemma MergeKeepsRemoteIds(local: seq<Order>, remote: seq<Order>, now: int)
    ensures forall r :: r in remote ==> exists o :: o in Merge(local, remote, now) && o.id == r.id
  {
    var m := Overlay(PutAll(remote), local);
    var vs := Values(m);
    forall r | r in remote ensures exists o :: o in Merge(local, remote, now) && o.id == r.id {
      assert r.id in m.entries;
      var i :| 0 <= i < |m.keys| && m.keys[i] == r.id;
      var o := vs[i];
      assert o.id == r.id && InRemote(remote, o);
      assert o in vs;
    }
  }

  /** With distinct ids in the snapshot, the map of the remote pass holds each remote order under its id. */
  lemma {:induction false} PutAllEntry(os: seq<Order>, o: Order)
    requires UniqueIds(os) && o in os
    ensures PutAll(os).entries[o.id] == o
    decreases |os|
  {
    var front := os[..|os| - 1];
    var last := os[|os| - 1];
    if last != o {
      assert o in front by {
        assert os == front + [last];
      }
      var k :| 0 <= k < |front| && front[k] == o;
      assert os[k] == o;
      PutAllEntry(front, o);
    }
  }

  /** A local pass over orders that never carry id `k` leaves the entry for `k` alone. */
  lemma {:induction false} OverlayUntouched(m: OrderMap, local: seq<Order>, k: string)
    requires Valid(m)
    requires forall o :: o in local ==> o.id != k
    ensures k in Overlay(m, local).entries <==> k in m.entries
    ensures k in m.entries ==> Overlay(m, local).entries[k] == m.entries[k]
    decreases |local|
  {
    if local != [] {
      var front := local[..|local| - 1];
      assert forall o :: o in front ==> o in local;
      OverlayUntouched(m, front, k);
    }
  }

  /** Dropping the last order keeps ids distinct, and no order before the last shares its id. */
  lemma UniqueIdsFront(s: seq<Order>)
    requires UniqueIds(s) && s != []
    ensures UniqueIds(s[..|s| - 1])
    ensures forall o :: o in s[..|s| - 1] ==> o.id != s[|s| - 1].id
  {
    var front := s[..|s| - 1];
    forall o | o in front ensures o.id != s[|s| - 1].id {
      var k :| 0 <= k < |front| && front[k] == o;
      assert s[k] == o;
    }
  }

  /** With distinct local ids, the local pass decides the entry of a local order's id once, by that order alone. */
  lemma {:induction false} OverlayEntry(m: OrderMap, local: seq<Order>, l: Order)
    requires Valid(m) && UniqueIds(local) && l in local
    ensures Overlay(m, local).entries[l.id] == if Replaces(m, l) then l else m.entries[l.id]
    decreases |local|
  {
    var front := local[..|local| - 1];
    var last := local[|local| - 1];
    UniqueIdsFront(local);
    if last == l {
      OverlayUntouched(m, front, l.id);
    } else {
      assert l in front by {
        assert local == front + [last];
      }
      OverlayEntry(m, front, l);
    }
  }

  /** An order of the merged list is the map's entry for its id. */
  lemma MergedIsEntry(m: OrderMap, p: Order -> bool, o: Order)
    requires Valid(m) && o in Keep(Values(m), p)
    ensures o.id in m.entries && m.entries[o.id] == o
  {
    var vs := Values(m);
    var i :| 0 <= i < |vs| && vs[i] == o;
    assert m.keys[i] in m.entries;
  }

  /** The map's entry for an id is in the merged list when the filter keeps it. */
  lemma EntryIsMerged(m: OrderMap, p: Order -> bool, k: string)
    requires Valid(m) && k in m.entries && p(m.entries[k])
    ensures m.entries[k] in Keep(Values(m), p)
  {
    var i :| 0 <= i < |m.keys| && m.keys[i] == k;
    assert Values(m)[i] == m.entries[k];
  }

  /**
   * Last writer wins: for an id on both sides (ids distinct on each side), the
   * merged list holds the local order when its `updatedAt` is strictly later,
   * and the remote order otherwise, ties and missing timestamps included.
   */
  lemma MergeLastWriterWins(local: seq<Order>, remote: seq<Order>, now: int, l: Order, r: Order)
    requires UniqueIds(local) && UniqueIds(remote)
    requires l in local && r in remote && l.id == r.id
    ensures var w := if Later(l.updatedAt, r.updatedAt) then l else r;
      w in Merge(local, remote, now) && forall o :: o in Merge(local, remote, now) && o.id == l.id ==> o == w
  {
    var base := PutAll(remote);
    PutAllEntry(remote, r);
    OverlayEntry(base, local, l);
    var m := Overlay(base, local);
    var w := if Later(l.updatedAt, r.updatedAt) then l else r;
    assert m.entries[l.id] == w;
    assert InRemote(remote, w);
    EntryIsMerged(m, Retained(remote, now), l.id);
    forall o | o in Merge(local, remote, now) && o.id == l.id ensures o == w {
      MergedIsEntry(m, Retained(remote, now), o);
    }
  }

  /** A local order whose id the snapshot lacks survives the merge exactly when it was updated in the last five minutes. */
  lemma MergeLocalOnly(local: seq<Order>, remote: seq<Order>, now: int, l: Order)
    requires UniqueIds(local) && l in local
    requires forall r :: r in remote ==> r.id != l.id
    ensures l in Merge(local, remote, now) <==> IsRecent(l, now)
  {
    var base := PutAll(remote);
    assert l.id !in base.entries;
    OverlayEntry(base, local, l);
    var m := Overlay(base, local);
    assert !InRemote(remote, l);
    if IsRecent(l, now) {
      EntryIsMerged(m, Retained(remote, now), l.id);
    }
  }

  /** With distinct ids, the remote pass inserts the snapshot's ids in snapshot order. */
  /**
   * Without distinct ids, the remote pass keeps under an id the LAST remote
   * order carrying it: an order whose id no later order repeats is its id's
   * entry.
   */
  lemma {:induction false} PutAllLastWins(os: seq<Order>, i: nat)
    requires i < |os|
    requires forall j :: i < j < |os| ==> os[j].id != os[i].id
    ensures os[i].id in PutAll(os).entries && PutAll(os).entries[os[i].id] == os[i]
    decreases |os|
  {
    var front := os[..|os| - 1];
    if i < |os| - 1 {
      PutAllLastWins(front, i);
    }
  }

  lemma {:induction false} PutAllKeys(os: seq<Order>)
    requires UniqueIds(os)
    ensures |PutAll(os).keys| == |os|
    ensures forall i :: 0 <= i < |os| ==> PutAll(os).keys[i] == os[i].id
    decreases |os|
  {
    if os != [] {
      var front := os[..|os| - 1];
      var last := os[|os| - 1];
      assert UniqueIds(front);
      PutAllKeys(front);
      assert last.id !in PutAll(front).entries;
      var keys := PutAll(front).keys;
      assert PutAll(os).keys == keys + [last.id];
      forall i | 0 <= i < |os| ensures PutAll(os).keys[i] == os[i].id {
        if i < |front| {
          assert keys[i] == front[i].id;
        }
      }
    }
  }

  /** With distinct ids, the remote pass lists the snapshot's orders in snapshot order. */
  lemma PutAllValues(os: seq<Order>)
    requires UniqueIds(os)
    ensures Values(PutAll(os)) == os
  {
    PutAllKeys(os);
    forall i | 0 <= i < |os| ensures Values(PutAll(os))[i] == os[i] {
      PutAllEntry(os, os[i]);
    }
  }

  /** A local pass in which no order replaces anything changes nothing. */
  lemma {:induction false} OverlayNoReplace(m: OrderMap, local: seq<Order>)
    requires Valid(m)
    requires forall o :: o in local ==> o.id in m.entries && m.entries[o.id] == o
    ensures Overlay(m, local) == m
    decreases |local|
  {
    if local != [] {
      var front := local[..|local| - 1];
      assert forall o :: o in front ==> o in local;
      OverlayNoReplace(m, front);
    }
  }

  /**
   * Merging a list with itself gives the list back, so a second sync against an
   * unchanged snapshot leaves the orders as they are (ids distinct).
   */
  lemma MergeWithSelf(orders: seq<Order>, now: int)
    requires UniqueIds(orders)
    ensures Merge(orders, orders, now) == orders
  {
    var base := PutAll(orders);
    forall o | o in orders ensures o.id in base.entries && base.entries[o.id] == o {
      PutAllEntry(orders, o);
    }
    OverlayNoReplace(base, orders);
    PutAllValues(orders);
    forall i | 0 <= i < |orders| ensures Retained(orders, now)(orders[i]) {
      assert InRemote(orders, orders[i]);
    }
    KeepAll(orders, Retained(orders, now));
  }

  /**
   * The remote file's content: its order list (possibly missing) and its
   * last-sync time as the text the file holds (possibly missing).
   */
  datatype Snapshot = Snapshot(orders: Option<seq<Order>>, lastSync: Option<string>)

  /** `data.orders || []`. */
  function RemoteOrders(s: Snapshot): seq<Order>
  {
    if s.orders.Some? then s.orders.value else []
  }

  /** A sync time that counts as present: stored and not the empty text. */
  predicate IsSet(t: Option<string>)
  {
    t.Some? && t.value != ""
  }

  /**
   * The snapshot replaces the list when no local sync time is stored, or when
   * the remote one is present and, both read as dates, strictly later. A
   * stored local time that does not read as a date is still present, so the
   * comparison is false and the load merges.
   */
  predicate RemoteReplaces(localLastSync: Option<string>, remoteLastSync: Option<string>, parse: string -> Option<int>)
  {
    !IsSet(localLastSync)
    || (IsSet(remoteLastSync) && Later(parse(remoteLastSync.value), parse(localLastSync.value)))
  }

  /** The order list and the local sync time after loading a snapshot. */
  datatype SyncOutcome = SyncOutcome(orders: seq<Order>, lastSync: string)

  /**
   * Loading a snapshot: a wholesale replace keeps the snapshot's sync time, or
   * the current one when it has none; a merge records the current time.
   * Distinct ids in the snapshot leave distinct ids in the list either way.
   */
  function Reconcile(local: seq<Order>, s: Snapshot, localLastSync: Option<string>, now: int, nowText: string,
                     parse: string -> Option<int>): (r: SyncOutcome)
    ensures UniqueIds(RemoteOrders(s)) ==> UniqueIds(r.orders)
    ensures RemoteReplaces(localLastSync, s.lastSync, parse) ==>
      r.orders == RemoteOrders(s) && r.lastSync == if IsSet(s.lastSync) then s.lastSync.value else nowText
    ensures !RemoteReplaces(localLastSync, s.lastSync, parse) ==>
      r.orders == Merge(local, RemoteOrders(s), now) && r.lastSync == nowText
  {
    if RemoteReplaces(localLastSync, s.lastSync, parse) then
      SyncOutcome(RemoteOrders(s), if IsSet(s.lastSync) then s.lastSync.value else nowText)
    else
      SyncOutcome(Merge(local, RemoteOrders(s), now), nowText)
  }

  /** Whichever branch the load takes, every id of the snapshot is in the resulting list. */
  lemma ReconcileKeepsRemoteIds(local: seq<Order>, s: Snapshot, localLastSync: Option<string>, now: int, nowText: string,
                                parse: string -> Option<int>)
    ensures forall r :: r in RemoteOrders(s) ==>
      exists o :: o in Reconcile(local, s, localLastSync, now, nowText, parse).orders && o.id == r.id
  {
    var out := Reconcile(local, s, localLastSync, now, nowText, parse);
    if RemoteReplaces(localLastSync, s.lastSync, parse) {
      forall r | r in RemoteOrders(s) ensures exists o :: o in out.orders && o.id == r.id {
        assert r in out.orders;
      }
    } else {
      MergeKeepsRemoteIds(local, RemoteOrders(s), now);
    }
  }

  /**
   * Loading the same snapshot twice is loading it once: after a wholesale
   * replace the local sync time is the snapshot's own text, which is not
   * strictly later than itself, so the second load merges the list with
   * itself (ids distinct).
   */
  lemma ReconcileTwice(local: seq<Order>, s: Snapshot, localLastSync: Option<string>, now: int, nowText: string,
                       later: int, laterText: string, parse: string -> Option<int>)
    requires UniqueIds(RemoteOrders(s)) && IsSet(s.lastSync)
    requires RemoteReplaces(localLastSync, s.lastSync, parse)
    ensures var first := Reconcile(local, s, localLastSync, now, nowText, parse);
      Reconcile(first.orders, s, Some(first.lastSync), later, laterText, parse).orders == first.orders
  {
    MergeWithSelf(RemoteOrders(s), later);
  }

  /**
   * A stored local sync time that does not read as a date never lets a
   * snapshot replace the list, whatever its own time: the load merges, where a
   * missing local time would have taken the snapshot wholesale.
   */
  lemma UnreadableSyncTimeMerges(local: seq<Order>, s: Snapshot, stamp: string, now: int, nowText: string,
                                 parse: string -> Option<int>)
    requires stamp != "" && parse(stamp).None?
    ensures Reconcile(local, s, Some(stamp), now, nowText, parse)
      == SyncOutcome(Merge(local, RemoteOrders(s), now), nowText)
    ensures Reconcile(local, s, None, now, nowText, parse).orders == RemoteOrders(s)
  {
  }
}
