/**
 * A bounded least-recently-used cache whose entries expire (pkg/cache/cache.go).
 *
 * The Go cache keeps a doubly linked recency list (`ll`, front = most recently
 * used) and a map from key to list node (`cache`). Here the list is the
 * sequence `ll` of entries; the node identities live beside it in `ids`, so that
 * the map still points at nodes: `cache[k]` is the identity of the node whose
 * entry has key `k`, and moving a node does not touch the map. `nextId` hands
 * out identities for new nodes.
 *
 * Time is a parameter: `now` is the current instant and expirations are
 * instants on the same scale (nanoseconds). An entry is expired when `now` is
 * strictly after its expiration (`time.Now().After(exp)`).
 */
module Cache {
  import opened Errors

  datatype Entry = Entry(key: string, value: seq<bv8>, expiration: int)

  /** `time.Now().After(e.expiration)`. */
  predicate Expired(e: Entry, now: int)
  {
    now > e.expiration
  }

  predicate KeysDistinct(es: seq<Entry>)
  {
    forall i, j :: 0 <= i < j < |es| ==> es[i].key != es[j].key
  }

  /** The most entries a cache of the given capacity holds (none when it is not positive). */
  function Bound(capacity: int): nat
  {
    if capacity < 0 then 0 else capacity
  }

  /** `list.MoveToFront` on the element at position `i`. */
  function MoveToFront<T>(s: seq<T>, i: nat): (r: seq<T>)
    requires i < |s|
    ensures |r| == |s| && r[0] == s[i]
    ensures forall a :: 0 <= a < |r| ==> r[a] == s[Origin(a, i)]
  {
    [s[i]] + s[..i] + s[i + 1..]
  }

  /** `list.Remove` on the element at position `i`. */
  function RemoveAt<T>(s: seq<T>, i: nat): (r: seq<T>)
    requires i < |s|
    ensures |r| == |s| - 1
    ensures forall a :: 0 <= a < |r| ==> r[a] == s[if a < i then a else a + 1]
  {
    s[..i] + s[i + 1..]
  }

  /** The position of the entry with key `key`, if any (the first one). */
  function KeyIndex(es: seq<Entry>, key: string): (r: Option<nat>)
    ensures r.Some? ==> r.value < |es| && es[r.value].key == key
    ensures r.None? <==> forall i :: 0 <= i < |es| ==> es[i].key != key
  {
    if es == [] then None
    else if es[0].key == key then Some(0)
    else match KeyIndex(es[1..], key)
      case None => None
      case Some(i) => Some(i + 1)
  }

  /** With distinct keys, the entry at `i` is the one found for its key. */
  lemma {:induction false} KeyIndexAt(es: seq<Entry>, i: nat)
    requires KeysDistinct(es) && i < |es|
    ensures KeyIndex(es, es[i].key) == Some(i)
  {
    var r := KeyIndex(es, es[i].key);
    assert r.Some? by {
      assert es[i].key == es[i].key;
    }
  }

  /**
   * What `Get(key)` does to the list and what it returns: nothing for an absent
   * key; an expired entry is removed and reported missing; a live one is moved
   * to the front and its value returned.
   */
  function GetSpec(es: seq<Entry>, key: string, now: int): (seq<Entry>, Option<seq<bv8>>)
  {
    match KeyIndex(es, key)
    case None => (es, None)
    case Some(i) =>
      if Expired(es[i], now) then (RemoveAt(es, i), None)
      else (MoveToFront(es, i), Some(es[i].value))
  }

  /**
   * What `Set(key, value)` does to the list: an existing entry is moved to the
   * front with the new value and a fresh expiration; a new entry is pushed at the
   * front, and the back entry is removed when the list is then over capacity.
   */
  function SetSpec(es: seq<Entry>, key: string, value: seq<bv8>, now: int, ttl: int, capacity: int): seq<Entry>
  {
    var ent := Entry(key, value, now + ttl);
    match KeyIndex(es, key)
    case Some(i) => MoveToFront(es, i)[0 := ent]
    case None =>
      var pushed := [ent] + es;
      if |pushed| > capacity then RemoveAt(pushed, |pushed| - 1) else pushed
  }

  /** What `cleanup` leaves: the entries that have not expired, in their order. */
  function Sweep(es: seq<Entry>, now: int): (r: seq<Entry>)
    ensures |r| <= |es|
  {
    if es == [] then []
    else (if Expired(es[0], now) then [] else [es[0]]) + Sweep(es[1..], now)
  }

  /** `Get` on an absent key changes nothing. */
  lemma GetAbsent(es: seq<Entry>, key: string, now: int)
    requires forall i :: 0 <= i < |es| ==> es[i].key != key
    ensures GetSpec(es, key, now) == (es, None)
  {
  }

  /**
   * `Get` on a live entry returns its value and moves it to the front; the
   * other entries keep their order, and no value or expiration changes.
   */
  lemma GetLive(es: seq<Entry>, i: nat, now: int)
    requires KeysDistinct(es) && i < |es| && !Expired(es[i], now)
    ensures var (r, v) := GetSpec(es, es[i].key, now);
      && v == Some(es[i].value)
      && |r| == |es| && r[0] == es[i]
      && r == [es[i]] + es[..i] + es[i + 1..]
      && (forall e :: e in r <==> e in es)
      && KeysDistinct(r)
  {
    KeyIndexAt(es, i);
    var r := MoveToFront(es, i);
    assert forall e :: e in r <==> e in es by {
      assert es == es[..i] + [es[i]] + es[i + 1..];
    }
    MoveKeepsDistinct(es, i);
  }

  /** `Get` on an expired entry removes exactly that entry and reports it missing. */
  lemma GetExpired(es: seq<Entry>, i: nat, now: int)
    requires KeysDistinct(es) && i < |es| && Expired(es[i], now)
    ensures var (r, v) := GetSpec(es, es[i].key, now);
      && v.None?
      && |r| == |es| - 1
      && (forall e :: e in r <==> e in es && e.key != es[i].key)
      && KeysDistinct(r)
  {
    KeyIndexAt(es, i);
    RemoveKeepsDistinct(es, i);
    var r := RemoveAt(es, i);
    forall e ensures e in r <==> e in es && e.key != es[i].key {
      if e in es && e.key != es[i].key {
        var j :| 0 <= j < |es| && es[j] == e;
        assert j != i;
        if j < i { assert r[j] == e; } else { assert r[j - 1] == e; }
      }
      if e in r {
        var j :| 0 <= j < |r| && r[j] == e;
        if j < i { assert e == es[j]; } else { assert e == es[j + 1]; }
      }
    }
  }

  lemma {:induction false} MoveKeepsDistinct(es: seq<Entry>, i: nat)
    requires KeysDistinct(es) && i < |es|
    ensures KeysDistinct(MoveToFront(es, i))
  {
    var r := MoveToFront(es, i);
    forall a, b | 0 <= a < b < |r| ensures r[a].key != r[b].key {
      var ia := if a == 0 then i else if a <= i then a - 1 else a;
      var ib := if b <= i then b - 1 else b;
      assert r[a] == es[ia] && r[b] == es[ib] && ia != ib;
    }
  }

  lemma {:induction false} RemoveKeepsDistinct(es: seq<Entry>, i: nat)
    requires KeysDistinct(es) && i < |es|
    ensures KeysDistinct(RemoveAt(es, i))
  {
    var r := RemoveAt(es, i);
    forall a, b | 0 <= a < b < |r| ensures r[a].key != r[b].key {
      var ia := if a < i then a else a + 1;
      var ib := if b < i then b else b + 1;
      assert r[a] == es[ia] && r[b] == es[ib] && ia < ib;
    }
  }

  /**
   * `Set` on an existing key: the entry gets the new value and expiration and
   * moves to the front; the size and every other entry stay as they were.
   */
  lemma SetExisting(es: seq<Entry>, i: nat, value: seq<bv8>, now: int, ttl: int, capacity: int)
    requires KeysDistinct(es) && i < |es|
    ensures var r := SetSpec(es, es[i].key, value, now, ttl, capacity);
      && |r| == |es|
      && r[0] == Entry(es[i].key, value, now + ttl)
      && (forall e :: e in r <==> e == r[0] || (e in es && e.key != es[i].key))
      && KeysDistinct(r)
  {
    KeyIndexAt(es, i);
    MoveKeepsDistinct(es, i);
    var m := MoveToFront(es, i);
    var r := m[0 := Entry(es[i].key, value, now + ttl)];
    assert r == [r[0]] + es[..i] + es[i + 1..];
    forall e ensures e in r <==> e == r[0] || (e in es && e.key != es[i].key) {
      if e in es && e.key != es[i].key {
        var j :| 0 <= j < |es| && es[j] == e;
        assert j != i;
        if j < i { assert e in es[..i]; } else { assert e in es[i + 1..]; }
      }
      if e in r && e != r[0] {
        var j :| 0 <= j < |r| && r[j] == e;
        assert j != 0;
        if j <= i { assert e == es[j - 1]; } else { assert e == es[j]; }
      }
    }
  }

  /**
   * `Set` on a new key: the entry is pushed at the front, and when the list is
   * then longer than the capacity exactly the back entry goes, whatever its
   * expiration. With a capacity of at least 1 the new entry stays and the size
   * stays within the capacity.
   */
  lemma SetNew(es: seq<Entry>, key: string, value: seq<bv8>, now: int, ttl: int, capacity: int)
    requires KeysDistinct(es) && |es| <= Bound(capacity)
    requires forall i :: 0 <= i < |es| ==> es[i].key != key
    ensures var r := SetSpec(es, key, value, now, ttl, capacity);
      && KeysDistinct(r) && |r| <= Bound(capacity)
      && (|es| < capacity ==> r == [Entry(key, value, now + ttl)] + es)
      && (capacity >= 1 && |es| == capacity ==>
            r == [Entry(key, value, now + ttl)] + es[..|es| - 1]
            && (forall e :: e in r <==> e == r[0] || (e in es && e != es[|es| - 1])))
      && (capacity < 1 ==> r == [])
  {
    var ent := Entry(key, value, now + ttl);
    var pushed := [ent] + es;
    assert KeysDistinct(pushed) by {
      forall a, b | 0 <= a < b < |pushed| ensures pushed[a].key != pushed[b].key {
        if a > 0 { assert pushed[a] == es[a - 1]; }
        assert pushed[b] == es[b - 1];
      }
    }
    if |pushed| > capacity {
      RemoveKeepsDistinct(pushed, |pushed| - 1);
      if capacity >= 1 && |es| == capacity {
        var r := RemoveAt(pushed, |pushed| - 1);
        assert r == [ent] + es[..|es| - 1];
        forall e ensures e in r <==> e == r[0] || (e in es && e != es[|es| - 1]) {
          if e in es && e != es[|es| - 1] {
            var j :| 0 <= j < |es| && es[j] == e;
            assert j < |es| - 1;
            assert r[j + 1] == e;
          }
          if e in r && e != r[0] {
            var j :| 0 <= j < |r| && r[j] == e;
            assert e == es[j - 1];
            assert j - 1 != |es| - 1 && es[j - 1] != es[|es| - 1];
          }
        }
      }
    }
  }

  /**
   * Right after `Set(key, value)` at `now`, with a capacity of at least 1, `Get(key)`
   * at any instant up to `now + ttl` returns `value`.
   */
  lemma SetThenGet(es: seq<Entry>, key: string, value: seq<bv8>, now: int, later: int, ttl: int, capacity: int)
    requires KeysDistinct(es) && |es| <= Bound(capacity) && capacity >= 1
    requires later <= now + ttl
    ensures GetSpec(SetSpec(es, key, value, now, ttl, capacity), key, later).1 == Some(value)
  {
    var r := SetSpec(es, key, value, now, ttl, capacity);
    match KeyIndex(es, key)
    case Some(i) =>
      SetExisting(es, i, value, now, ttl, capacity);
      KeyIndexAt(r, 0);
    case None =>
      SetNew(es, key, value, now, ttl, capacity);
      KeyIndexAt(r, 0);
  }

  /** `cleanup` keeps exactly the entries that have not expired ... */
  lemma {:induction false} SweepKeepsLive(es: seq<Entry>, now: int)
    ensures forall e :: e in Sweep(es, now) <==> e in es && !Expired(e, now)
  {
    if es != [] {
      SweepKeepsLive(es[1..], now);
      assert es == [es[0]] + es[1..];
    }
  }

  /** ... in their recency order: sweeping a list is sweeping its parts. */
  lemma {:induction false} SweepConcat(a: seq<Entry>, b: seq<Entry>, now: int)
    ensures Sweep(a + b, now) == Sweep(a, now) + Sweep(b, now)
  {
    if a == [] {
      assert a + b == b;
    } else {
      assert (a + b)[1..] == a[1..] + b;
      SweepConcat(a[1..], b, now);
    }
  }

  lemma {:induction false} SweepKeepsDistinct(es: seq<Entry>, now: int)
    requires KeysDistinct(es)
    ensures KeysDistinct(Sweep(es, now))
  {
    if es != [] {
      SweepKeepsDistinct(es[1..], now);
      SweepKeepsLive(es[1..], now);
      var rest := Sweep(es[1..], now);
      if !Expired(es[0], now) {
        var r := [es[0]] + rest;
        forall a, b | 0 <= a < b < |r| ensures r[a].key != r[b].key {
          if a == 0 {
            assert r[b] in es[1..];
            var j :| 0 <= j < |es[1..]| && es[1..][j] == r[b];
            assert es[j + 1] == r[b];
          }
        }
      }
    }
  }

  /** Sweeping twice at the same instant is sweeping once. */
  lemma {:induction false} SweepIdempotent(es: seq<Entry>, now: int)
    ensures Sweep(Sweep(es, now), now) == Sweep(es, now)
  {
    if es != [] {
      SweepIdempotent(es[1..], now);
      var rest := Sweep(es[1..], now);
      if !Expired(es[0], now) {
        assert Sweep(es, now) == [es[0]] + rest;
        assert ([es[0]] + rest)[1..] == rest;
        assert Sweep([es[0]] + rest, now) == [es[0]] + Sweep(rest, now);
      } else {
        assert Sweep(es, now) == rest;
      }
    }
  }

  predicate IdsDistinct(ids: seq<nat>)
  {
    forall i, j :: 0 <= i < j < |ids| ==> ids[i] != ids[j]
  }

  /** Every node's key maps to that node, and every node was handed out before `nextId`. */
  predicate Indexed(ll: seq<Entry>, ids: seq<nat>, cache: map<string, nat>, nextId: nat)
    requires |ids| == |ll|
  {
    forall i :: 0 <= i < |ll| ==> ll[i].key in cache && cache[ll[i].key] == ids[i] && ids[i] < nextId
  }

  /** Every key of the map has a node. */
  predicate Covered(ll: seq<Entry>, cache: map<string, nat>)
  {
    forall k :: k in cache ==> exists i :: 0 <= i < |ll| && ll[i].key == k
  }

  /**
   * The map and the list agree: the same keys, each once, each mapped to the
   * identity of its own node; node identities are distinct and below `nextId`.
   */
  predicate Linked(ll: seq<Entry>, ids: seq<nat>, cache: map<string, nat>, nextId: nat)
  {
    |ids| == |ll| && KeysDistinct(ll) && IdsDistinct(ids) && Indexed(ll, ids, cache, nextId) && Covered(ll, cache)
  }

  lemma LinkedRemove(ll: seq<Entry>, ids: seq<nat>, cache: map<string, nat>, nextId: nat, i: nat)
    requires Linked(ll, ids, cache, nextId) && i < |ll|
    ensures Linked(RemoveAt(ll, i), RemoveAt(ids, i), cache - {ll[i].key}, nextId)
  {
    RemoveKeepsDistinct(ll, i);
    RemoveKeepsIds(ids, i);
    RemoveKeepsIndexed(ll, ids, cache, nextId, i);
    RemoveKeepsCovered(ll, ids, cache, nextId, i);
  }

  lemma RemoveKeepsIds(ids: seq<nat>, i: nat)
    requires IdsDistinct(ids) && i < |ids|
    ensures IdsDistinct(RemoveAt(ids, i))
  {
    var ids' := RemoveAt(ids, i);
    forall a, b | 0 <= a < b < |ids'| ensures ids'[a] != ids'[b] {
      var oa := if a < i then a else a + 1;
      var ob := if b < i then b else b + 1;
      assert ids'[a] == ids[oa] && ids'[b] == ids[ob] && oa < ob;
    }
  }

  lemma RemoveKeepsIndexed(ll: seq<Entry>, ids: seq<nat>, cache: map<string, nat>, nextId: nat, i: nat)
    requires Linked(ll, ids, cache, nextId) && i < |ll|
    ensures Indexed(RemoveAt(ll, i), RemoveAt(ids, i), cache - {ll[i].key}, nextId)
  {
    var ll', ids', cache' := RemoveAt(ll, i), RemoveAt(ids, i), cache - {ll[i].key};
    forall a | 0 <= a < |ll'| ensures ll'[a].key in cache' && cache'[ll'[a].key] == ids'[a] && ids'[a] < nextId {
      var o := if a < i then a else a + 1;
      assert ll'[a] == ll[o] && ids'[a] == ids[o] && o != i;
      assert ll[o].key != ll[i].key;
    }
  }

  lemma RemoveKeepsCovered(ll: seq<Entry>, ids: seq<nat>, cache: map<string, nat>, nextId: nat, i: nat)
    requires Linked(ll, ids, cache, nextId) && i < |ll|
    ensures Covered(RemoveAt(ll, i), cache - {ll[i].key})
  {
    var ll', cache' := RemoveAt(ll, i), cache - {ll[i].key};
    forall k | k in cache' ensures exists a :: 0 <= a < |ll'| && ll'[a].key == k {
      var o :| 0 <= o < |ll| && ll[o].key == k;
      if o < i { assert ll'[o].key == k; } else { assert ll'[o - 1].key == k; }
    }
  }

  lemma LinkedMove(ll: seq<Entry>, ids: seq<nat>, cache: map<string, nat>, nextId: nat, i: nat)
    requires Linked(ll, ids, cache, nextId) && i < |ll|
    ensures Linked(MoveToFront(ll, i), MoveToFront(ids, i), cache, nextId)
  {
    var ll', ids' := MoveToFront(ll, i), MoveToFront(ids, i);
    MoveKeepsDistinct(ll, i);
    assert IdsDistinct(ids') by {
      forall a, b | 0 <= a < b < |ids'| ensures ids'[a] != ids'[b] {
        assert ids'[a] == ids[Origin(a, i)] && ids'[b] == ids[Origin(b, i)];
      }
    }
    assert Indexed(ll', ids', cache, nextId) by {
      forall a | 0 <= a < |ll'| ensures ll'[a].key in cache && cache[ll'[a].key] == ids'[a] && ids'[a] < nextId {
        assert ll'[a] == ll[Origin(a, i)] && ids'[a] == ids[Origin(a, i)];
      }
    }
    assert Covered(ll', cache) by {
      forall k | k in cache ensures exists a :: 0 <= a < |ll'| && ll'[a].key == k {
        var o :| 0 <= o < |ll| && ll[o].key == k;
        var a := if o == i then 0 else if o < i then o + 1 else o;
        assert Origin(a, i) == o;
        assert ll'[a].key == k;
      }
    }
  }

  lemma LinkedRefresh(ll: seq<Entry>, ids: seq<nat>, cache: map<string, nat>, nextId: nat, e: Entry)
    requires Linked(ll, ids, cache, nextId) && |ll| > 0 && e.key == ll[0].key
    ensures Linked(ll[0 := e], ids, cache, nextId)
  {
    var ll' := ll[0 := e];
    assert KeysDistinct(ll') by {
      forall a, b | 0 <= a < b < |ll'| ensures ll'[a].key != ll'[b].key {
        assert ll'[a].key == ll[a].key && ll'[b].key == ll[b].key;
      }
    }
    assert Indexed(ll', ids, cache, nextId) by {
      forall a | 0 <= a < |ll'| ensures ll'[a].key in cache && cache[ll'[a].key] == ids[a] && ids[a] < nextId {
        assert ll'[a].key == ll[a].key;
      }
    }
    assert Covered(ll', cache) by {
      forall k | k in cache ensures exists a :: 0 <= a < |ll'| && ll'[a].key == k {
        var o :| 0 <= o < |ll| && ll[o].key == k;
        assert ll'[o].key == k;
      }
    }
  }

  lemma LinkedPush(ll: seq<Entry>, ids: seq<nat>, cache: map<string, nat>, nextId: nat, e: Entry)
    requires Linked(ll, ids, cache, nextId) && e.key !in cache
    ensures Linked([e] + ll, [nextId] + ids, cache[e.key := nextId], nextId + 1)
  {
    PushKeepsDistinct(ll, ids, cache, nextId, e);
    PushKeepsIds(ll, ids, cache, nextId);
    PushKeepsIndexed(ll, ids, cache, nextId, e);
    PushKeepsCovered(ll, ids, cache, nextId, e);
  }

  lemma PushKeepsDistinct(ll: seq<Entry>, ids: seq<nat>, cache: map<string, nat>, nextId: nat, e: Entry)
    requires Linked(ll, ids, cache, nextId) && e.key !in cache
    ensures KeysDistinct([e] + ll)
  {
    var ll' := [e] + ll;
    forall a, b | 0 <= a < b < |ll'| ensures ll'[a].key != ll'[b].key {
      assert ll'[b] == ll[b - 1];
      if a > 0 { assert ll'[a] == ll[a - 1]; }
    }
  }

  lemma PushKeepsIds(ll: seq<Entry>, ids: seq<nat>, cache: map<string, nat>, nextId: nat)
    requires Linked(ll, ids, cache, nextId)
    ensures IdsDistinct([nextId] + ids)
  {
    var ids' := [nextId] + ids;
    forall a, b | 0 <= a < b < |ids'| ensures ids'[a] != ids'[b] {
      assert ids'[b] == ids[b - 1];
      if a > 0 { assert ids'[a] == ids[a - 1]; }
    }
  }

  lemma PushKeepsIndexed(ll: seq<Entry>, ids: seq<nat>, cache: map<string, nat>, nextId: nat, e: Entry)
    requires Linked(ll, ids, cache, nextId) && e.key !in cache
    ensures Indexed([e] + ll, [nextId] + ids, cache[e.key := nextId], nextId + 1)
  {
    var ll', ids', cache' := [e] + ll, [nextId] + ids, cache[e.key := nextId];
    forall a | 0 <= a < |ll'| ensures ll'[a].key in cache' && cache'[ll'[a].key] == ids'[a] && ids'[a] < nextId + 1 {
      if a > 0 { assert ll'[a] == ll[a - 1] && ids'[a] == ids[a - 1]; }
    }
  }

  lemma PushKeepsCovered(ll: seq<Entry>, ids: seq<nat>, cache: map<string, nat>, nextId: nat, e: Entry)
    requires Linked(ll, ids, cache, nextId) && e.key !in cache
    ensures Covered([e] + ll, cache[e.key := nextId])
  {
    var ll', cache' := [e] + ll, cache[e.key := nextId];
    forall k | k in cache' ensures exists a :: 0 <= a < |ll'| && ll'[a].key == k {
      if k != e.key {
        var o :| 0 <= o < |ll| && ll[o].key == k;
        assert ll'[o + 1].key == k;
      } else {
        assert ll'[0].key == k;
      }
    }
  }

  /** Where the element at position `a` after moving position `i` to the front came from. */
  function Origin(a: nat, i: nat): nat
  {
    if a == 0 then i else if a <= i then a - 1 else a
  }

  /** One step of `cleanup`'s walk from the back, at position `i`. */
  lemma CleanupStep(start: seq<Entry>, ll: seq<Entry>, i: nat, now: int)
    requires i < |start| && ll == start[..i + 1] + Sweep(start[i + 1..], now)
    ensures i < |ll| && ll[i] == start[i]
    ensures Expired(start[i], now) ==> RemoveAt(ll, i) == start[..i] + Sweep(start[i..], now)
    ensures !Expired(start[i], now) ==> ll == start[..i] + Sweep(start[i..], now)
  {
    assert start[i..][1..] == start[i + 1..];
    assert start[..i + 1] == start[..i] + [start[i]];
  }

  /** `LRUCache`. */
  class LRUCache {
    const capacity: int
    const ttl: int
    var ll: seq<Entry>
    var ids: seq<nat>
    var cache: map<string, nat>
    var nextId: nat

    ghost predicate Valid()
      reads this
    {
      Linked(ll, ids, cache, nextId) && |ll| <= Bound(capacity)
    }

    /** `NewLRUCache`: an empty cache. */
    constructor NewLRUCache(capacity: int, ttl: int)
      ensures Valid()
      ensures this.capacity == capacity && this.ttl == ttl && ll == []
    {
      this.capacity := capacity;
      this.ttl := ttl;
      ll := [];
      ids := [];
      cache := map[];
      nextId := 0;
    }

    /**
     * The list position of the node the map holds for `key` (the `*list.Element`
     * in Go). The search over `ids` stands for Go's constant-time dereference of
     * that element.
     */
    method Locate(key: string) returns (i: nat)
      requires Linked(ll, ids, cache, nextId) && key in cache
      ensures i < |ll| && ll[i].key == key
      ensures KeyIndex(ll, key) == Some(i)
    {
      ghost var j :| 0 <= j < |ll| && ll[j].key == key;
      i := 0;
      while ids[i] != cache[key]
        invariant 0 <= i <= j
        invariant forall k :: 0 <= k < i ==> ids[k] != cache[key]
        decreases j - i
      {
        i := i + 1;
      }
      assert i == j;
      KeyIndexAt(ll, i);
    }

    /** `removeElement`: unlinks the node at position `i` and deletes its key from the map. */
    method removeElement(i: nat)
      requires Linked(ll, ids, cache, nextId) && i < |ll|
      modifies this
      ensures Linked(ll, ids, cache, nextId)
      ensures ll == RemoveAt(old(ll), i) && ids == RemoveAt(old(ids), i)
      ensures cache == old(cache) - {old(ll[i].key)} && nextId == old(nextId)
    {
      LinkedRemove(ll, ids, cache, nextId, i);
      var key := ll[i].key;
      ll, ids := RemoveAt(ll, i), RemoveAt(ids, i);
      cache := cache - {key};
    }

    /** `removeOldest`: unlinks the back node, if there is one. */
    method removeOldest()
      requires Linked(ll, ids, cache, nextId)
      modifies this
      ensures Linked(ll, ids, cache, nextId)
      ensures ll == if old(ll) == [] then [] else RemoveAt(old(ll), |old(ll)| - 1)
    {
      if |ll| > 0 {
        removeElement(|ll| - 1);
      }
    }

    /** `MoveToFront` on the node at position `i`; the map does not change. */
    method moveToFront(i: nat)
      requires Linked(ll, ids, cache, nextId) && i < |ll|
      modifies this`ll, this`ids
      ensures Linked(ll, ids, cache, nextId)
      ensures ll == MoveToFront(old(ll), i) && ids == MoveToFront(old(ids), i)
    {
      LinkedMove(ll, ids, cache, nextId, i);
      ll, ids := MoveToFront(ll, i), MoveToFront(ids, i);
    }

    /** `PushFront` of a new node for `ent`, whose key the map then points at. */
    method pushFront(ent: Entry)
      requires Linked(ll, ids, cache, nextId) && ent.key !in cache
      modifies this
      ensures Linked(ll, ids, cache, nextId)
      ensures ll == [ent] + old(ll)
    {
      LinkedPush(ll, ids, cache, nextId, ent);
      ll, ids := [ent] + ll, [nextId] + ids;
      cache := cache[ent.key := nextId];
      nextId := nextId + 1;
    }

    /**
     * `Get(key)` at instant `now`: the value and true for a live entry, nil and
     * false otherwise, with the list changed as `GetSpec` says.
     */
    method Get(key: string, now: int) returns (value: seq<bv8>, ok: bool)
      requires Valid()
      modifies this
      ensures Valid()
      ensures (ll, if ok then Some(value) else None) == GetSpec(old(ll), key, now)
      ensures !ok ==> value == []
    {
      if key in cache {
        var i := Locate(key);
        var ent := ll[i];
        if now > ent.expiration {
          removeElement(i);
          return [], false;
        }
        moveToFront(i);
        return ent.value, true;
      }
      return [], false;
    }

    /** `Set(key, value)` at instant `now`: the list changes as `SetSpec` says. */
    method Set(key: string, value: seq<bv8>, now: int)
      requires Valid()
      modifies this
      ensures Valid()
      ensures ll == SetSpec(old(ll), key, value, now, ttl, capacity)
    {
      var ent := Entry(key, value, now + ttl);
      if key in cache {
        var i := Locate(key);
        refresh(i, ent);
      } else {
        insert(ent);
      }
    }

    /** The branch of `Set` for the key at position `i`: its node moves to the front and takes the new value and expiration. */
    method refresh(i: nat, ent: Entry)
      requires Linked(ll, ids, cache, nextId) && i < |ll| && ll[i].key == ent.key
      modifies this`ll, this`ids
      ensures Linked(ll, ids, cache, nextId) && |ll| == |old(ll)|
      ensures ll == MoveToFront(old(ll), i)[0 := ent]
    {
      moveToFront(i);
      LinkedRefresh(ll, ids, cache, nextId, ent);
      ll := ll[0 := ent];
    }

    /** The branch of `Set` for an absent key: a new front node, then the back node evicted when over capacity. */
    method insert(ent: Entry)
      requires Valid() && ent.key !in cache
      modifies this
      ensures Valid()
      ensures KeyIndex(old(ll), ent.key).None?
      ensures ll == if 1 + |old(ll)| > capacity then RemoveAt([ent] + old(ll), |old(ll)|) else [ent] + old(ll)
    {
      assert KeyIndex(ll, ent.key).None? by {
        assert Indexed(ll, ids, cache, nextId);
      }
      ghost var pushed := [ent] + ll;
      pushFront(ent);
      if |ll| > capacity {
        removeOldest();
        assert ll == RemoveAt(pushed, |pushed| - 1);
      }
    }

    /** `Size`: the number of entries, which never exceeds the capacity. */
    method Size() returns (n: int)
      requires Valid()
      ensures n == |ll| && n <= Bound(capacity)
    {
      n := |ll|;
    }

    /**
     * `cleanup` at instant `now`: walks the whole list from the back and
     * removes every expired entry.
     */
    method cleanup(now: int)
      requires Valid()
      modifies this
      ensures Valid()
      ensures ll == Sweep(old(ll), now)
    {
      ghost var start := ll;
      var i := |ll|;
      while i > 0
        invariant Linked(ll, ids, cache, nextId) && 0 <= i <= |start|
        invariant ll == start[..i] + Sweep(start[i..], now)
        decreases i
      {
        i := i - 1;
        CleanupStep(start, ll, i, now);
        if now > ll[i].expiration {
          removeElement(i);
        }
      }
      assert start[0..] == start;
    }
  }

}
