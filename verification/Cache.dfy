/** The cache as a mutable object: a recency list of nodes and an index from keys to those nodes. */
module Cache {
  import opened Types
  import opened CacheModel
  import CacheKey

  /** A list node. The index refers to nodes, so a node must stay in place while it is looked up. */
  class Node {
    const key: string
    const response: ChatResponse
    const expiresAt: int
    var lastAccessed: int

    constructor (key: string, response: ChatResponse, expiresAt: int, lastAccessed: int)
      ensures Value() == Entry(key, response, expiresAt, lastAccessed)
      ensures this.key == key
    {
      this.key := key;
      this.response := response;
      this.expiresAt := expiresAt;
      this.lastAccessed := lastAccessed;
    }

    ghost function Value(): Entry
      reads this
    {
      Entry(key, response, expiresAt, lastAccessed)
    }
  }

  ghost function Values(nodes: seq<Node>): (r: seq<Entry>)
    reads nodes
    ensures |r| == |nodes|
    ensures forall i :: 0 <= i < |nodes| ==> r[i] == nodes[i].Value()
  {
    if nodes == [] then [] else [nodes[0].Value()] + Values(nodes[1..])
  }

  /** The index holds exactly the listed keys, each mapped to its own node; no key is listed twice. */
  ghost predicate Indexed(nodes: seq<Node>, index: map<string, Node>) {
    if nodes == [] then index == map[]
    else
      var n := nodes[0];
      n.key in index && index[n.key] == n && Indexed(nodes[1..], index - {n.key})
  }

  /** Where a node stands in the list: what a list iterator denotes. */
  function Position(nodes: seq<Node>, n: Node): (i: nat)
    requires n in nodes
    ensures i < |nodes| && nodes[i] == n
  {
    if nodes[0] == n then 0 else 1 + Position(nodes[1..], n)
  }

  lemma {:induction false} IndexedAt(nodes: seq<Node>, index: map<string, Node>, i: nat)
    requires Indexed(nodes, index) && i < |nodes|
    ensures nodes[i].key in index && index[nodes[i].key] == nodes[i]
    ensures forall j :: 0 <= j < i ==> nodes[j].key != nodes[i].key
  {
    if i > 0 {
      IndexedAt(nodes[1..], index - {nodes[0].key}, i - 1);
      assert forall j :: 1 <= j < i ==> nodes[j] == nodes[1..][j - 1];
    }
  }

  lemma {:induction false} IndexedFinds(nodes: seq<Node>, index: map<string, Node>, key: string)
    requires Indexed(nodes, index) && key in index
    ensures index[key] in nodes && index[key].key == key
  {
    if nodes[0].key != key {
      IndexedFinds(nodes[1..], index - {nodes[0].key}, key);
    }
  }

  lemma {:induction false} IndexedRemove(nodes: seq<Node>, index: map<string, Node>, i: nat)
    requires Indexed(nodes, index) && i < |nodes|
    ensures Indexed(nodes[..i] + nodes[i + 1..], index - {nodes[i].key})
  {
    var h, k := nodes[0].key, nodes[i].key;
    if i == 0 {
      assert nodes[..i] + nodes[i + 1..] == nodes[1..];
    } else {
      IndexedAt(nodes[1..], index - {h}, i - 1);
      IndexedRemove(nodes[1..], index - {h}, i - 1);
      assert nodes[..i] + nodes[i + 1..] == [nodes[0]] + (nodes[1..][..i - 1] + nodes[1..][i..]);
      assert index - {h} - {k} == index - {k} - {h};
    }
  }

  lemma IndexedPush(nodes: seq<Node>, index: map<string, Node>, n: Node)
    requires Indexed(nodes, index) && n.key !in index
    ensures Indexed([n] + nodes, index[n.key := n])
  {
    assert ([n] + nodes)[1..] == nodes;
    assert index[n.key := n] - {n.key} == index;
  }

  /** Once its index entry is gone, a node is no longer in the list. */
  lemma {:induction false} IndexedAbsent(nodes: seq<Node>, index: map<string, Node>, n: Node)
    requires Indexed(nodes, index) && n.key !in index
    ensures n !in nodes
  {
    if nodes != [] {
      IndexedAbsent(nodes[1..], index - {nodes[0].key}, n);
    }
  }

  /** The abstract list has distinct keys, exactly those of the index. */
  lemma {:induction false} IndexedValues(nodes: seq<Node>, index: map<string, Node>)
    requires Indexed(nodes, index)
    ensures Distinct(Values(nodes)) && Keys(Values(nodes)) == index.Keys
  {
    if nodes != [] {
      IndexedValues(nodes[1..], index - {nodes[0].key});
    }
  }

  lemma ValuesRemove(nodes: seq<Node>, i: nat)
    requires i < |nodes|
    ensures Values(nodes[..i] + nodes[i + 1..]) == Values(nodes)[..i] + Values(nodes)[i + 1..]
  {}

  lemma LiveStep(es: seq<Entry>, i: nat, now: int)
    requires i < |es|
    ensures var kept := es[..i + 1] + Live(es[i + 1..], now);
      es[..i] + Live(es[i..], now) == if Expired(es[i], now) then kept[..i] + kept[i + 1..] else kept
  {
    assert es[i..][1..] == es[i + 1..];
  }

  /** The list and the index together stand for the entries `es`. */
  ghost predicate Represents(nodes: seq<Node>, index: map<string, Node>, es: seq<Entry>)
    reads nodes
  {
    Indexed(nodes, index) && es == Values(nodes)
  }

  class Cache {
    const render: real -> string
    const hash: string -> nat

    var entries: seq<Node>
    var index: map<string, Node>
    var maxSize: int
    var ttlSeconds: int
    var hits: nat
    var misses: nat
    var evictions: nat
    var savingsUsd: real

    // The list as values, and the objects the cache may change.
    ghost var Contents: seq<Entry>
    ghost var Repr: set<object>

    ghost predicate Valid()
      reads this, Repr
      ensures Valid() ==> this in Repr
    {
      this in Repr && (forall n :: n in entries ==> n in Repr) && Represents(entries, index, Contents)
    }

    ghost function Abs(): State
      reads this
    {
      State(Contents, maxSize, ttlSeconds, hits, misses, evictions, savingsUsd)
    }

    ghost function Key(req: ChatRequest, cfg: CacheConfig): string {
      CacheKey.Key(req, cfg.matchParams, render, hash)
    }

    constructor (cfg: CacheConfig, render: real -> string, hash: string -> nat)
      ensures Valid() && fresh(Repr)
      ensures this.render == render && this.hash == hash
      ensures Abs() == State([], Capacity(cfg), cfg.ttlSeconds, 0, 0, 0, 0.0)
    {
      this.render, this.hash := render, hash;
      entries, index := [], map[];
      maxSize, ttlSeconds := Capacity(cfg), cfg.ttlSeconds;
      hits, misses, evictions, savingsUsd := 0, 0, 0, 0.0;
      Contents, Repr := [], {this};
    }

    method Get(req: ChatRequest, cfg: CacheConfig, check: int, touch: int) returns (r: Option<ChatResponse>)
      requires Valid()
      modifies Repr
      ensures Valid() && Repr == old(Repr)
      ensures (Abs(), r)
           == CacheModel.Get(old(Abs()), cfg.enabled, Key(req, cfg), req.requestId, check, touch)
    {
      if !cfg.enabled {
        CountMiss();
        return None;
      }
      var key := CacheKey.MakeKey(req, cfg.matchParams, render, hash);
      r := Lookup(key, req.requestId, check, touch);
    }

    method Lookup(key: string, requestId: string, check: int, touch: int) returns (r: Option<ChatResponse>)
      requires Valid()
      modifies Repr
      ensures Valid() && Repr == old(Repr)
      ensures (Abs(), r) == CacheModel.Lookup(old(Abs()), key, requestId, check, touch)
    {
      if key !in index {
        IndexedValues(entries, index);
        WithoutAbsent(Contents, key);
        CountMiss();
        return None;
      }
      var entry := Locate(key);
      if check > entry.expiresAt {
        DropExpired(entry);
        return None;
      }
      RecordHit(entry, touch);
      var resp := entry.response;
      resp := resp.(fromCache := true);
      resp := resp.(requestId := requestId);
      resp := resp.(latencyMs := 0.0);
      r := Some(resp);
    }

    method Put(req: ChatRequest, resp: ChatResponse, cfg: CacheConfig, sweep: int, insert: int)
      requires Valid() && (req.stream || CanStore(cfg))
      modifies Repr
      ensures Valid() && fresh(Repr - old(Repr))
      ensures Abs()
           == CacheModel.Put(old(Abs()), cfg, Key(req, cfg), resp, req.stream, sweep, insert)
    {
      if !cfg.enabled {
        return;
      }
      if req.stream {
        return;
      }
      ReadLimits(cfg);
      var key := CacheKey.MakeKey(req, cfg.matchParams, render, hash);
      Insert(key, resp, sweep, insert);
    }

    method Insert(key: string, resp: ChatResponse, sweep: int, insert: int)
      requires Valid() && maxSize >= 1
      modifies this
      ensures Valid() && fresh(Repr - old(Repr))
      ensures Abs() == CacheModel.Insert(old(Abs()), key, resp, sweep, insert)
    {
      MakeSpace(key, sweep);
      LinkNew(key, resp, insert);
    }

    method LinkNew(key: string, resp: ChatResponse, insert: int)
      requires Valid() && key !in index
      modifies this`entries, this`index, this`Contents, this`Repr
      ensures Valid() && fresh(Repr - old(Repr))
      ensures Abs() == CacheModel.PushFront(old(Abs()), NewEntry(key, resp, ttlSeconds, insert))
    {
      var node := new Node(key, resp, insert + ttlSeconds * NANOS, insert);
      PushFront(node);
    }

    method MakeSpace(key: string, sweep: int)
      requires Valid() && maxSize >= 1
      modifies this`entries, this`index, this`Contents, this`evictions
      ensures Valid() && key !in index
      ensures Abs() == CacheModel.MakeSpace(old(Abs()), key, sweep)
    {
      Forget(key);
      EvictToFit();
      SweepIfHalfFull(sweep);
    }

    method Clear()
      requires Valid()
      modifies this
      ensures Valid() && Repr == old(Repr)
      ensures Abs() == CacheModel.Clear(old(Abs()))
    {
      entries := [];
      index := map[];
      Contents := [];
    }

    // ----- Steps ----------------------------------------------------------

    method CountMiss()
      requires Valid()
      modifies this`misses
      ensures Valid() && Abs() == Miss(old(Abs()))
    {
      misses := misses + 1;
    }

    method DropExpired(n: Node)
      requires Valid() && n in entries
      modifies this`entries, this`index, this`Contents, this`misses
      ensures Valid() && Abs() == Drop(old(Abs()), n.key)
    {
      Unlink(n);
      misses := misses + 1;
    }

    method RecordHit(n: Node, touch: int)
      requires Valid() && n in entries
      modifies this, n`lastAccessed
      ensures Valid() && Repr == old(Repr)
      ensures Abs() == Hit(old(Abs()), old(n.Value()), touch)
    {
      MoveToFront(n, touch);
      hits := hits + 1;
      savingsUsd := savingsUsd + n.response.costUsd;
    }

    method ReadLimits(cfg: CacheConfig)
      requires Valid()
      modifies this`maxSize, this`ttlSeconds
      ensures Valid() && Abs() == old(Abs()).(maxSize := Capacity(cfg), ttlSeconds := cfg.ttlSeconds)
    {
      maxSize := Capacity(cfg);
      ttlSeconds := cfg.ttlSeconds;
    }

    /** Follows the index to a node of the list. */
    method Locate(key: string) returns (n: Node)
      requires Valid() && key in index
      ensures n in entries && n in Repr && n.key == key
      ensures Find(Contents, key) == Some(n.Value())
    {
      IndexedFinds(entries, index, key);
      n := index[key];
      IndexedValues(entries, index);
      WithoutAt(Contents, Position(entries, n));
    }

    /** Erases a listed node from the list and the index. */
    method Unlink(n: Node)
      requires Valid() && n in entries
      modifies this`entries, this`index, this`Contents
      ensures Valid() && n !in entries && n.key !in index
      ensures Abs() == old(Abs()).(entries := Without(old(Contents), n.key))
    {
      var i := Position(entries, n);
      IndexedValues(entries, index);
      WithoutAt(Contents, i);
      EraseAt(i);
      IndexedAbsent(entries, index, n);
    }

    /** Erasing through an iterator: the elements behind it move up by one. */
    method EraseAt(i: nat)
      requires Valid() && i < |entries|
      modifies this`entries, this`index, this`Contents
      ensures Valid() && index == old(index - {entries[i].key})
      ensures Abs() == old(Abs()).(entries := old(Contents[..i] + Contents[i + 1..]))
    {
      IndexedRemove(entries, index, i);
      ValuesRemove(entries, i);
      index := index - {entries[i].key};
      entries := entries[..i] + entries[i + 1..];
      Contents := Contents[..i] + Contents[i + 1..];
    }

    /** Links a node whose key is not listed at the front. */
    method PushFront(n: Node)
      requires Valid() && n.key !in index
      modifies this`entries, this`index, this`Contents, this`Repr
      ensures Valid() && Repr == old(Repr) + {n}
      ensures Abs() == CacheModel.PushFront(old(Abs()), n.Value())
    {
      IndexedPush(entries, index, n);
      entries := [n] + entries;
      index := index[n.key := n];
      Contents := [n.Value()] + Contents;
      Repr := Repr + {n};
      assert entries[1..] == old(entries);
    }

    /** Relinks a listed node at the head and records the access; the node object stays the same. */
    method MoveToFront(n: Node, now: int)
      requires Valid() && n in entries
      modifies this`entries, this`index, this`Contents, this`Repr, n`lastAccessed
      ensures Valid() && Repr == old(Repr)
      ensures Abs() == old(Abs()).(
        entries := [old(n.Value()).(lastAccessed := now)] + Without(old(Contents), n.key))
    {
      Unlink(n);
      n.lastAccessed := now;
      PushFront(n);
    }

    /** The replace-on-put step: erases the entry of this key, if there is one. */
    method Forget(key: string)
      requires Valid()
      modifies this`entries, this`index, this`Contents
      ensures Valid() && key !in index
      ensures Abs() == old(Abs()).(entries := Without(old(Contents), key))
    {
      if key in index {
        var entry := Locate(key);
        Unlink(entry);
      } else {
        IndexedValues(entries, index);
        WithoutAbsent(Contents, key);
      }
    }

    method EvictAt(i: nat)
      requires Valid() && i < |entries|
      modifies this`entries, this`index, this`Contents, this`evictions
      ensures Valid() && index.Keys <= old(index.Keys)
      ensures Abs() == old(Abs()).(
        entries := old(Contents[..i] + Contents[i + 1..]), evictions := old(evictions) + 1)
    {
      EraseAt(i);
      evictions := evictions + 1;
    }

    method EvictLru()
      requires Valid()
      modifies this`entries, this`index, this`Contents, this`evictions
      ensures Valid() && index.Keys <= old(index.Keys)
      ensures Abs() == if old(Contents) == [] then old(Abs())
        else old(Abs()).(entries := old(Contents[..|Contents| - 1]), evictions := old(evictions) + 1)
    {
      if |entries| == 0 {
        return;
      }
      EvictAt(|entries| - 1);
    }

    /** Pops from the back while the list is full; one call may pop many when the limit has shrunk. */
    method EvictToFit()
      requires Valid() && maxSize >= 1
      modifies this`entries, this`index, this`Contents, this`evictions
      ensures Valid() && index.Keys <= old(index.Keys)
      ensures var room := MakeRoom(old(Contents), maxSize);
        Abs() == old(Abs()).(entries := room, evictions := old(evictions) + (|old(Contents)| - |room|))
    {
      while |entries| >= maxSize
        invariant Valid() && index.Keys <= old(index.Keys)
        invariant Contents <= old(Contents) && |MakeRoom(old(Contents), maxSize)| <= |Contents|
        invariant evictions == old(evictions) + (|old(Contents)| - |Contents|)
        decreases |entries|
      {
        EvictLru();
      }
    }

    method SweepIfHalfFull(now: int)
      requires Valid()
      modifies this`entries, this`index, this`Contents, this`evictions
      ensures Valid() && index.Keys <= old(index.Keys)
      ensures var kept := Sweep(old(Contents), maxSize, now);
        Abs() == old(Abs()).(entries := kept, evictions := old(evictions) + (|old(Contents)| - |kept|))
    {
      if |entries| > maxSize / 2 {
        EvictExpired(now);
      }
    }

    /** The backwards sweep that deletes while it walks. */
    method EvictExpired(now: int)
      requires Valid()
      modifies this`entries, this`index, this`Contents, this`evictions
      ensures Valid() && index.Keys <= old(index.Keys)
      ensures var kept := Live(old(Contents), now);
        Abs() == old(Abs()).(entries := kept, evictions := old(evictions) + (|old(Contents)| - |kept|))
    {
      ghost var es := Contents;
      var it := |entries|;
      assert es[..it] + Live(es[it..], now) == es;
      while it != 0
        invariant Valid() && index.Keys <= old(index.Keys)
        invariant 0 <= it <= |Contents| <= |es|
        invariant Contents == es[..it] + Live(es[it..], now)
        invariant evictions == old(evictions) + (|es| - |Contents|)
      {
        it := it - 1;
        LiveStep(es, it, now);
        assert entries[it].Value() == Contents[it] == es[it];
        if now > entries[it].expiresAt {
          EvictAt(it);
        }
      }
    }
  }
}
