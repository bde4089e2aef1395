/** The small TTL + LRU cache of UID lists kept by the IMAP client
    (`_TTL_LRU_Cache`). Keys are (mailbox, criteria) pairs; the insertion order
    of the underlying ordered dictionary is the recency order, least recently
    used first. The clock reading `now` is a parameter. */
module SearchCache {
  import opened Wrappers

  datatype CacheKey = CacheKey(mailbox: string, criteria: string)

  datatype CacheEntry = CacheEntry(expiresAt: int, uids: seq<int>)

  /** One key/value pair of the ordered dictionary. */
  datatype Slot = Slot(key: CacheKey, entry: CacheEntry)

  predicate DistinctKeys(d: seq<Slot>) {
    forall i, j :: 0 <= i < j < |d| ==> d[i].key != d[j].key
  }

  /** The value stored under `key`, if any. */
  function Lookup(d: seq<Slot>, key: CacheKey): (r: Option<CacheEntry>)
    ensures r.Some? ==> Slot(key, r.value) in d
    ensures r.None? ==> forall s :: s in d ==> s.key != key
  {
    if d == [] then None
    else if d[0].key == key then Some(d[0].entry)
    else Lookup(d[1..], key)
  }

  /** The dictionary without the keys in `ks`, order otherwise kept. */
  function Drop(d: seq<Slot>, ks: set<CacheKey>): (r: seq<Slot>)
    ensures forall s :: s in r <==> s in d && s.key !in ks
    ensures |r| <= |d|
  {
    if d == [] then []
    else (if d[0].key in ks then [] else [d[0]]) + Drop(d[1..], ks)
  }

  /** `d[key] = e` followed by `move_to_end(key)`. */
  function Touch(d: seq<Slot>, key: CacheKey, e: CacheEntry): seq<Slot> {
    Drop(d, {key}) + [Slot(key, e)]
  }

  /** The dictionary after `set`: the touched dictionary with least recently
      used entries popped until at most `maxKeys` remain. A negative bound
      pops everything, after which popping an empty dictionary raises. */
  function AfterSet(d: seq<Slot>, key: CacheKey, e: CacheEntry, maxKeys: int): seq<Slot> {
    var t := Touch(d, key, e);
    if maxKeys < 0 then []
    else if |t| <= maxKeys then t
    else t[|t| - maxKeys..]
  }

  /** The keys `invalidate(mailbox)` removes. */
  function MailboxKeys(d: seq<Slot>, mailbox: string): set<CacheKey> {
    set s | s in d && s.key.mailbox == mailbox :: s.key
  }

  // ---------------------------------------------------------------------
  // Lemmas about the dictionary operations
  // ---------------------------------------------------------------------

  lemma {:induction false} DropKeepsDistinct(d: seq<Slot>, ks: set<CacheKey>)
    requires DistinctKeys(d)
    ensures DistinctKeys(Drop(d, ks))
  {
    if d != [] {
      DropKeepsDistinct(d[1..], ks);
      var r := Drop(d[1..], ks);
      forall s | s in r ensures s.key != d[0].key {
        var i :| 0 <= i < |d[1..]| && d[1..][i] == s;
        assert d[i + 1] == s;
      }
    }
  }

  lemma {:induction false} LookupDrop(d: seq<Slot>, ks: set<CacheKey>, k: CacheKey)
    ensures Lookup(Drop(d, ks), k) == if k in ks then None else Lookup(d, k)
  {
    if d != [] {
      LookupDrop(d[1..], ks, k);
      if d[0].key in ks {
        assert Drop(d, ks) == Drop(d[1..], ks);
      } else {
        var r := Drop(d, ks);
        assert r == [d[0]] + Drop(d[1..], ks);
        assert r[0] == d[0] && r[1..] == Drop(d[1..], ks);
      }
    }
  }

  lemma {:induction false} DropNone(d: seq<Slot>)
    ensures Drop(d, {}) == d
  {
    if d != [] {
      DropNone(d[1..]);
    }
  }

  lemma {:induction false} DropDrop(d: seq<Slot>, a: set<CacheKey>, b: set<CacheKey>)
    ensures Drop(Drop(d, a), b) == Drop(d, a + b)
  {
    if d != [] {
      DropDrop(d[1..], a, b);
      var head := if d[0].key in a then [] else [d[0]];
      DropAppend(head, Drop(d[1..], a), b);
    }
  }

  lemma {:induction false} DropAppend(x: seq<Slot>, y: seq<Slot>, ks: set<CacheKey>)
    ensures Drop(x + y, ks) == Drop(x, ks) + Drop(y, ks)
  {
    if x != [] {
      assert (x + y)[1..] == x[1..] + y;
      DropAppend(x[1..], y, ks);
    } else {
      assert x + y == y;
    }
  }

  lemma {:induction false} LookupAppend(x: seq<Slot>, y: seq<Slot>, k: CacheKey)
    ensures Lookup(x + y, k) == if Lookup(x, k).Some? then Lookup(x, k) else Lookup(y, k)
  {
    if x != [] {
      assert (x + y)[1..] == x[1..] + y;
      LookupAppend(x[1..], y, k);
    } else {
      assert x + y == y;
    }
  }

  /** Keys of a suffix are keys of the whole, with the same values. */
  lemma {:induction false} LookupSuffix(d: seq<Slot>, n: nat, k: CacheKey)
    requires DistinctKeys(d) && n <= |d|
    ensures Lookup(d[n..], k).Some? ==> Lookup(d, k) == Lookup(d[n..], k)
  {
    if n > 0 {
      LookupSuffix(d[1..], n - 1, k);
      assert d[1..][n - 1..] == d[n..];
    }
  }

  lemma TouchDistinct(d: seq<Slot>, key: CacheKey, e: CacheEntry)
    requires DistinctKeys(d)
    ensures DistinctKeys(Touch(d, key, e))
  {
    DropKeepsDistinct(d, {key});
    var r := Drop(d, {key});
    assert forall s :: s in r ==> s.key != key;
    assert forall i :: 0 <= i < |r| ==> r[i] in r;
  }

  lemma TouchLookup(d: seq<Slot>, key: CacheKey, e: CacheEntry, k: CacheKey)
    ensures Lookup(Touch(d, key, e), k) == if k == key then Some(e) else Lookup(d, k)
  {
    LookupDrop(d, {key}, k);
    LookupAppend(Drop(d, {key}), [Slot(key, e)], k);
  }

  /** After `set` the cache holds at most `maxKeys` entries with distinct keys,
      and the survivors are the most recently used end of the touched order:
      eviction pops least recently used entries first. */
  lemma SetBounds(d: seq<Slot>, key: CacheKey, e: CacheEntry, maxKeys: int)
    requires DistinctKeys(d)
    ensures var r := AfterSet(d, key, e, maxKeys);
      && DistinctKeys(r)
      && (maxKeys >= 0 ==> |r| <= maxKeys && r == Touch(d, key, e)[|Touch(d, key, e)| - |r|..])
  {
    var t := Touch(d, key, e);
    var r := AfterSet(d, key, e, maxKeys);
    TouchDistinct(d, key, e);
    var n := |t| - |r|;
    if maxKeys >= 0 {
      assert r == t[n..];
      forall i, j | 0 <= i < j < |r| ensures r[i].key != r[j].key {
        assert r[i] == t[n + i] && r[j] == t[n + j];
      }
    }
  }

  /** After `set` the key holds its new entry exactly when `maxKeys >= 1`, and
      every other key still present keeps the value it had. */
  lemma SetLookup(d: seq<Slot>, key: CacheKey, e: CacheEntry, maxKeys: int, k: CacheKey)
    requires DistinctKeys(d)
    ensures Lookup(AfterSet(d, key, e, maxKeys), key) == if maxKeys >= 1 then Some(e) else None
    ensures k != key && Lookup(AfterSet(d, key, e, maxKeys), k).Some? ==>
              Lookup(AfterSet(d, key, e, maxKeys), k) == Lookup(d, k)
  {
    var t := Touch(d, key, e);
    var r := AfterSet(d, key, e, maxKeys);
    TouchDistinct(d, key, e);
    TouchLookup(d, key, e, key);
    TouchLookup(d, key, e, k);
    if maxKeys >= 0 {
      var n := |t| - |r|;
      assert r == t[n..];
      LookupSuffix(t, n, key);
      LookupSuffix(t, n, k);
      if maxKeys >= 1 {
        assert r[|r| - 1] == Slot(key, e);
        assert Lookup(r, key).Some?;
      }
    }
  }

  /** Every pair left after `set` was in the dictionary before or is the new one. */
  lemma AfterSetSlots(d: seq<Slot>, key: CacheKey, e: CacheEntry, maxKeys: int, s: Slot)
    requires s in AfterSet(d, key, e, maxKeys)
    ensures s in d || s == Slot(key, e)
  {
    var t := Touch(d, key, e);
    assert s in t;
  }

  /** `invalidate(mailbox)` forgets exactly the keys of that mailbox and
      leaves every other entry as it was. */
  lemma InvalidateProperties(d: seq<Slot>, mailbox: string, k: CacheKey)
    ensures Lookup(Drop(d, MailboxKeys(d, mailbox)), k) ==
              if k.mailbox == mailbox then None else Lookup(d, k)
  {
    LookupDrop(d, MailboxKeys(d, mailbox), k);
  }

  // ---------------------------------------------------------------------
  // The cache object
  // ---------------------------------------------------------------------

  class TtlLruCache {
    const maxKeys: int
    const ttl: int
    /** The ordered dictionary, least recently used first. */
    var d: seq<Slot>

    ghost predicate Valid()
      reads this
    {
      DistinctKeys(d)
    }

    constructor (maxKeys: int, ttlSeconds: int)
      ensures Valid() && d == [] && this.maxKeys == maxKeys && this.ttl == ttlSeconds
    {
      this.maxKeys := maxKeys;
      this.ttl := ttlSeconds;
      d := [];
    }

    /** An absent key gives `None`; an entry with `expiresAt < now` is removed
        and gives `None`; a live entry is moved to the most recently used end
        and its UIDs are returned. */
    method Get(key: CacheKey, now: int) returns (r: Option<seq<int>>)
      requires Valid()
      modifies this
      ensures Valid()
      ensures Lookup(old(d), key).None? ==> r.None? && d == old(d)
      ensures Lookup(old(d), key).Some? && Lookup(old(d), key).value.expiresAt < now ==>
                r.None? && d == Drop(old(d), {key})
      ensures Lookup(old(d), key).Some? && Lookup(old(d), key).value.expiresAt >= now ==>
                r == Some(Lookup(old(d), key).value.uids) && d == Touch(old(d), key, Lookup(old(d), key).value)
    {
      var ent := Lookup(d, key);
      if ent.None? {
        return None;
      }
      if ent.value.expiresAt < now {
        DropKeepsDistinct(d, {key});
        d := Drop(d, {key});
        return None;
      }
      TouchDistinct(d, key, ent.value);
      d := Touch(d, key, ent.value);
      r := Some(ent.value.uids);
    }

    /** Stores the UIDs with expiry `now + ttl` as most recently used, then pops
        least recently used entries while more than `maxKeys` remain. With a
        negative `maxKeys` the loop empties the dictionary and then raises. */
    method Set(key: CacheKey, uids: seq<int>, now: int) returns (raised: bool)
      requires Valid()
      modifies this
      ensures Valid()
      ensures raised <==> maxKeys < 0
      ensures d == AfterSet(old(d), key, CacheEntry(now + ttl, uids), maxKeys)
    {
      var e := CacheEntry(now + ttl, uids);
      ghost var t := Touch(d, key, e);
      SetBounds(d, key, e, maxKeys);
      d := Touch(d, key, e);
      raised := false;
      ghost var k := 0;
      while |d| > maxKeys
        invariant 0 <= k <= |t| && d == t[k..]
        invariant k > 0 ==> |t| - k >= maxKeys
        invariant !raised
        decreases |d|
      {
        if d == [] {
          raised := true;
          break;
        }
        d := d[1..];
        k := k + 1;
      }
    }

    /** `None` clears the cache; a mailbox removes exactly its keys, one at a
        time, from a list of them collected first. */
    method Invalidate(mailbox: Option<string>)
      requires Valid()
      modifies this
      ensures Valid()
      ensures mailbox.None? ==> d == []
      ensures mailbox.Some? ==> d == Drop(old(d), MailboxKeys(old(d), mailbox.value))
    {
      if mailbox.None? {
        d := [];
        return;
      }
      var m := mailbox.value;
      var keys := KeysOf(KeySeq(d), m);
      ghost var d0 := d;
      DropNone(d0);
      var cur := d;
      var i := 0;
      while i < |keys|
        invariant 0 <= i <= |keys|
        invariant DistinctKeys(cur)
        invariant cur == Drop(d0, KeySet(keys[..i]))
      {
        DropKeepsDistinct(cur, {keys[i]});
        InvalidateStep(d0, keys, i);
        cur := Drop(cur, {keys[i]});
        i := i + 1;
      }
      assert keys[..i] == keys;
      CollectedKeys(d0, m);
      d := cur;
    }
  }

  /** The keys of a dictionary, in order. */
  function KeySeq(d: seq<Slot>): (r: seq<CacheKey>)
    ensures |r| == |d| && forall i :: 0 <= i < |d| ==> r[i] == d[i].key
  {
    seq(|d|, i requires 0 <= i < |d| => d[i].key)
  }

  /** The set of keys in a list of them. */
  ghost function KeySet(ks: seq<CacheKey>): (r: set<CacheKey>)
    ensures forall k :: k in r <==> k in ks
  {
    if ks == [] then {}
    else
      assert forall k :: k in ks <==> k in ks[..|ks| - 1] || k == ks[|ks| - 1] by {
        assert ks == ks[..|ks| - 1] + [ks[|ks| - 1]];
      }
      KeySet(ks[..|ks| - 1]) + {ks[|ks| - 1]}
  }

  /** Removing one more collected key extends the removed set by it. */
  lemma InvalidateStep(d: seq<Slot>, keys: seq<CacheKey>, i: nat)
    requires i < |keys|
    ensures Drop(Drop(d, KeySet(keys[..i])), {keys[i]}) == Drop(d, KeySet(keys[..i + 1]))
  {
    DropDrop(d, KeySet(keys[..i]), {keys[i]});
    assert keys[..i + 1][..i] == keys[..i];
  }

  /** The collected keys are the keys of the mailbox. */
  lemma CollectedKeys(d: seq<Slot>, m: string)
    ensures KeySet(KeysOf(KeySeq(d), m)) == MailboxKeys(d, m)
  {
    var gone := KeySet(KeysOf(KeySeq(d), m));
    forall k | k in MailboxKeys(d, m) ensures k in gone {
      var s :| s in d && s.key.mailbox == m && s.key == k;
      var n :| 0 <= n < |d| && d[n] == s;
      assert KeySeq(d)[n] == k;
    }
    forall k | k in gone ensures k in MailboxKeys(d, m) {
      var n :| 0 <= n < |d| && KeySeq(d)[n] == k;
      assert d[n] in d;
    }
  }

  /** The keys of the given mailbox, in order. */
  function KeysOf(keys: seq<CacheKey>, mailbox: string): (r: seq<CacheKey>)
    ensures forall k :: k in r <==> k in keys && k.mailbox == mailbox
  {
    if keys == [] then []
    else (if keys[0].mailbox == mailbox then [keys[0]] else []) + KeysOf(keys[1..], mailbox)
  }
}
