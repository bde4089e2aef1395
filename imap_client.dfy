/** The IMAP client object: the per-connection SELECT state
    (`_ensure_selected`), the single-mailbox check of mutating calls
    (`_assert_same_mailbox`), and cached paged search (`search_page_cached`,
    `search`) over the TTL + LRU cache. Server replies are parameters: whether
    SELECT answers OK, the UIDNEXT outcome and the matching UIDs. */
module ImapClient {
  import opened Wrappers
  import opened Paging
  import opened SearchCache
  import opened ImapQuery
  import opened ImapResponses
  import opened ImapWindow

  // ---------------------------------------------------------------------
  // `_ensure_selected`
  // ---------------------------------------------------------------------

  /** The selection already serves the request: the same mailbox is selected
      read-write, or read-only is both selected and requested. */
  predicate SelectionCovers(selected: Option<string>, selectedReadonly: Option<bool>, mailbox: string, readonly: bool) {
    selected == Some(mailbox) && (selectedReadonly == Some(false) || (readonly && selectedReadonly == Some(true)))
  }

  /** The per-connection state of `_ConnState`; nothing is selected at first. */
  class ConnState {
    var selectedMailbox: Option<string>
    var selectedReadonly: Option<bool>

    constructor ()
      ensures selectedMailbox == None && selectedReadonly == None
    {
      selectedMailbox := None;
      selectedReadonly := None;
    }

    /** Issues no SELECT when the selection covers the request; otherwise
        selects `FormatMailboxArg(mailbox)` and, if the server answers OK
        (`selectOk`), records the new selection; a non-OK answer is an error
        that leaves the state as it was. The result is the SELECT argument
        sent, if any. */
    method EnsureSelected(mailbox: string, readonly: bool, selectOk: bool) returns (r: Result<Option<string>, string>)
      modifies this
      ensures SelectionCovers(old(selectedMailbox), old(selectedReadonly), mailbox, readonly) ==>
                r == Ok(None) && selectedMailbox == old(selectedMailbox) && selectedReadonly == old(selectedReadonly)
      ensures !SelectionCovers(old(selectedMailbox), old(selectedReadonly), mailbox, readonly) && selectOk ==>
                r == Ok(Some(FormatMailboxArg(mailbox)))
                && selectedMailbox == Some(mailbox) && selectedReadonly == Some(readonly)
      ensures !SelectionCovers(old(selectedMailbox), old(selectedReadonly), mailbox, readonly) && !selectOk ==>
                r.Err? && selectedMailbox == old(selectedMailbox) && selectedReadonly == old(selectedReadonly)
      ensures r.Ok? ==> SelectionCovers(selectedMailbox, selectedReadonly, mailbox, readonly)
    {
      if selectedMailbox == Some(mailbox) {
        if selectedReadonly == Some(false) {
          return Ok(None);
        }
        if readonly && selectedReadonly == Some(true) {
          return Ok(None);
        }
      }
      var arg := FormatMailboxArg(mailbox);
      if !selectOk {
        return Err("select failed");
      }
      selectedMailbox := Some(mailbox);
      selectedReadonly := Some(readonly);
      r := Ok(Some(arg));
    }
  }

  /** A read-write selection serves both kinds of request, a read-only one
      serves only read-only requests, and a selection serves the request
      that made it. */
  lemma SelectionCoversRules(mailbox: string, readonly: bool)
    ensures SelectionCovers(Some(mailbox), Some(false), mailbox, readonly)
    ensures SelectionCovers(Some(mailbox), Some(true), mailbox, readonly) <==> readonly
    ensures SelectionCovers(Some(mailbox), Some(readonly), mailbox, readonly)
    ensures !SelectionCovers(None, None, mailbox, readonly)
  {
  }

  // ---------------------------------------------------------------------
  // `_assert_same_mailbox`
  // ---------------------------------------------------------------------

  predicate SameMailbox(refs: seq<EmailRef>) {
    forall i, j :: 0 <= i < |refs| && 0 <= j < |refs| ==> refs[i].mailbox == refs[j].mailbox
  }

  /** No refs, or refs in two mailboxes, are an error; otherwise the common mailbox. */
  method AssertSameMailbox(refs: seq<EmailRef>, opName: string) returns (r: Result<string, string>)
    ensures r.Ok? <==> refs != [] && SameMailbox(refs)
    ensures r.Ok? ==> r.value == refs[0].mailbox && forall x :: x in refs ==> x.mailbox == r.value
  {
    if refs == [] {
      return Err(opName + " called with empty refs");
    }
    var mailbox := refs[0].mailbox;
    var i := 0;
    while i < |refs|
      invariant 0 <= i <= |refs|
      invariant forall k :: 0 <= k < i ==> refs[k].mailbox == mailbox
    {
      if refs[i].mailbox != mailbox {
        return Err("All EmailRef.mailbox must match for " + opName);
      }
      i := i + 1;
    }
    r := Ok(mailbox);
  }

  // ---------------------------------------------------------------------
  // Cached paged search
  // ---------------------------------------------------------------------

  /** The client's cache defaults: 256 keys, 60 seconds. */
  const DefaultCacheMaxKeys := 256
  const DefaultCacheTtl := 60

  /** What `get` would answer: the UIDs of a live entry. */
  function Cached(d: seq<Slot>, key: CacheKey, now: int): Option<seq<int>> {
    match Lookup(d, key)
    case None => None
    case Some(e) => if e.expiresAt < now then None else Some(e.uids)
  }

  /** Every UID list stored in the dictionary is ascending. */
  ghost predicate AscendingSlots(d: seq<Slot>) {
    forall s :: s in d ==> Ascending(s.entry.uids)
  }

  /** `get` keeps the stored lists ascending and answers `Cached`. */
  lemma GetKeepsAscending(d: seq<Slot>, key: CacheKey, now: int)
    requires AscendingSlots(d)
    ensures AscendingSlots(Drop(d, {key}))
    ensures Lookup(d, key).Some? ==> AscendingSlots(Touch(d, key, Lookup(d, key).value))
  {
    if Lookup(d, key).Some? {
      assert Slot(key, Lookup(d, key).value) in d;
    }
  }

  /** `set` of an ascending list keeps the stored lists ascending. */
  lemma SetKeepsAscending(d: seq<Slot>, key: CacheKey, e: CacheEntry, maxKeys: int)
    requires AscendingSlots(d) && Ascending(e.uids)
    ensures AscendingSlots(AfterSet(d, key, e, maxKeys))
  {
    forall s | s in AfterSet(d, key, e, maxKeys) ensures Ascending(s.entry.uids) {
      AfterSetSlots(d, key, e, maxKeys, s);
    }
  }

  /** The hypotheses under which a stopped widening loop gives the page an
      unwindowed search would: a live loop, room for a page under the cap, a
      window as written that is not the one older than UID 1, and for newer
      pages an answer that fits under the cap. */
  ghost predicate PageComplete(matching: seq<int>, anchor: Anchor, pageSize: int, knobs: Knobs,
                               uidnext: Result<int, string>, win: UidWindow)
  {
    && knobs.maxRounds > 0 && knobs.maxWindowUids >= 1
    && 1 <= pageSize <= knobs.maxUidsPerKey
    && Stopped(matching, anchor, pageSize, uidnext, win)
    && (anchor.Before? ==> anchor.beforeUid >= 2)
    && (anchor.After? ==> |InWindow(matching, win)| <= knobs.maxUidsPerKey)
  }

  /** `_refresh_search_cache_progressive` as the cache layer sees it: when it
      fails, that its UIDs are matching UIDs in ascending order, and that when
      the loop stopped before its last round (ghost `win` is the last window)
      the page cut from its UIDs is the page of an unwindowed search. */
  method FreshSearch(mailbox: string, parts: seq<string>, pageSize: int, anchor: Anchor, knobs: Knobs,
                     uidnext: Result<int, string>, matching: seq<int>)
    returns (r: Result<SearchOutcome, string>, ghost win: UidWindow)
    requires Ascending(matching)
    ensures r.Err? <==> knobs.maxRounds > 0 && !anchor.Before? && uidnext.Err?
    ensures r.Ok? ==> Ascending(r.value.uids) && forall u :: u in r.value.uids ==> u in matching
    ensures r.Ok? && PageComplete(matching, anchor, pageSize, knobs, uidnext, win) ==>
              (anchor.Before? || uidnext.Ok?)
              && CutPage(mailbox, r.value.uids, pageSize, anchor, 0).refs
                 == CutPage(mailbox, Wanted(matching, anchor, uidnext), pageSize, anchor, 0).refs
  {
    ghost var size, rounds;
    r, win, size, rounds := RefreshProgressive(parts, pageSize, anchor, knobs, uidnext, matching);
    if r.Ok? && PageComplete(matching, anchor, pageSize, knobs, uidnext, win) {
      ProgressivePageComplete(mailbox, matching, anchor, pageSize, size, uidnext, win, knobs.maxUidsPerKey);
    }
  }

  class Client {
    const knobs: Knobs
    const cache: TtlLruCache

    /** Every cached UID list is ascending, as the server returns them. */
    ghost predicate Valid()
      reads this, cache
    {
      && cache.Valid()
      && AscendingSlots(cache.d)
      && (cache.maxKeys < 0 ==> cache.d == [])
    }

    constructor (knobs: Knobs, cacheMaxKeys: int, cacheTtl: int)
      ensures Valid() && fresh(cache) && this.knobs == knobs
      ensures cache.d == [] && cache.maxKeys == cacheMaxKeys && cache.ttl == cacheTtl
    {
      this.knobs := knobs;
      cache := new TtlLruCache(cacheMaxKeys, cacheTtl);
    }

    /** The cache step of `search_page_cached`: without `refresh`, a live
        entry for `key` answers; otherwise the fresh UIDs are stored (which
        raises exactly when the key bound is negative) and answer. */
    method CachedOrStore(key: CacheKey, latest: seq<int>, refresh: bool, now: int) returns (raised: bool, uids: seq<int>)
      requires Valid() && Ascending(latest)
      modifies cache
      ensures Valid()
      ensures raised <==> cache.maxKeys < 0
      ensures !raised ==> Ascending(uids)
      ensures !raised ==> uids == if !refresh && Cached(old(cache.d), key, now).Some?
                                  then Cached(old(cache.d), key, now).value
                                  else latest
      ensures !raised && cache.maxKeys >= 1 && (refresh || Cached(old(cache.d), key, now).None?) ==>
                Lookup(cache.d, key) == Some(CacheEntry(now + cache.ttl, latest))
    {
      if !refresh {
        var cached := Recall(key, now);
        if cached.Some? {
          return false, cached.value;
        }
      }
      ghost var before := cache.d;
      raised := Store(key, latest, now);
      SetLookup(before, key, CacheEntry(now + cache.ttl, latest), cache.maxKeys, key);
      uids := latest;
    }

    /** `get` on the client's cache: it answers `Cached`. */
    method Recall(key: CacheKey, now: int) returns (cached: Option<seq<int>>)
      requires Valid()
      modifies cache
      ensures Valid()
      ensures cached == Cached(old(cache.d), key, now)
      ensures cached.Some? ==> Ascending(cached.value)
      ensures cached.None? ==> Lookup(cache.d, key).None?
    {
      GetKeepsAscending(cache.d, key, now);
      if Lookup(cache.d, key).Some? {
        assert Slot(key, Lookup(cache.d, key).value) in cache.d;
      }
      cached := cache.Get(key, now);
      if cached.None? && Lookup(old(cache.d), key).Some? {
        LookupDrop(old(cache.d), {key}, key);
      }
    }

    /** `set` on the client's cache of an ascending list. */
    method Store(key: CacheKey, latest: seq<int>, now: int) returns (raised: bool)
      requires Valid() && Ascending(latest)
      modifies cache
      ensures Valid()
      ensures raised <==> cache.maxKeys < 0
      ensures cache.d == AfterSet(old(cache.d), key, CacheEntry(now + cache.ttl, latest), cache.maxKeys)
    {
      SetKeepsAscending(cache.d, key, CacheEntry(now + cache.ttl, latest), cache.maxKeys);
      raised := cache.Set(key, latest, now);
    }

    /** `search_page_cached`: reject two anchors, run the progressive search
        (`found`), then with `refresh` store its UIDs under (mailbox, criteria);
        without it use a live cached list for that key if there is one and
        store the fresh UIDs otherwise. The page is cut from the list used. A
        negative key bound makes `set` raise. */
    method SearchPageCached(mailbox: string, parts: seq<string>, pageSize: int,
                            beforeUid: Option<int>, afterUid: Option<int>, refresh: bool, now: int,
                            uidnext: Result<int, string>, matching: seq<int>)
      returns (r: Result<PagedSearchResult, string>, ghost found: SearchOutcome, ghost used: seq<int>, ghost win: UidWindow)
      requires Valid() && Ascending(matching)
      modifies cache
      ensures Valid()
      ensures AnchorOf(beforeUid, afterUid).Err? ==> r.Err? && cache.d == old(cache.d)
      ensures r.Err? <==> || AnchorOf(beforeUid, afterUid).Err?
                          || (knobs.maxRounds > 0 && !AnchorOf(beforeUid, afterUid).value.Before? && uidnext.Err?)
                          || cache.maxKeys < 0
      ensures r.Ok? ==> AnchorOf(beforeUid, afterUid).Ok? && Ascending(used)
                        && r.value == CutPage(mailbox, used, pageSize, AnchorOf(beforeUid, afterUid).value, 0)
      ensures r.Ok? ==> Ascending(found.uids) && forall u :: u in found.uids ==> u in matching
      ensures r.Ok? ==> used == if !refresh && Cached(old(cache.d), CacheKey(mailbox, found.criteria), now).Some?
                                then Cached(old(cache.d), CacheKey(mailbox, found.criteria), now).value
                                else found.uids
      ensures r.Ok? && cache.maxKeys >= 1 && (refresh || Cached(old(cache.d), CacheKey(mailbox, found.criteria), now).None?) ==>
                Lookup(cache.d, CacheKey(mailbox, found.criteria)) == Some(CacheEntry(now + cache.ttl, found.uids))
      ensures r.Ok? && used == found.uids && PageComplete(matching, AnchorOf(beforeUid, afterUid).value, pageSize, knobs, uidnext, win) ==>
                (AnchorOf(beforeUid, afterUid).value.Before? || uidnext.Ok?)
                && r.value.refs == CutPage(mailbox, Wanted(matching, AnchorOf(beforeUid, afterUid).value, uidnext),
                                           pageSize, AnchorOf(beforeUid, afterUid).value, 0).refs
    {
      found, used, win := SearchOutcome("", []), [], UidWindow(1, 0);
      var anchor := AnchorOf(beforeUid, afterUid);
      if anchor.Err? {
        return Err(anchor.error), found, used, win;
      }
      var res;
      res, win := FreshSearch(mailbox, parts, pageSize, anchor.value, knobs, uidnext, matching);
      if res.Err? {
        return Err(res.error), found, used, win;
      }
      var outcome := res.value;
      found := outcome;
      var key := CacheKey(mailbox, outcome.criteria);
      var raised, uids := CachedOrStore(key, outcome.uids, refresh, now);
      if raised {
        return Err("popitem(): dictionary is empty"), found, used, win;
      }
      used := uids;
      r := Ok(CutPage(mailbox, uids, pageSize, anchor.value, 0));
    }

    /** `search`: the refs of a refreshed tail page of at most `limit` refs,
        newest first, each a matching UID of the mailbox; when the widening
        loop stopped before its last round (ghost `win`), they are the newest
        `limit` matching UIDs of the mailbox. */
    method Search(mailbox: string, parts: seq<string>, limit: int, now: int,
                  uidnext: Result<int, string>, matching: seq<int>)
      returns (r: Result<seq<EmailRef>, string>, ghost win: UidWindow)
      requires Valid() && Ascending(matching)
      modifies cache
      ensures Valid()
      ensures r.Err? <==> (knobs.maxRounds > 0 && uidnext.Err?) || cache.maxKeys < 0
      ensures r.Ok? ==> Descending(r.value)
      ensures r.Ok? ==> forall i :: 0 <= i < |r.value| ==> r.value[i].mailbox == mailbox && r.value[i].uid in matching
      ensures r.Ok? && limit >= 1 ==> |r.value| <= limit
      ensures r.Ok? && PageComplete(matching, Tail, limit, knobs, uidnext, win)
              && uidnext.Ok? && (forall u :: u in matching ==> 1 <= u < uidnext.value) ==>
                r.value == NewestFirst(mailbox, PyLast(matching, limit))
    {
      var page;
      ghost var found, used;
      page, found, used, win := SearchPageCached(mailbox, parts, limit, None, None, true, now, uidnext, matching);
      if page.Err? {
        return Err(page.error), win;
      }
      CutPageSlice(mailbox, used, limit, Tail, 0);
      if limit >= 1 && used != [] {
        CutPageContents(mailbox, used, limit, Tail, 0);
      }
      r := Ok(page.value.refs);
      if PageComplete(matching, Tail, limit, knobs, uidnext, win)
         && uidnext.Ok? && (forall u :: u in matching ==> 1 <= u < uidnext.value) {
        TailWantedIsAll(matching, uidnext);
        CutPageRefs(mailbox, matching, limit, Tail, 0);
      }
    }
  }
}
