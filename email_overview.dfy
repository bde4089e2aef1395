/** `build_email_overview`: the merged overview page of the second web
    application back-end. It pages only towards older messages, sorts by
    reception time, account and UID, answers repeated requests from a response
    cache, and keeps a failing account out of the page instead of failing the
    whole request. The per-account fetch, the account registry and the
    environment that decides whether a language model is available are
    parameters; the response cache is an object whose entries the build
    updates. */
module EmailOverview {
  import opened Wrappers
  import opened Text
  import opened Json
  import opened Paging
  import opened Merge
  import Cursor
  import Provider
  import OverviewRoute

  // ---------------------------------------------------------------------
  // The search text and the cache keys
  // ---------------------------------------------------------------------

  /** `" ".join(ws) == ""` only for no words at all. */
  lemma JoinWordsEmpty(ws: seq<string>)
    requires forall k :: 0 <= k < |ws| ==> IsWord(ws[k])
    ensures Join(" ", ws) == "" <==> ws == []
  {
    SplitJoin(ws);
  }

  /** `_normalize_search(s)`: nothing, the empty string and whitespace give
      `None`; anything else becomes its words joined by single spaces. */
  function NormalizeSearch(s: Option<string>): (r: Option<string>)
    ensures r.None? <==> s.None? || AllSpace(s.value)
    ensures r.Some? ==> r.value == Join(" ", Split(s.value)) && Split(r.value) == Split(s.value)
  {
    if s.None? || s.value == "" then None
    else
      SplitStrip(s.value);
      SplitEmptyIffAllSpace(s.value);
      SplitYieldsWords(s.value);
      SplitJoin(Split(s.value));
      JoinWordsEmpty(Split(s.value));
      var ss := Join(" ", Split(Strip(s.value)));
      if ss == "" then None else Some(ss)
  }

  /** Normalising twice is normalising once. */
  lemma NormalizeSearchIdempotent(s: Option<string>)
    ensures NormalizeSearch(NormalizeSearch(s)) == NormalizeSearch(s)
  {
    var r := NormalizeSearch(s);
    if r.Some? {
      SplitEmptyIffAllSpace(s.value);
      SplitEmptyIffAllSpace(r.value);
    }
  }

  /** `_normalize_ai_cache_key(s)` */
  function AiCacheKey(s: string): string {
    Lower(Join(" ", Split(Strip(s))))
  }

  /** The words of `Strip(t)` rejoined are `t` again, for a `t` that is
      already a space-joined word list. */
  lemma Rejoined(s: string)
    ensures Join(" ", Split(Strip(Join(" ", Split(s))))) == Join(" ", Split(s))
  {
    SplitStrip(Join(" ", Split(s)));
    CollapseIdempotent(s);
  }

  /** Lower-casing commutes with `" ".join(s.strip().split())`. */
  lemma CollapseLower(s: string)
    ensures Join(" ", Split(Strip(Lower(s)))) == Lower(Join(" ", Split(Strip(s))))
  {
    StripLower(s);
    SplitLower(Strip(s));
    JoinLower(Split(Strip(s)));
  }

  /** A key of the derived-query cache is its own key. */
  lemma AiCacheKeyIdempotent(s: string)
    ensures AiCacheKey(AiCacheKey(s)) == AiCacheKey(s)
  {
    var t := Join(" ", Split(Strip(s)));
    CollapseLower(t);
    SplitStrip(s);
    Rejoined(s);
    LowerIdempotent(t);
  }

  /** Searches that differ only in letter case share a derived query. */
  lemma AiCacheKeyIgnoresCase(s: string)
    ensures AiCacheKey(Lower(s)) == AiCacheKey(s)
  {
    CollapseLower(s);
    LowerIdempotent(Join(" ", Split(Strip(s))));
  }

  /** The derived-query key of the normalised search is the key of the raw
      search. */
  lemma AiCacheKeyOfNormalized(s: string)
    requires NormalizeSearch(Some(s)).Some?
    ensures AiCacheKey(NormalizeSearch(Some(s)).value) == AiCacheKey(s)
  {
    SplitStrip(s);
    Rejoined(s);
  }

  /** `_cache_key(...)`: `mb=…|lim=…|cursor=…|acc=…|q=…`, where a falsy cursor
      or query is written as nothing and the account ids are joined by commas. */
  function CacheKey(mailbox: string, limit: int, cursor: Option<string>, ids: seq<string>, search: Option<string>): string {
    "mb=" + mailbox + "|lim=" +
      (IntToString(limit) + ("|cursor=" + GetOr(cursor, "") + "|acc=" + Join(",", ids) + "|q=" + GetOr(search, "")))
  }

  predicate NoBar(s: string) {
    forall i :: 0 <= i < |s| ==> s[i] != '|'
  }

  lemma IntToStringNoBar(i: int)
    ensures NoBar(IntToString(i))
  {
    var n := if i < 0 then -i else i;
    var d := NatToString(n);
    assert forall k :: 0 <= k < |d| ==> IsDigit(d[k]);
  }

  lemma BarEarlier(a: string, b: string, x: string, y: string)
    requires NoBar(b) && |a| < |b| && x != [] && x[0] == '|'
    ensures a + x != b + y
  {
    assert (a + x)[|a|] == '|';
    assert (b + y)[|a|] == b[|a|];
  }

  /** Two strings cut at their first `|` agree on both sides of it. */
  lemma FirstBar(a: string, b: string, x: string, y: string)
    requires NoBar(a) && NoBar(b)
    requires a + x == b + y && x != [] && x[0] == '|' && y != [] && y[0] == '|'
    ensures a == b && x == y
  {
    if |a| < |b| {
      BarEarlier(a, b, x, y);
      assert false;
    } else if |b| < |a| {
      BarEarlier(b, a, y, x);
      assert false;
    }
    assert a == (a + x)[..|a|] && b == (b + y)[..|b|];
    assert x == (a + x)[|a|..] && y == (b + y)[|b|..];
  }

  /** The response cache never answers one limit or one normalised query with
      the page of another: equal keys for the same mailbox, cursor and
      accounts mean equal limits and equal queries. */
  lemma CacheKeyTellsApart(mailbox: string, l1: int, l2: int, cursor: Option<string>, ids: seq<string>,
                           q1: Option<string>, q2: Option<string>)
    requires CacheKey(mailbox, l1, cursor, ids, q1) == CacheKey(mailbox, l2, cursor, ids, q2)
    requires q1 != Some("") && q2 != Some("")
    ensures l1 == l2 && q1 == q2
  {
    var head := "mb=" + mailbox + "|lim=";
    var mid := "|cursor=" + GetOr(cursor, "") + "|acc=" + Join(",", ids) + "|q=";
    var t1 := IntToString(l1) + (mid + GetOr(q1, ""));
    var t2 := IntToString(l2) + (mid + GetOr(q2, ""));
    assert CacheKey(mailbox, l1, cursor, ids, q1) == head + t1;
    assert CacheKey(mailbox, l2, cursor, ids, q2) == head + t2;
    assert t1 == (head + t1)[|head|..] && t2 == (head + t2)[|head|..];
    IntToStringNoBar(l1);
    IntToStringNoBar(l2);
    FirstBar(IntToString(l1), IntToString(l2), mid + GetOr(q1, ""), mid + GetOr(q2, ""));
    ParseIntRoundTrip(l1);
    ParseIntRoundTrip(l2);
    assert GetOr(q1, "") == (mid + GetOr(q1, ""))[|mid|..];
    assert GetOr(q2, "") == (mid + GetOr(q2, ""))[|mid|..];
  }

  // ---------------------------------------------------------------------
  // The request and the cursor state
  // ---------------------------------------------------------------------

  /** The keyword arguments. */
  datatype Request = Request(mailbox: string, limit: int, searchQuery: Option<string>,
                             cursor: Option<string>, accounts: Option<seq<string>>)

  /** What the build raises: the `ValueError` of a small limit, the
      `ValueError` of a cursor that is not base 64 or not JSON, the `KeyError`
      of a missing state member, the `TypeError` or `AttributeError` of a
      state member of the wrong kind, and the `KeyError` of an unknown account. */
  datatype Failure =
    | LimitTooSmall
    | UndecodableCursor
    | MissingKey(key: string)
    | WrongType
    | UnknownAccount(id: string)

  /** The returned dictionary: `{}` when there are no accounts, otherwise
      `data` and the three `meta` members. */
  datatype Body =
    | NoAccounts
    | Listing(data: seq<Item>, nextCursor: Option<string>, resultCount: int, totalCount: int)

  /** The decoded cursor: the mailbox, each account's state entry as it was
      stored, and `search_query` if present. */
  datatype CursorState = CursorState(mailbox: string, states: map<string, Json>, search: Option<Json>)

  /** `cursor_state["mailbox"]` and `cursor_state["accounts"].keys()`; the
      search member is read later. */
  function ReadState(j: Json): (r: Result<CursorState, Failure>)
    ensures r.Ok? <==> j.JObject? && "mailbox" in j.fields && "accounts" in j.fields
                       && j.fields["mailbox"].JStr? && j.fields["accounts"].JObject?
    ensures r.Err? && r.error.MissingKey? ==> j.JObject? && r.error.key in {"mailbox", "accounts"} && r.error.key !in j.fields
    ensures r.Ok? ==> r.value.states == j.fields["accounts"].fields && r.value.search == Get(j.fields, "search_query")
  {
    if !j.JObject? then Err(WrongType)
    else if "mailbox" !in j.fields then Err(MissingKey("mailbox"))
    else if "accounts" !in j.fields then Err(MissingKey("accounts"))
    else if !j.fields["accounts"].JObject? || !j.fields["mailbox"].JStr? then Err(WrongType)
    else Ok(CursorState(j.fields["mailbox"].s, j.fields["accounts"].fields, Get(j.fields, "search_query")))
  }

  /** `decode_cursor(cursor)` and the lookups. */
  function ReadCursor(c: Codec, cursor: string): Result<CursorState, Failure> {
    var j := Cursor.DecodeCursor(c, cursor);
    if j.None? then Err(UndecodableCursor) else ReadState(j.value)
  }

  /** `_normalize_search(cursor_state.get("search_query"))`: a missing or falsy
      value is no search, a string is normalised, anything else has no
      `strip` and raises. */
  function SearchOf(v: Option<Json>): (r: Result<Option<string>, Failure>)
    ensures forall s :: v == Some(JStr(s)) ==> r == Ok(NormalizeSearch(Some(s)))
  {
    match v
    case None => Ok(None)
    case Some(JNull) => Ok(None)
    case Some(JBool(b)) => if b then Err(WrongType) else Ok(None)
    case Some(JInt(i)) => if i != 0 then Err(WrongType) else Ok(None)
    case Some(JObject(f)) => if f != map[] then Err(WrongType) else Ok(None)
    case Some(JStr(s)) => Ok(NormalizeSearch(Some(s)))
  }

  /** The request resolved up to the cache lookup. */
  datatype Plan = Plan(mailbox: string, limit: int, ids: seq<string>, states: map<string, Json>,
                       search: Option<string>, key: string)

  /** `{"next_before_uid": None}` for every requested account. */
  function FreshStates(ids: seq<string>): map<string, Json> {
    map a | a in ids :: JObject(map["next_before_uid" := JNull])
  }

  /** From the account ids on: `{}` for no accounts, then the search and the key. */
  function PlanFrom(req: Request, mailbox: string, ids: seq<string>, states: map<string, Json>,
                    search: Option<Json>): Result<Option<Plan>, Failure>
  {
    if ids == [] then Ok(None)
    else
      var q := SearchOf(search);
      if q.Err? then Err(q.error)
      else Ok(Some(Plan(mailbox, req.limit, ids, states, q.value, CacheKey(mailbox, req.limit, req.cursor, ids, q.value))))
  }

  /** The request parameter as the value the cursor branch would read. */
  function RequestSearch(req: Request): Option<Json> {
    if req.searchQuery.Some? then Some(JStr(req.searchQuery.value)) else None
  }

  /** Lines up to the cache key. A cursor's account ids come out of a JSON
      object written with sorted keys, so they are in sorted order; the limit
      is always the request's. */
  ghost function PlanOf(c: Codec, registry: seq<string>, req: Request): Result<Option<Plan>, Failure> {
    if req.limit < 1 then Err(LimitTooSmall)
    else if OverviewRoute.Truthy(req.cursor) then
      var st := ReadCursor(c, req.cursor.value);
      if st.Err? then Err(st.error)
      else PlanFrom(req, st.value.mailbox, SortedSet(st.value.states.Keys), st.value.states, st.value.search)
    else
      var ids := GetOr(req.accounts, registry);
      PlanFrom(req, req.mailbox, ids, FreshStates(ids), RequestSearch(req))
  }

  method PlanRequest(c: Codec, registry: seq<string>, req: Request) returns (r: Result<Option<Plan>, Failure>)
    ensures r == PlanOf(c, registry, req)
  {
    if req.limit < 1 {
      return Err(LimitTooSmall);
    }
    if OverviewRoute.Truthy(req.cursor) {
      var st := ReadCursor(c, req.cursor.value);
      if st.Err? {
        return Err(st.error);
      }
      var ids := SortStrings(st.value.states.Keys);
      r := PlanFrom(req, st.value.mailbox, ids, st.value.states, st.value.search);
    } else {
      var ids := GetOr(req.accounts, registry);
      r := PlanFrom(req, req.mailbox, ids, FreshStates(ids), RequestSearch(req));
    }
  }

  // ---------------------------------------------------------------------
  // Anchors, search mode and the per-account fetch
  // ---------------------------------------------------------------------

  /** `account_state.get(acc_id, {...}).get("next_before_uid")`: a state entry
      that is not an object has no `get`; the anchor is `null` or a UID. */
  function AnchorOf(states: map<string, Json>, a: string): Result<Option<int>, Failure> {
    if a !in states then Ok(None)
    else if !states[a].JObject? then Err(WrongType)
    else
      var b := IntOrNull(Get(states[a].fields, "next_before_uid"));
      if b.Err? then Err(WrongType) else Ok(b.value)
  }

  /** The anchor of every requested account. */
  function AnchorsOf(p: Plan): (r: Result<map<string, Option<int>>, Failure>)
    ensures r.Ok? ==> r.value.Keys == set a | a in p.ids
  {
    if exists a :: a in p.ids && AnchorOf(p.states, a).Err? then Err(WrongType)
    else Ok(map a | a in p.ids :: AnchorOf(p.states, a).value)
  }

  method ReadAnchors(p: Plan) returns (r: Result<map<string, Option<int>>, Failure>)
    ensures r == AnchorsOf(p)
  {
    var m: map<string, Option<int>> := map[];
    for i := 0 to |p.ids|
      invariant forall a :: a in m <==> a in p.ids[..i]
      invariant forall a :: a in m ==> AnchorOf(p.states, a) == Ok(m[a])
    {
      var a := p.ids[i];
      var b := AnchorOf(p.states, a);
      if b.Err? {
        return Err(WrongType);
      }
      m := m[a := b.value];
    }
    assert p.ids[..|p.ids|] == p.ids;
    assert forall a :: a in p.ids ==> AnchorOf(p.states, a).Ok?;
    assert m == map a | a in p.ids :: AnchorOf(p.states, a).value;
    r := Ok(m);
  }

  /** How a per-account query filters: not at all, by the query a language
      model derived from the search, or by the search in subject, text, `To`
      or `From`. */
  datatype SearchMode = Unfiltered | AiDerived(search: string) | AnyField(search: string)

  /** `IS_AI_MODEL_AVAILABLE`, from the environment at start-up. */
  predicate AiAvailable(env: map<string, string>) {
    Provider.SelectProvider(env).Chosen?
  }

  function ModeOf(aiAvailable: bool, search: Option<string>): SearchMode {
    if search.None? then Unfiltered
    else if aiAvailable then AiDerived(search.value)
    else AnyField(search.value)
  }

  /** The arguments of one account's `fetch_overview(before_uid=…, after_uid=None)`
      on `imap_query(mailbox).limit(limit)` with the search applied. */
  datatype OvFetch = OvFetch(account: string, mailbox: string, limit: int, beforeUid: Option<int>, search: SearchMode)

  /** `int(page_meta.total)` and `overview_list`. */
  datatype FetchedPage = FetchedPage(total: int, overviews: seq<Overview>)

  /** Everything the fetch loop and the page build depend on. */
  datatype Run = Run(fetch: OvFetch -> Result<FetchedPage, string>, plan: Plan,
                     anchors: map<string, Option<int>>, mode: SearchMode)

  function AnchorIn(anchors: map<string, Option<int>>, a: string): Option<int> {
    if a in anchors then anchors[a] else None
  }

  function CallOf(run: Run, a: string): OvFetch {
    OvFetch(a, run.plan.mailbox, run.plan.limit, AnchorIn(run.anchors, a), run.mode)
  }

  /** `_fetch_one_account`: what the fetch raises is caught and counts as an
      empty page with total 0. */
  function Fetched(run: Run, a: string): (r: FetchedPage)
    ensures run.fetch(CallOf(run, a)).Err? ==> r == FetchedPage(0, [])
    ensures run.fetch(CallOf(run, a)).Ok? ==> r == run.fetch(CallOf(run, a)).value
  {
    var res := run.fetch(CallOf(run, a));
    if res.Err? then FetchedPage(0, []) else res.value
  }

  /** `combined_entries`: the accounts' overviews in account order, an account
      listed twice contributing twice. */
  function Collected(run: Run, ids: seq<string>): seq<Entry> {
    if ids == [] then []
    else
      var a := ids[|ids| - 1];
      Collected(run, ids[..|ids| - 1]) + OverviewRoute.Tagged(a, Fetched(run, a).overviews)
  }

  /** `total_count` */
  function Totals(run: Run, ids: seq<string>): int {
    if ids == [] then 0
    else Totals(run, ids[..|ids| - 1]) + Fetched(run, ids[|ids| - 1]).total
  }

  /** The loop over the gathered results. */
  method FetchAccounts(run: Run) returns (combined: seq<Entry>, total: int)
    ensures combined == Collected(run, run.plan.ids) && total == Totals(run, run.plan.ids)
  {
    var ids := run.plan.ids;
    combined := [];
    total := 0;
    for i := 0 to |ids|
      invariant combined == Collected(run, ids[..i]) && total == Totals(run, ids[..i])
    {
      var a := ids[i];
      var res := run.fetch(CallOf(run, a));
      var got := if res.Err? then FetchedPage(0, []) else res.value;
      assert ids[..i + 1][..i] == ids[..i];
      total := total + got.total;
      combined := combined + OverviewRoute.Tagged(a, got.overviews);
    }
    assert ids[..|ids|] == ids;
  }

  /** An entry is merged exactly when its account is requested and its
      overview is on that account's fetched page. */
  lemma {:induction false} CollectedMembers(run: Run, ids: seq<string>, e: Entry)
    ensures e in Collected(run, ids) <==> e.account in ids && e.ov in Fetched(run, e.account).overviews
  {
    if ids != [] {
      var a := ids[|ids| - 1];
      CollectedMembers(run, ids[..|ids| - 1], e);
      assert ids == ids[..|ids| - 1] + [a];
      var t := OverviewRoute.Tagged(a, Fetched(run, a).overviews);
      if e in t {
        var k :| 0 <= k < |t| && t[k] == e;
        assert Fetched(run, a).overviews[k] == e.ov;
      }
      if e.account == a && e.ov in Fetched(run, a).overviews {
        var k :| 0 <= k < |Fetched(run, a).overviews| && Fetched(run, a).overviews[k] == e.ov;
        assert t[k] == e;
      }
    }
  }

  /** When every fetch fails nothing is merged and nothing is counted. */
  lemma {:induction false} NothingCollected(run: Run, ids: seq<string>)
    requires forall a :: a in ids ==> run.fetch(CallOf(run, a)).Err?
    ensures Collected(run, ids) == [] && Totals(run, ids) == 0
  {
    if ids != [] {
      NothingCollected(run, ids[..|ids| - 1]);
    }
  }

  // ---------------------------------------------------------------------
  // The page, the anchors and the cursor
  // ---------------------------------------------------------------------

  /** Sorted newest first by `(received_at, account, uid)` and cut at `limit`. */
  function PageOf(run: Run): seq<Entry> {
    Page(ByReceivedAccountUid, Collected(run, run.plan.ids), run.plan.limit)
  }

  /** The account's next anchor: `max(min(uids), 1)` over what it contributed
      to the page, or the anchor it had. */
  function NextAnchor(prev: Option<int>, seen: seq<Overview>): Option<int> {
    if seen == [] then prev
    else
      var m := MinOf(UidsOfOvs(seen));
      Some(if m < 1 then 1 else m)
  }

  /** `new_state_accounts` */
  function NewAnchorsOf(run: Run, page: seq<Entry>): map<string, Option<int>> {
    map a | a in run.plan.ids :: NextAnchor(AnchorIn(run.anchors, a), OvsOf(page, a))
  }

  /** The anchors loop, which reads the grouped page. */
  method NewAnchors(run: Run, page: seq<Entry>, contributed: map<string, seq<Overview>>)
      returns (m: map<string, Option<int>>)
    requires contributed.Keys == AccountsOf(page)
    requires forall a :: a in contributed ==> contributed[a] == OvsOf(page, a)
    ensures m == NewAnchorsOf(run, page)
  {
    var ids := run.plan.ids;
    m := map[];
    for i := 0 to |ids|
      invariant forall a :: a in m <==> a in ids[..i]
      invariant forall a :: a in m ==> m[a] == NextAnchor(AnchorIn(run.anchors, a), OvsOf(page, a))
    {
      var a := ids[i];
      SeenIsOvsOf(page, contributed, a);
      m := m[a := NextAnchor(AnchorIn(run.anchors, a), Seen(contributed, a))];
    }
    assert ids[..|ids|] == ids;
  }

  function AnchorJson(o: Option<int>): Json {
    JObject(map["next_before_uid" := OptInt(o)])
  }

  /** `{"mailbox", "limit", "accounts", "search_query"}` */
  /** The `accounts` object of a cursor. */
  function AnchorsJson(anchors: map<string, Option<int>>): (m: map<string, Json>)
    ensures m.Keys == anchors.Keys
  {
    map a | a in anchors :: AnchorJson(anchors[a])
  }

  function CursorJson(p: Plan, anchors: map<string, Option<int>>): Json {
    JObject(map[
      "mailbox" := JStr(p.mailbox),
      "limit" := JInt(p.limit),
      "accounts" := JObject(AnchorsJson(anchors)),
      "search_query" := if p.search.Some? then JStr(p.search.value) else JNull])
  }

  predicate AnyAnchor(anchors: map<string, Option<int>>) {
    exists a :: a in anchors && anchors[a].Some?
  }

  /** The response made from a page. */
  function ListingOf(c: Codec, run: Run, page: seq<Entry>): Body {
    var anchors := NewAnchorsOf(run, page);
    Listing(
      seq(|page|, i requires 0 <= i < |page| => Stamp(page[i])),
      if |page| > 0 && AnyAnchor(anchors) then Some(Cursor.EncodeCursor(c, CursorJson(run.plan, anchors))) else None,
      |page|,
      Totals(run, run.plan.ids))
  }

  /** From the fetches to the response. */
  method Compose(c: Codec, run: Run) returns (body: Body)
    ensures body == ListingOf(c, run, PageOf(run))
  {
    var combined, total := FetchAccounts(run);
    var page := Page(ByReceivedAccountUid, combined, run.plan.limit);
    var contributed := Contribute(page);
    var data := Render(page);
    assert forall i :: 0 <= i < |page| ==> data[i] == Stamp(page[i]);
    assert data == seq(|page|, i requires 0 <= i < |page| => Stamp(page[i]));
    var anchors := NewAnchors(run, page, contributed);
    var next: Option<string> := None;
    if |page| > 0 && AnyAnchor(anchors) {
      next := Some(Cursor.EncodeCursor(c, CursorJson(run.plan, anchors)));
    }
    body := Listing(data, next, |page|, total);
  }

  // ---------------------------------------------------------------------
  // The build and its cache
  // ---------------------------------------------------------------------

  /** `_OVERVIEW_RESPONSE_CACHE` keeps a response for 15 seconds. */
  const OverviewTtl := 15

  /** A cached response and the time after which it is no longer served. */
  datatype Stored = Stored(body: Body, expiresAt: int)

  /** The response cached under `key` that is still live at `now`. */
  function Live(cached: map<string, Stored>, key: string, now: int): (r: Option<Body>)
    ensures r.Some? <==> key in cached && now <= cached[key].expiresAt
    ensures r.Some? ==> r.value == cached[key].body
  {
    if key in cached && now <= cached[key].expiresAt then Some(cached[key].body) else None
  }

  /** The whole build at time `now`: its result and the cache contents after
      it. A live answer from the cache ends the build before the account check. */
  ghost function Answer(c: Codec, env: map<string, string>, registry: seq<string>,
                        fetch: OvFetch -> Result<FetchedPage, string>, cached: map<string, Stored>,
                        req: Request, now: int): (Result<Body, Failure>, map<string, Stored>)
  {
    var plan := PlanOf(c, registry, req);
    if plan.Err? then (Err(plan.error), cached)
    else if plan.value.None? then (Ok(NoAccounts), cached)
    else
      var p := plan.value.value;
      if Live(cached, p.key, now).Some? then (Ok(Live(cached, p.key, now).value), cached)
      else if FirstUnknown(p.ids, registry).Some? then (Err(UnknownAccount(FirstUnknown(p.ids, registry).value)), cached)
      else
        var anchors := AnchorsOf(p);
        if anchors.Err? then (Err(anchors.error), cached)
        else
          var run := Run(fetch, p, anchors.value, ModeOf(AiAvailable(env), p.search));
          var body := ListingOf(c, run, PageOf(run));
          (Ok(body), cached[p.key := Stored(body, now + OverviewTtl)])
  }

  /** `_OVERVIEW_RESPONSE_CACHE` and the build that reads and fills it. */
  class OverviewCache {
    var entries: map<string, Stored>

    constructor ()
      ensures entries == map[]
    {
      entries := map[];
    }

    /** `build_email_overview` at time `now`. */
    method BuildEmailOverview(c: Codec, env: map<string, string>, registry: seq<string>,
                              fetch: OvFetch -> Result<FetchedPage, string>, req: Request, now: int)
        returns (r: Result<Body, Failure>)
      modifies this
      ensures (r, entries) == Answer(c, env, registry, fetch, old(entries), req, now)
    {
      var plan := PlanRequest(c, registry, req);
      if plan.Err? {
        return Err(plan.error);
      }
      if plan.value.None? {
        return Ok(NoAccounts);
      }
      var p := plan.value.value;
      var hit := Live(entries, p.key, now);
      if hit.Some? {
        return Ok(hit.value);
      }
      var known := KnownAccounts(p.ids, registry);
      if known.Err? {
        return Err(UnknownAccount(known.error));
      }
      var anchors := ReadAnchors(p);
      if anchors.Err? {
        return Err(anchors.error);
      }
      var run := Run(fetch, p, anchors.value, ModeOf(AiAvailable(env), p.search));
      var body := Compose(c, run);
      entries := entries[p.key := Stored(body, now + OverviewTtl)];
      r := Ok(body);
    }
  }

  // ---------------------------------------------------------------------
  // What the build promises
  // ---------------------------------------------------------------------

  /** A limit below 1 is refused first; a cursor that does not decode is
      refused; no account at all answers `{}` without touching the cache; a
      cache miss with an unknown account is refused with that account. */
  lemma Validations(c: Codec, env: map<string, string>, registry: seq<string>,
                    fetch: OvFetch -> Result<FetchedPage, string>, cached: map<string, Stored>, req: Request, now: int)
    ensures req.limit < 1 ==> Answer(c, env, registry, fetch, cached, req, now) == (Err(LimitTooSmall), cached)
    ensures req.limit >= 1 && OverviewRoute.Truthy(req.cursor) && Cursor.DecodeCursor(c, req.cursor.value).None? ==>
              Answer(c, env, registry, fetch, cached, req, now) == (Err(UndecodableCursor), cached)
    ensures req.limit >= 1 && !OverviewRoute.Truthy(req.cursor) && GetOr(req.accounts, registry) == [] ==>
              Answer(c, env, registry, fetch, cached, req, now) == (Ok(NoAccounts), cached)
    ensures PlanOf(c, registry, req).Ok? && PlanOf(c, registry, req).value.Some? &&
            Live(cached, PlanOf(c, registry, req).value.value.key, now).None? &&
            FirstUnknown(PlanOf(c, registry, req).value.value.ids, registry).Some? ==>
              Answer(c, env, registry, fetch, cached, req, now) ==
              (Err(UnknownAccount(FirstUnknown(PlanOf(c, registry, req).value.value.ids, registry).value)), cached)
  {
  }

  /** Without a cursor the build pages from the newest message of every
      requested account, in the requested mailbox, with the normalised search. */
  lemma FirstPagePlan(c: Codec, registry: seq<string>, req: Request)
    requires !OverviewRoute.Truthy(req.cursor) && PlanOf(c, registry, req).Ok? && PlanOf(c, registry, req).value.Some?
    ensures var p := PlanOf(c, registry, req).value.value;
            p.mailbox == req.mailbox && p.limit == req.limit && p.ids == GetOr(req.accounts, registry) &&
            p.search == NormalizeSearch(req.searchQuery) &&
            AnchorsOf(p) == Ok(map a | a in p.ids :: None)
  {
    var p := PlanOf(c, registry, req).value.value;
    forall a | a in p.ids ensures AnchorOf(p.states, a) == Ok(None) {
      assert IntOrNull(Get(p.states[a].fields, "next_before_uid")) == Ok(None);
    }
    assert (map a | a in p.ids :: AnchorOf(p.states, a).value) == (map a | a in p.ids :: None);
  }

  /** A successful answer is stored under its key for `OverviewTtl`
      seconds (an answer from the cache keeps its own expiry), so the same
      request within that time is answered again from the cache, whatever the
      accounts would now return. */
  lemma RepeatIsCached(c: Codec, env: map<string, string>, registry: seq<string>,
                       fetch: OvFetch -> Result<FetchedPage, string>, fetch': OvFetch -> Result<FetchedPage, string>,
                       cached: map<string, Stored>, req: Request, now: int, now': int)
    requires Answer(c, env, registry, fetch, cached, req, now).0.Ok?
    requires now <= now'
    requires PlanOf(c, registry, req).Ok? && PlanOf(c, registry, req).value.Some? ==>
               var key := PlanOf(c, registry, req).value.value.key;
               now' <= if Live(cached, key, now).Some? then cached[key].expiresAt else now + OverviewTtl
    ensures Answer(c, env, registry, fetch', Answer(c, env, registry, fetch, cached, req, now).1, req, now').0 ==
            Answer(c, env, registry, fetch, cached, req, now).0
  {
    var plan := PlanOf(c, registry, req);
    if plan.Ok? && plan.value.Some? {
      var key := plan.value.value.key;
      var first := Answer(c, env, registry, fetch, cached, req, now);
      if Live(cached, key, now).Some? {
        assert first.1 == cached;
      } else {
        assert Live(first.1, key, now') == Some(first.0.value);
      }
    }
  }

  /** Once `OverviewTtl` seconds have passed after a freshly built answer,
      the same request is built again, as if nothing were cached. */
  lemma ExpiredIsRebuilt(c: Codec, env: map<string, string>, registry: seq<string>,
                         fetch: OvFetch -> Result<FetchedPage, string>, fetch': OvFetch -> Result<FetchedPage, string>,
                         cached: map<string, Stored>, req: Request, now: int, now': int)
    requires PlanOf(c, registry, req).Ok? && PlanOf(c, registry, req).value.Some?
    requires Live(cached, PlanOf(c, registry, req).value.value.key, now).None?
    requires now' > now + OverviewTtl
    ensures Answer(c, env, registry, fetch', Answer(c, env, registry, fetch, cached, req, now).1, req, now').0 ==
            Answer(c, env, registry, fetch', map[], req, now').0
  {
  }

  /** An entry on the page is a merged entry. */
  lemma OnPage(run: Run, e: Entry)
    requires e in PageOf(run)
    ensures e.account in run.plan.ids && e.ov in Fetched(run, e.account).overviews
  {
    PageIsNewest(ByReceivedAccountUid, Collected(run, run.plan.ids), run.plan.limit);
    assert e in multiset(PageOf(run));
    CollectedMembers(run, run.plan.ids, e);
  }

  /** An account whose fetch fails has no entry on the page. */
  lemma FailedFetchContributesNothing(run: Run)
    ensures forall e :: e in PageOf(run) ==> run.fetch(CallOf(run, e.account)).Ok?
  {
    forall e | e in PageOf(run) ensures run.fetch(CallOf(run, e.account)).Ok? {
      OnPage(run, e);
    }
  }

  /** When every fetch fails the answer is an empty page with no cursor and a
      total of 0. */
  lemma AllFetchesFail(c: Codec, run: Run)
    requires forall a :: a in run.plan.ids ==> run.fetch(CallOf(run, a)).Err?
    ensures ListingOf(c, run, PageOf(run)) == Listing([], None, 0, 0)
  {
    NothingCollected(run, run.plan.ids);
  }

  /** The page holds `limit` entries, or all of them when fewer were merged,
      newest first by reception time, then account, then UID (a missing time
      counting as oldest, a UID of 0 as -1), and nothing merged but left off
      the page sorts above an entry on it. */
  lemma PageIsNewestReceived(c: Codec, run: Run)
    requires run.plan.limit >= 1
    ensures var all := Collected(run, run.plan.ids);
            var body := ListingOf(c, run, PageOf(run));
            body.resultCount == |body.data| == (if run.plan.limit <= |all| then run.plan.limit else |all|) &&
            (forall i, j :: 0 <= i < j < |body.data| ==>
               !KeyLess(KeyOf(ByReceivedAccountUid, PageOf(run)[i]), KeyOf(ByReceivedAccountUid, PageOf(run)[j]))) &&
            (forall i :: 0 <= i < |body.data| ==> body.data[i].ov == PageOf(run)[i].ov) &&
            (forall e, d :: e in PageOf(run) && d in multiset(all) - multiset(PageOf(run)) ==>
               !KeyLess(KeyOf(ByReceivedAccountUid, e), KeyOf(ByReceivedAccountUid, d)))
  {
    PageIsNewest(ByReceivedAccountUid, Collected(run, run.plan.ids), run.plan.limit);
  }

  /** A non-empty page always has a next cursor: whichever account contributed
      its first entry has an anchor. An empty page has none. */
  lemma CursorIffResults(c: Codec, run: Run)
    requires ObjectsNonEmpty(c)
    ensures var body := ListingOf(c, run, PageOf(run));
            (body.nextCursor.Some? <==> body.resultCount > 0) &&
            (body.nextCursor.Some? ==> OverviewRoute.Truthy(body.nextCursor))
  {
    var page := PageOf(run);
    var anchors := NewAnchorsOf(run, page);
    if |page| > 0 {
      var e := page[0];
      OnPage(run, e);
      OvsOfMembers(page, e.account, e.ov);
      assert anchors[e.account].Some?;
      Cursor.EncodeCursorNonEmpty(c, CursorJson(run.plan, anchors));
    }
  }

  /** An account's next anchor: what it had when it contributed nothing;
      otherwise the UID of one of its entries on the page, not above any
      other of them, raised to 1 if lower. */
  lemma AnchorAdvance(run: Run, page: seq<Entry>, a: string)
    requires a in run.plan.ids
    ensures var n := NewAnchorsOf(run, page)[a];
            ((forall ov :: Entry(a, ov) !in page) ==> n == AnchorIn(run.anchors, a)) &&
            ((exists ov :: Entry(a, ov) in page) ==>
               n.Some? && n.value >= 1 &&
               (exists ov :: Entry(a, ov) in page && n.value == (if ov.ref.uid < 1 then 1 else ov.ref.uid)) &&
               (forall ov :: Entry(a, ov) in page ==> n.value <= ov.ref.uid || n.value == 1))
  {
    if exists ov :: Entry(a, ov) in page {
      OverviewRoute.MinContributed(page, a);
    } else if OvsOf(page, a) != [] {
      OvsOfMembers(page, a, OvsOf(page, a)[0]);
    }
  }

  lemma ReadAnchorJson(o: Option<int>)
    ensures AnchorOf(map["x" := AnchorJson(o)], "x") == Ok(o)
  {
    var f := AnchorJson(o).fields;
    assert IntOrNull(Get(f, "next_before_uid")) == Ok(o);
  }

  /** Reading back a state this build wrote gives its mailbox, one entry per
      account holding its anchor, and its normalised search. */
  lemma ReadStateJson(p: Plan, anchors: map<string, Option<int>>)
    requires NormalizeSearch(p.search) == p.search
    ensures var st := ReadState(CursorJson(p, anchors));
            st.Ok? && st.value.mailbox == p.mailbox && st.value.states.Keys == anchors.Keys &&
            (forall a :: a in anchors ==> AnchorOf(st.value.states, a) == Ok(anchors[a])) &&
            SearchOf(st.value.search) == Ok(p.search)
  {
    var st := ReadState(CursorJson(p, anchors));
    forall a | a in anchors ensures AnchorOf(st.value.states, a) == Ok(anchors[a]) {
      ReadAnchorJson(anchors[a]);
      assert AnchorOf(st.value.states, a) == AnchorOf(map["x" := AnchorJson(anchors[a])], "x");
    }
  }

  lemma PlanOfCursor(c: Codec, registry: seq<string>, req: Request, st: CursorState)
    requires req.limit >= 1 && OverviewRoute.Truthy(req.cursor) && ReadCursor(c, req.cursor.value) == Ok(st)
    requires st.states != map[] && SearchOf(st.search).Ok?
    ensures var ids := SortedSet(st.states.Keys);
            PlanOf(c, registry, req) ==
            Ok(Some(Plan(st.mailbox, req.limit, ids, st.states, SearchOf(st.search).value,
                         CacheKey(st.mailbox, req.limit, req.cursor, ids, SearchOf(st.search).value))))
  {
    var a :| a in st.states;
    assert a in SortedSet(st.states.Keys);
  }

  lemma AnchorsRead(p: Plan, anchors: map<string, Option<int>>)
    requires anchors.Keys == set a | a in p.ids
    requires forall a :: a in anchors ==> AnchorOf(p.states, a) == Ok(anchors[a])
    ensures AnchorsOf(p) == Ok(anchors)
  {
    assert (map a | a in p.ids :: AnchorOf(p.states, a).value) == anchors;
  }

  /** A cursor this build writes is not empty and reads back as the state it
      was made from. */
  lemma CursorReadsBack(c: Codec, plan: Plan, anchors: map<string, Option<int>>)
    requires RoundTrips(c) && ObjectsNonEmpty(c) && NormalizeSearch(plan.search) == plan.search
    ensures var k := Cursor.EncodeCursor(c, CursorJson(plan, anchors));
            var r := ReadCursor(c, k);
            OverviewRoute.Truthy(Some(k)) &&
            r.Ok? && r.value.mailbox == plan.mailbox && r.value.states == AnchorsJson(anchors) &&
            (forall a :: a in anchors ==> AnchorOf(r.value.states, a) == Ok(anchors[a])) &&
            SearchOf(r.value.search) == Ok(plan.search)
  {
    var j := CursorJson(plan, anchors);
    Cursor.CursorRoundTrip(c, j);
    Cursor.EncodeCursorNonEmpty(c, j);
    ReadStateJson(plan, anchors);
  }

  /** The plan a request reads back from a cursor written for `plan` with
      `anchors`: the same mailbox and search, the anchored accounts in sorted
      order, the request's own limit. */
  ghost function ResumePlan(plan: Plan, anchors: map<string, Option<int>>, req: Request): Plan {
    var ids := SortedSet(anchors.Keys);
    Plan(plan.mailbox, req.limit, ids, AnchorsJson(anchors), plan.search,
         CacheKey(plan.mailbox, req.limit, req.cursor, ids, plan.search))
  }

  /** A request carrying a cursor this build wrote is planned as
      `ResumePlan`. */
  lemma ResumePlanned(c: Codec, registry: seq<string>, plan: Plan, anchors: map<string, Option<int>>, req: Request)
    requires RoundTrips(c) && ObjectsNonEmpty(c) && NormalizeSearch(plan.search) == plan.search
    requires anchors != map[] && req.limit >= 1
    requires req.cursor == Some(Cursor.EncodeCursor(c, CursorJson(plan, anchors)))
    ensures PlanOf(c, registry, req) == Ok(Some(ResumePlan(plan, anchors, req)))
  {
    CursorReadsBack(c, plan, anchors);
    var st := ReadCursor(c, req.cursor.value).value;
    PlanOfCursor(c, registry, req, st);
  }

  /** The anchors of a resumed plan are the ones the cursor was written
      with. */
  lemma ResumeAnchors(plan: Plan, anchors: map<string, Option<int>>, req: Request)
    ensures AnchorsOf(ResumePlan(plan, anchors, req)) == Ok(anchors)
  {
    var p := ResumePlan(plan, anchors, req);
    forall a | a in anchors ensures AnchorOf(p.states, a) == Ok(anchors[a]) {
      ReadAnchorJson(anchors[a]);
      assert AnchorOf(p.states, a) == AnchorOf(map["x" := AnchorJson(anchors[a])], "x");
    }
    AnchorsRead(p, anchors);
  }

  /** Following the next cursor with the same limit resumes on the same
      mailbox, the same accounts (in sorted order) and the same normalised
      search, each account starting from its new anchor. */
  lemma NextCursorResumes(c: Codec, registry: seq<string>, run: Run, req: Request)
    requires RoundTrips(c) && ObjectsNonEmpty(c)
    requires NormalizeSearch(run.plan.search) == run.plan.search
    requires ListingOf(c, run, PageOf(run)).nextCursor.Some?
    requires req.cursor == ListingOf(c, run, PageOf(run)).nextCursor && req.limit >= 1
    ensures var anchors := NewAnchorsOf(run, PageOf(run));
            PlanOf(c, registry, req) == Ok(Some(ResumePlan(run.plan, anchors, req))) &&
            AnchorsOf(ResumePlan(run.plan, anchors, req)) == Ok(anchors)
  {
    var anchors := NewAnchorsOf(run, PageOf(run));
    assert anchors != map[];
    ResumePlanned(c, registry, run.plan, anchors, req);
    ResumeAnchors(run.plan, anchors, req);
  }
}
