/** `GET /api/emails/overview`: one page of e-mail overviews merged from
    several accounts, newest first by date, with opaque cursors for the older
    (`next`) and the newer (`prev`) neighbouring page. The per-account page
    fetch and the account registry are parameters; a cursor is the Cursor
    module's encoding of a JSON state object. */
module OverviewRoute {
  import opened Wrappers
  import opened Text
  import opened Json
  import opened Paging
  import opened Merge
  import Cursor
  import Auth

  /** `page_meta` and `overview_list` of one account's page fetch; `hasMore` is
      the `has_more` the route reads off the page metadata. */
  datatype AccountPage = AccountPage(total: int, hasMore: bool, nextBeforeUid: Option<int>,
                                     prevAfterUid: Option<int>, overviews: seq<Overview>)

  /** The arguments of one `manager.fetch_overview(...)` call. */
  datatype FetchCall = FetchCall(account: string, mailbox: string, limit: int,
                                 beforeUid: Option<int>, afterUid: Option<int>, refresh: bool)

  /** An account's entry in a cursor state: `before_uid` and `after_uid`. */
  datatype Anchors = Anchors(beforeUid: Option<int>, afterUid: Option<int>)

  /** The query parameters. */
  datatype Request = Request(mailbox: string, limit: int, cursor: Option<string>, accounts: Option<seq<string>>)

  /** A cursor state: the direction (`"next"` or not), mailbox, limit and the
      anchors of each account. */
  datatype Resume = Resume(next: bool, mailbox: string, limit: int, accounts: map<string, Anchors>)

  /** The response body: `data` and the four `meta` members. */
  datatype Response = Response(data: seq<Item>, nextCursor: Option<string>, prevCursor: Option<string>,
                               resultCount: int, totalCount: int)

  const InvalidCursor := Auth.HttpError(400, "Invalid cursor")
  const MalformedCursor := Auth.HttpError(400, "Malformed cursor")

  // ---------------------------------------------------------------------
  // Cursor states as JSON
  // ---------------------------------------------------------------------

  function AnchorsJson(a: Anchors): Json {
    JObject(map["before_uid" := OptInt(a.beforeUid), "after_uid" := OptInt(a.afterUid)])
  }

  /** `{"direction", "mailbox", "limit", "accounts"}` */
  function StateJson(r: Resume): Json {
    JObject(map[
      "direction" := JStr(if r.next then "next" else "prev"),
      "mailbox" := JStr(r.mailbox),
      "limit" := JInt(r.limit),
      "accounts" := JObject(map a | a in r.accounts :: AnchorsJson(r.accounts[a]))])
  }

  /** `state.get("before_uid")` and `state.get("after_uid")` on one account's
      entry; an entry that is not an object, or an anchor that is neither
      `null` nor an integer, fails with a server error. */
  function ReadAnchors(j: Json): Result<Anchors, Auth.HttpError> {
    if !j.JObject? then Err(Auth.ServerError)
    else
      var b := IntOrNull(Get(j.fields, "before_uid"));
      var a := IntOrNull(Get(j.fields, "after_uid"));
      if b.Err? || a.Err? then Err(Auth.ServerError) else Ok(Anchors(b.value, a.value))
  }

  /** A limit read from a cursor: an integer, or a boolean as `0`/`1`. */
  function ReadLimit(j: Json): Result<int, Auth.HttpError> {
    match j
    case JInt(i) => Ok(i)
    case JBool(b) => Ok(if b then 1 else 0)
    case _ => Err(Auth.ServerError)
  }

  /** The four lookups of the decoded state: a missing member is the
      `KeyError` answered with 400; a state that is not an object cannot be
      indexed by name and fails with a server error. */
  function ReadState(j: Json): (r: Result<Resume, Auth.HttpError>)
    ensures r.Err? ==> r.error == MalformedCursor || r.error == Auth.ServerError
    ensures r.Err? && r.error == MalformedCursor <==>
              j.JObject? && !("direction" in j.fields && "mailbox" in j.fields && "limit" in j.fields && "accounts" in j.fields)
    ensures r.Ok? ==> j.JObject? && "direction" in j.fields && "accounts" in j.fields && j.fields["accounts"].JObject?
    ensures r.Ok? ==> (r.value.next <==> j.fields["direction"] == JStr("next"))
    ensures r.Ok? ==> r.value.accounts.Keys == j.fields["accounts"].fields.Keys
    ensures r.Ok? ==> j.fields["mailbox"] == JStr(r.value.mailbox) && ReadLimit(j.fields["limit"]) == Ok(r.value.limit)
  {
    if !j.JObject? then Err(Auth.ServerError)
    else
      var f := j.fields;
      if !("direction" in f && "mailbox" in f && "limit" in f && "accounts" in f) then Err(MalformedCursor)
      else if !f["mailbox"].JStr? || ReadLimit(f["limit"]).Err? || !f["accounts"].JObject? then Err(Auth.ServerError)
      else
        var acc := f["accounts"].fields;
        if exists a :: a in acc && ReadAnchors(acc[a]).Err? then Err(Auth.ServerError)
        else Ok(Resume(f["direction"] == JStr("next"), f["mailbox"].s, ReadLimit(f["limit"]).value,
                       map a | a in acc :: ReadAnchors(acc[a]).value))
  }

  /** `decode_cursor(cursor)` and the lookups; a cursor that does not decode
      is answered with 400. */
  function ReadCursor(c: Codec, cursor: string): Result<Resume, Auth.HttpError> {
    var j := Cursor.DecodeCursor(c, cursor);
    if j.None? then Err(InvalidCursor) else ReadState(j.value)
  }

  lemma ReadAnchorsJson(x: Anchors)
    ensures ReadAnchors(AnchorsJson(x)) == Ok(x)
  {
    var f := AnchorsJson(x).fields;
    assert IntOrNull(Get(f, "before_uid")) == Ok(x.beforeUid);
    assert IntOrNull(Get(f, "after_uid")) == Ok(x.afterUid);
  }

  lemma ReadAccountsJson(m: map<string, Anchors>)
    ensures var acc := map a | a in m :: AnchorsJson(m[a]);
            (forall a :: a in acc ==> ReadAnchors(acc[a]).Ok?) &&
            (map a | a in acc :: ReadAnchors(acc[a]).value) == m
  {
    var acc := map a | a in m :: AnchorsJson(m[a]);
    forall a | a in acc ensures ReadAnchors(acc[a]) == Ok(m[a]) {
      ReadAnchorsJson(m[a]);
    }
  }

  /** Reading a state back gives the state that was written. */
  lemma ReadStateJson(r: Resume)
    ensures ReadState(StateJson(r)) == Ok(r)
  {
    var f := StateJson(r).fields;
    ReadAccountsJson(r.accounts);
    assert JStr("prev") != JStr("next") by {
      assert "prev"[0] != "next"[0];
    }
    assert (f["direction"] == JStr("next")) == r.next;
  }

  /** A cursor this route emits resumes exactly the state it was made from. */
  lemma ResumeRoundTrip(c: Codec, r: Resume)
    requires RoundTrips(c)
    ensures ReadCursor(c, Cursor.EncodeCursor(c, StateJson(r))) == Ok(r)
  {
    Cursor.CursorRoundTrip(c, StateJson(r));
    ReadStateJson(r);
  }

  // ---------------------------------------------------------------------
  // Resolving the request
  // ---------------------------------------------------------------------

  /** `if cursor:` */
  predicate Truthy(cursor: Option<string>) {
    cursor.Some? && cursor.value != ""
  }

  /** The request resolved: where to resume, the account ids in order, and
      `is_first_page` (`cursor is None`, so an empty cursor is not a first page). */
  datatype Setup = Setup(resume: Resume, ids: seq<string>, refresh: bool)

  /** Without a cursor every requested account starts without anchors. */
  function FreshState(ids: seq<string>): map<string, Anchors> {
    map a | a in ids :: Anchors(None, None)
  }

  /** The validations, in order: the limit, the cursor, an empty account list,
      an unknown account. The account ids of a cursor come out of a JSON
      object written with sorted keys, so they are in sorted order. */
  ghost function SetupOf(c: Codec, registry: seq<string>, req: Request): Result<Setup, Auth.HttpError> {
    if req.limit < 1 then Err(Auth.HttpError(400, "limit must be >= 1"))
    else
      var resumed :=
        if Truthy(req.cursor) then ReadCursor(c, req.cursor.value)
        else Ok(Resume(true, req.mailbox, req.limit, FreshState(GetOr(req.accounts, registry))));
      if resumed.Err? then Err(resumed.error)
      else
        var ids := if Truthy(req.cursor) then SortedSet(resumed.value.accounts.Keys) else GetOr(req.accounts, registry);
        if ids == [] then Err(Auth.HttpError(400, "No accounts specified or available"))
        else if FirstUnknown(ids, registry).Some? then
          Err(Auth.HttpError(404, "Unknown account: " + FirstUnknown(ids, registry).value))
        else Ok(Setup(resumed.value, ids, req.cursor.None?))
  }

  /** The first half of the route, up to the manager lookup. */
  method Resolve(c: Codec, registry: seq<string>, req: Request)
      returns (r: Result<Setup, Auth.HttpError>, managers: seq<string>)
    ensures r == SetupOf(c, registry, req)
    ensures r.Ok? ==> managers == Dedup(r.value.ids)
  {
    managers := [];
    if req.limit < 1 {
      return Err(Auth.HttpError(400, "limit must be >= 1")), managers;
    }
    var resume: Resume;
    var ids: seq<string>;
    if Truthy(req.cursor) {
      var read := ReadCursor(c, req.cursor.value);
      if read.Err? {
        return Err(read.error), managers;
      }
      resume := read.value;
      ids := SortStrings(resume.accounts.Keys);
    } else {
      ids := GetOr(req.accounts, registry);
      resume := Resume(true, req.mailbox, req.limit, FreshState(ids));
    }
    if ids == [] {
      return Err(Auth.HttpError(400, "No accounts specified or available")), managers;
    }
    var known := KnownAccounts(ids, registry);
    if known.Err? {
      return Err(Auth.HttpError(404, "Unknown account: " + known.error)), managers;
    }
    managers := known.value;
    r := Ok(Setup(resume, ids, req.cursor.None?));
  }

  // ---------------------------------------------------------------------
  // Fetching and merging
  // ---------------------------------------------------------------------

  /** `account_state.get(acc_id, {"before_uid": None, "after_uid": None})` */
  function AnchorsOf(m: map<string, Anchors>, a: string): Anchors {
    if a in m then m[a] else Anchors(None, None)
  }

  /** The fetch of one account: older than `before_uid` in the `next`
      direction, newer than `after_uid` otherwise. */
  function CallFor(s: Setup, a: string): FetchCall {
    var st := AnchorsOf(s.resume.accounts, a);
    FetchCall(a, s.resume.mailbox, s.resume.limit,
              if s.resume.next then st.beforeUid else None,
              if s.resume.next then None else st.afterUid,
              s.refresh)
  }

  /** `page_meta.total or len(overview_list)` */
  function Contribution(p: AccountPage): int {
    if p.total != 0 then p.total else |p.overviews|
  }

  function Tagged(a: string, ovs: seq<Overview>): (r: seq<Entry>)
    ensures |r| == |ovs| && forall i :: 0 <= i < |ovs| ==> r[i] == Entry(a, ovs[i])
  {
    seq(|ovs|, i requires 0 <= i < |ovs| => Entry(a, ovs[i]))
  }

  /** `combined_entries` before sorting: the accounts' overviews, account by account. */
  function Gathered(ids: seq<string>, pages: map<string, AccountPage>): seq<Entry>
    requires forall a :: a in ids ==> a in pages
  {
    if ids == [] then []
    else
      var a := ids[|ids| - 1];
      Gathered(ids[..|ids| - 1], pages) + Tagged(a, pages[a].overviews)
  }

  /** `total_count` */
  function TotalOf(ids: seq<string>, pages: map<string, AccountPage>): int
    requires forall a :: a in ids ==> a in pages
  {
    if ids == [] then 0
    else TotalOf(ids[..|ids| - 1], pages) + Contribution(pages[ids[|ids| - 1]])
  }

  lemma {:induction false} GatheredFrame(ids: seq<string>, p: map<string, AccountPage>, q: map<string, AccountPage>)
    requires forall a :: a in ids ==> a in p && a in q && p[a] == q[a]
    ensures Gathered(ids, p) == Gathered(ids, q) && TotalOf(ids, p) == TotalOf(ids, q)
  {
    if ids != [] {
      GatheredFrame(ids[..|ids| - 1], p, q);
    }
  }

  /** When no account reports a total, `total_count` is the number of fetched
      overviews. */
  lemma {:induction false} TotalFallback(ids: seq<string>, pages: map<string, AccountPage>)
    requires forall a :: a in ids ==> a in pages && pages[a].total == 0
    ensures TotalOf(ids, pages) == |Gathered(ids, pages)|
  {
    if ids != [] {
      TotalFallback(ids[..|ids| - 1], pages);
    }
  }

  /** The pages of the accounts whose fetch succeeded. */
  function PagesOf(fetch: FetchCall -> Result<AccountPage, string>, s: Setup, managers: seq<string>): map<string, AccountPage> {
    map a | a in managers && fetch(CallFor(s, a)).Ok? :: fetch(CallFor(s, a)).value
  }

  /** The fetch loop over the managers; what a fetch raises propagates, and the
      framework answers it with a server error. */
  method FetchAll(fetch: FetchCall -> Result<AccountPage, string>, s: Setup, managers: seq<string>)
      returns (r: Result<map<string, AccountPage>, Auth.HttpError>, combined: seq<Entry>, total: int)
    ensures r.Err? <==> exists a :: a in managers && fetch(CallFor(s, a)).Err?
    ensures r.Err? ==> r.error == Auth.ServerError
    ensures r.Ok? ==> r.value == PagesOf(fetch, s, managers)
    ensures r.Ok? ==> combined == Gathered(managers, r.value) && total == TotalOf(managers, r.value)
  {
    var pages: map<string, AccountPage> := map[];
    combined := [];
    total := 0;
    for i := 0 to |managers|
      invariant forall a :: a in pages <==> a in managers[..i]
      invariant forall a :: a in pages ==> fetch(CallFor(s, a)) == Ok(pages[a])
      invariant combined == Gathered(managers[..i], pages) && total == TotalOf(managers[..i], pages)
    {
      var a := managers[i];
      var res := fetch(CallFor(s, a));
      if res.Err? {
        return Err(Auth.ServerError), combined, total;
      }
      var before := pages;
      pages := pages[a := res.value];
      GatheredFrame(managers[..i], before, pages);
      assert managers[..i + 1][..i] == managers[..i];
      combined := combined + Tagged(a, res.value.overviews);
      total := total + Contribution(res.value);
    }
    assert managers[..|managers|] == managers;
    r := Ok(pages);
  }

  // ---------------------------------------------------------------------
  // The anchors of the neighbouring pages
  // ---------------------------------------------------------------------

  /** One account's entries of `next_state_accounts` and `prev_state_accounts`,
      from its old anchors, its page metadata and what it contributed to the
      page. The `next` state keeps `after_uid`, the `prev` state `before_uid`. */
  function Advance(next: bool, st: Anchors, meta: AccountPage, seen: seq<Overview>): (r: (Anchors, Anchors))
    ensures r.0.afterUid == st.afterUid && r.1.beforeUid == st.beforeUid
  {
    var uids := UidsOfOvs(seen);
    if next then
      (Anchors(if seen != [] then Some(MinOf(uids)) else st.beforeUid, st.afterUid),
       Anchors(st.beforeUid, if meta.prevAfterUid.Some? then meta.prevAfterUid else st.afterUid))
    else
      (Anchors(if meta.nextBeforeUid.Some? && meta.hasMore then meta.nextBeforeUid else st.beforeUid, st.afterUid),
       Anchors(st.beforeUid, if seen != [] then Some(MaxOf(uids)) else st.afterUid))
  }

  /** Both entries of one account. */
  function StepOf(s: Setup, pages: map<string, AccountPage>, page: seq<Entry>, a: string): (Anchors, Anchors)
    requires a in pages
  {
    Advance(s.resume.next, AnchorsOf(s.resume.accounts, a), pages[a], OvsOf(page, a))
  }

  function NextStateOf(s: Setup, pages: map<string, AccountPage>, page: seq<Entry>): map<string, Anchors>
    requires forall a :: a in s.ids ==> a in pages
  {
    map a | a in s.ids :: StepOf(s, pages, page, a).0
  }

  function PrevStateOf(s: Setup, pages: map<string, AccountPage>, page: seq<Entry>): map<string, Anchors>
    requires forall a :: a in s.ids ==> a in pages
  {
    map a | a in s.ids :: StepOf(s, pages, page, a).1
  }

  /** The two states hold the entries of exactly the accounts in `done`. */
  ghost predicate StatesFor(s: Setup, pages: map<string, AccountPage>, page: seq<Entry>, done: seq<string>,
                      nextState: map<string, Anchors>, prevState: map<string, Anchors>)
  {
    && (forall a :: a in nextState <==> a in done)
    && (forall a :: a in prevState <==> a in done)
    && (forall a :: a in done ==> a in pages && (nextState[a], prevState[a]) == StepOf(s, pages, page, a))
  }

  lemma StatesStep(s: Setup, pages: map<string, AccountPage>, page: seq<Entry>, done: seq<string>, a: string,
                   nextState: map<string, Anchors>, prevState: map<string, Anchors>)
    requires a in pages && StatesFor(s, pages, page, done, nextState, prevState)
    ensures StatesFor(s, pages, page, done + [a], nextState[a := StepOf(s, pages, page, a).0],
                      prevState[a := StepOf(s, pages, page, a).1])
  {
  }

  /** What the loop reads from the grouped page is the account's share of it. */
  lemma SeenStep(s: Setup, pages: map<string, AccountPage>, page: seq<Entry>, contributed: map<string, seq<Overview>>, a: string)
    requires contributed.Keys == AccountsOf(page)
    requires forall x :: x in contributed ==> contributed[x] == OvsOf(page, x)
    requires a in pages
    ensures Advance(s.resume.next, AnchorsOf(s.resume.accounts, a), pages[a], Seen(contributed, a)) == StepOf(s, pages, page, a)
  {
    SeenIsOvsOf(page, contributed, a);
  }

  lemma StatesDone(s: Setup, pages: map<string, AccountPage>, page: seq<Entry>,
                   nextState: map<string, Anchors>, prevState: map<string, Anchors>)
    requires forall a :: a in s.ids ==> a in pages
    requires StatesFor(s, pages, page, s.ids, nextState, prevState)
    ensures nextState == NextStateOf(s, pages, page) && prevState == PrevStateOf(s, pages, page)
  {
  }

  /** The loop over `account_ids` that fills both states. */
  method NewStates(s: Setup, pages: map<string, AccountPage>, page: seq<Entry>, contributed: map<string, seq<Overview>>)
      returns (nextState: map<string, Anchors>, prevState: map<string, Anchors>)
    requires forall a :: a in s.ids ==> a in pages
    requires contributed.Keys == AccountsOf(page)
    requires forall a :: a in contributed ==> contributed[a] == OvsOf(page, a)
    ensures nextState == NextStateOf(s, pages, page)
    ensures prevState == PrevStateOf(s, pages, page)
  {
    nextState := map[];
    prevState := map[];
    for i := 0 to |s.ids|
      invariant StatesFor(s, pages, page, s.ids[..i], nextState, prevState)
    {
      var a := s.ids[i];
      var st := Advance(s.resume.next, AnchorsOf(s.resume.accounts, a), pages[a], Seen(contributed, a));
      SeenStep(s, pages, page, contributed, a);
      StatesStep(s, pages, page, s.ids[..i], a, nextState, prevState);
      nextState := nextState[a := st.0];
      prevState := prevState[a := st.1];
      assert s.ids[..i + 1] == s.ids[..i] + [a];
    }
    assert s.ids[..|s.ids|] == s.ids;
    StatesDone(s, pages, page, nextState, prevState);
  }

  // ---------------------------------------------------------------------
  // The route
  // ---------------------------------------------------------------------

  function CursorFor(c: Codec, next: bool, s: Setup, state: map<string, Anchors>): string {
    Cursor.EncodeCursor(c, StateJson(Resume(next, s.resume.mailbox, s.resume.limit, state)))
  }

  /** `any(meta.has_more ...)` */
  predicate AnyOlder(managers: seq<string>, pages: map<string, AccountPage>)
    requires forall a :: a in managers ==> a in pages
  {
    exists a :: a in managers && pages[a].hasMore
  }

  /** `any(meta.prev_after_uid is not None ...)` */
  predicate AnyNewer(managers: seq<string>, pages: map<string, AccountPage>)
    requires forall a :: a in managers ==> a in pages
  {
    exists a :: a in managers && pages[a].prevAfterUid.Some?
  }

  /** The merged page, once every fetch succeeded. */
  function PageEntries(fetch: FetchCall -> Result<AccountPage, string>, s: Setup): seq<Entry>
    requires forall a :: a in Dedup(s.ids) ==> fetch(CallFor(s, a)).Ok?
  {
    var managers := Dedup(s.ids);
    Page(ByDate, Gathered(managers, PagesOf(fetch, s, managers)), s.resume.limit)
  }

  /** The response built from the fetched pages and the merged page. */
  function Respond(c: Codec, s: Setup, managers: seq<string>, pages: map<string, AccountPage>, page: seq<Entry>): Response
    requires forall a :: a in s.ids ==> a in pages
    requires forall a :: a in managers ==> a in pages
  {
    Response(
      seq(|page|, i requires 0 <= i < |page| => Stamp(page[i])),
      if |page| > 0 && AnyOlder(managers, pages) then Some(CursorFor(c, true, s, NextStateOf(s, pages, page))) else None,
      if |page| > 0 && AnyNewer(managers, pages) then Some(CursorFor(c, false, s, PrevStateOf(s, pages, page))) else None,
      |page|,
      TotalOf(managers, pages))
  }

  /** The second half of the route, from the fetch loop on. */
  function ServeOf(c: Codec, fetch: FetchCall -> Result<AccountPage, string>, s: Setup): Result<Response, Auth.HttpError> {
    var managers := Dedup(s.ids);
    if exists a :: a in managers && fetch(CallFor(s, a)).Err? then Err(Auth.ServerError)
    else Ok(Respond(c, s, managers, PagesOf(fetch, s, managers), PageEntries(fetch, s)))
  }

  /** Sorting, cutting, rendering, the anchors loop and the cursors. */
  method Build(c: Codec, s: Setup, managers: seq<string>, pages: map<string, AccountPage>,
               combined: seq<Entry>, total: int) returns (resp: Response)
    requires forall a :: a in s.ids ==> a in pages
    requires forall a :: a in managers ==> a in pages
    requires combined == Gathered(managers, pages) && total == TotalOf(managers, pages)
    ensures resp == Respond(c, s, managers, pages, Page(ByDate, combined, s.resume.limit))
  {
    var page := Page(ByDate, combined, s.resume.limit);
    var contributed := Contribute(page);
    var data := Render(page);
    assert forall i :: 0 <= i < |page| ==> data[i] == Stamp(page[i]);
    assert data == seq(|page|, i requires 0 <= i < |page| => Stamp(page[i]));
    var nextState, prevState := NewStates(s, pages, page, contributed);
    var nextCursor: Option<string> := None;
    var prevCursor: Option<string> := None;
    if |page| > 0 && AnyOlder(managers, pages) {
      nextCursor := Some(CursorFor(c, true, s, nextState));
    }
    if |page| > 0 && AnyNewer(managers, pages) {
      prevCursor := Some(CursorFor(c, false, s, prevState));
    }
    resp := Response(data, nextCursor, prevCursor, |page|, total);
  }

  method Serve(c: Codec, fetch: FetchCall -> Result<AccountPage, string>, s: Setup, managers: seq<string>)
      returns (r: Result<Response, Auth.HttpError>)
    requires managers == Dedup(s.ids)
    ensures r == ServeOf(c, fetch, s)
  {
    var fetched, combined, total := FetchAll(fetch, s, managers);
    if fetched.Err? {
      return Err(fetched.error);
    }
    var resp := Build(c, s, managers, fetched.value, combined, total);
    r := Ok(resp);
  }

  /** The whole route. */
  ghost function OverviewOf(c: Codec, registry: seq<string>, fetch: FetchCall -> Result<AccountPage, string>,
                            req: Request): Result<Response, Auth.HttpError> {
    var s := SetupOf(c, registry, req);
    if s.Err? then Err(s.error) else ServeOf(c, fetch, s.value)
  }

  /** `get_email_overview` */
  method GetEmailOverview(c: Codec, registry: seq<string>, fetch: FetchCall -> Result<AccountPage, string>,
                          req: Request) returns (r: Result<Response, Auth.HttpError>)
    ensures r == OverviewOf(c, registry, fetch, req)
  {
    var s, managers := Resolve(c, registry, req);
    if s.Err? {
      return Err(s.error);
    }
    r := Serve(c, fetch, s.value, managers);
  }

  // ---------------------------------------------------------------------
  // What the route promises
  // ---------------------------------------------------------------------

  /** The validations answer with their status and detail, in order. */
  lemma Validations(c: Codec, registry: seq<string>, fetch: FetchCall -> Result<AccountPage, string>, req: Request)
    ensures req.limit < 1 ==> OverviewOf(c, registry, fetch, req) == Err(Auth.HttpError(400, "limit must be >= 1"))
    ensures req.limit >= 1 && Truthy(req.cursor) && Cursor.DecodeCursor(c, req.cursor.value).None? ==>
              OverviewOf(c, registry, fetch, req) == Err(InvalidCursor)
    ensures req.limit >= 1 && !Truthy(req.cursor) && GetOr(req.accounts, registry) == [] ==>
              OverviewOf(c, registry, fetch, req) == Err(Auth.HttpError(400, "No accounts specified or available"))
    ensures req.limit >= 1 && !Truthy(req.cursor) && GetOr(req.accounts, registry) != [] &&
            FirstUnknown(GetOr(req.accounts, registry), registry).Some? ==>
              OverviewOf(c, registry, fetch, req) ==
              Err(Auth.HttpError(404, "Unknown account: " + FirstUnknown(GetOr(req.accounts, registry), registry).value))
  {
  }

  /** Without a cursor the route pages forward from the newest message of every
      requested account, asks for a refresh, and fetches each distinct account once. */
  lemma FirstPageFetches(c: Codec, registry: seq<string>, req: Request, a: string)
    requires req.cursor.None? && SetupOf(c, registry, req).Ok?
    ensures var s := SetupOf(c, registry, req).value;
            s.resume.next && s.ids == GetOr(req.accounts, registry) &&
            (a in s.ids ==> CallFor(s, a) == FetchCall(a, req.mailbox, req.limit, None, None, true)) &&
            (a in Dedup(s.ids) <==> a in GetOr(req.accounts, registry))
  {
  }

  /** The page holds at most `limit` entries (all of them when fewer were
      fetched), newest first by date, an undated entry counting as oldest, and
      no fetched entry left off the page is newer than one on it. */
  lemma PageIsNewestByDate(c: Codec, fetch: FetchCall -> Result<AccountPage, string>, s: Setup)
    requires ServeOf(c, fetch, s).Ok? && s.resume.limit >= 1
    ensures var all := Gathered(Dedup(s.ids), PagesOf(fetch, s, Dedup(s.ids)));
            var resp := ServeOf(c, fetch, s).value;
            resp.resultCount == |resp.data| == (if s.resume.limit <= |all| then s.resume.limit else |all|) &&
            (forall i, j :: 0 <= i < j < |resp.data| ==> !DateLess(resp.data[i].ov.date, resp.data[j].ov.date)) &&
            (forall e, d :: e in PageEntries(fetch, s) && d in multiset(all) - multiset(PageEntries(fetch, s)) ==>
               !DateLess(e.ov.date, d.ov.date))
  {
    var managers := Dedup(s.ids);
    var pages := PagesOf(fetch, s, managers);
    var all := Gathered(managers, pages);
    var page := PageEntries(fetch, s);
    var resp := ServeOf(c, fetch, s).value;
    assert resp == Respond(c, s, managers, pages, page);
    PageIsNewest(ByDate, all, s.resume.limit);
    forall i, j | 0 <= i < j < |resp.data| ensures !DateLess(resp.data[i].ov.date, resp.data[j].ov.date) {
      assert resp.data[i].ov == page[i].ov && resp.data[j].ov == page[j].ov;
      assert !KeyLess(KeyOf(ByDate, page[i]), KeyOf(ByDate, page[j]));
    }
    forall e, d | e in page && d in multiset(all) - multiset(page) ensures !DateLess(e.ov.date, d.ov.date) {
      assert !KeyLess(KeyOf(ByDate, e), KeyOf(ByDate, d));
    }
  }

  /** A next cursor exists exactly when the page is not empty and some account
      has older entries; a prev cursor exactly when the page is not empty and
      some account reported an anchor for newer entries. Either cursor is
      non-empty, so the next request reads it as a cursor. */
  lemma CursorEmission(c: Codec, fetch: FetchCall -> Result<AccountPage, string>, s: Setup)
    requires ServeOf(c, fetch, s).Ok? && ObjectsNonEmpty(c)
    ensures var resp := ServeOf(c, fetch, s).value;
            var managers := Dedup(s.ids);
            (resp.nextCursor.Some? <==>
               (resp.resultCount > 0 && exists a :: a in managers && fetch(CallFor(s, a)).value.hasMore)) &&
            (resp.prevCursor.Some? <==>
               (resp.resultCount > 0 && exists a :: a in managers && fetch(CallFor(s, a)).value.prevAfterUid.Some?)) &&
            (resp.nextCursor.Some? ==> Truthy(resp.nextCursor)) &&
            (resp.prevCursor.Some? ==> Truthy(resp.prevCursor))
  {
    var managers := Dedup(s.ids);
    var pages := PagesOf(fetch, s, managers);
    var page := PageEntries(fetch, s);
    assert ServeOf(c, fetch, s).value == Respond(c, s, managers, pages, page);
    Cursor.EncodeCursorNonEmpty(c, StateJson(Resume(true, s.resume.mailbox, s.resume.limit, NextStateOf(s, pages, page))));
    Cursor.EncodeCursorNonEmpty(c, StateJson(Resume(false, s.resume.mailbox, s.resume.limit, PrevStateOf(s, pages, page))));
  }

  /** The oldest UID an account contributed to the page is the UID of one of
      its entries there and not above any other. */
  lemma MinContributed(page: seq<Entry>, a: string)
    requires exists ov :: Entry(a, ov) in page
    ensures OvsOf(page, a) != []
    ensures var u := MinOf(UidsOfOvs(OvsOf(page, a)));
            (exists ov :: Entry(a, ov) in page && ov.ref.uid == u) &&
            (forall ov :: Entry(a, ov) in page ==> u <= ov.ref.uid)
  {
    var seen := OvsOf(page, a);
    var w :| Entry(a, w) in page;
    OvsOfMembers(page, a, w);
    var u := MinOf(UidsOfOvs(seen));
    var k :| 0 <= k < |seen| && UidsOfOvs(seen)[k] == u;
    OvsOfMembers(page, a, seen[k]);
    forall ov | Entry(a, ov) in page ensures u <= ov.ref.uid {
      OvsOfMembers(page, a, ov);
      var j :| 0 <= j < |seen| && seen[j] == ov;
      assert UidsOfOvs(seen)[j] == ov.ref.uid;
      assert UidsOfOvs(seen)[j] in UidsOfOvs(seen);
    }
  }

  /** The newest UID an account contributed to the page is the UID of one of
      its entries there and not below any other. */
  lemma MaxContributed(page: seq<Entry>, a: string)
    requires exists ov :: Entry(a, ov) in page
    ensures OvsOf(page, a) != []
    ensures var u := MaxOf(UidsOfOvs(OvsOf(page, a)));
            (exists ov :: Entry(a, ov) in page && ov.ref.uid == u) &&
            (forall ov :: Entry(a, ov) in page ==> ov.ref.uid <= u)
  {
    var seen := OvsOf(page, a);
    var w :| Entry(a, w) in page;
    OvsOfMembers(page, a, w);
    var u := MaxOf(UidsOfOvs(seen));
    var k :| 0 <= k < |seen| && UidsOfOvs(seen)[k] == u;
    OvsOfMembers(page, a, seen[k]);
    forall ov | Entry(a, ov) in page ensures ov.ref.uid <= u {
      OvsOfMembers(page, a, ov);
      var j :| 0 <= j < |seen| && seen[j] == ov;
      assert UidsOfOvs(seen)[j] == ov.ref.uid;
      assert UidsOfOvs(seen)[j] in UidsOfOvs(seen);
    }
  }

  /** Following the next cursor resumes in the `next` direction on the same
      mailbox and limit, for the same accounts; each account's `after_uid` is
      kept; when paging forward its `before_uid` becomes the oldest UID it
      contributed to the page, and stays as it was when it contributed nothing. */
  lemma NextCursorResumes(c: Codec, s: Setup, managers: seq<string>, pages: map<string, AccountPage>,
                          page: seq<Entry>, a: string)
    requires RoundTrips(c)
    requires forall x :: x in s.ids ==> x in pages
    requires forall x :: x in managers ==> x in pages
    requires Respond(c, s, managers, pages, page).nextCursor.Some?
    ensures var r := ReadCursor(c, Respond(c, s, managers, pages, page).nextCursor.value);
            var was := AnchorsOf(s.resume.accounts, a);
            r.Ok? && r.value.next && r.value.mailbox == s.resume.mailbox && r.value.limit == s.resume.limit &&
            (a in r.value.accounts <==> a in s.ids) &&
            (a in s.ids ==> r.value.accounts[a].afterUid == was.afterUid) &&
            (a in s.ids && s.resume.next && (forall ov :: Entry(a, ov) !in page) ==>
               r.value.accounts[a].beforeUid == was.beforeUid) &&
            (a in s.ids && s.resume.next && (exists ov :: Entry(a, ov) in page) ==>
               r.value.accounts[a].beforeUid.Some? &&
               (exists ov :: Entry(a, ov) in page && ov.ref.uid == r.value.accounts[a].beforeUid.value) &&
               (forall ov :: Entry(a, ov) in page ==> r.value.accounts[a].beforeUid.value <= ov.ref.uid))
  {
    var state := NextStateOf(s, pages, page);
    ResumeRoundTrip(c, Resume(true, s.resume.mailbox, s.resume.limit, state));
    if a in s.ids && s.resume.next {
      if exists ov :: Entry(a, ov) in page {
        MinContributed(page, a);
      } else if OvsOf(page, a) != [] {
        OvsOfMembers(page, a, OvsOf(page, a)[0]);
      }
    }
  }

  /** Following the prev cursor resumes in the other direction; each account's
      `before_uid` is kept, and when paging backward its `after_uid` becomes the
      newest UID it contributed to the page. */
  lemma PrevCursorResumes(c: Codec, s: Setup, managers: seq<string>, pages: map<string, AccountPage>,
                          page: seq<Entry>, a: string)
    requires RoundTrips(c)
    requires forall x :: x in s.ids ==> x in pages
    requires forall x :: x in managers ==> x in pages
    requires Respond(c, s, managers, pages, page).prevCursor.Some?
    ensures var r := ReadCursor(c, Respond(c, s, managers, pages, page).prevCursor.value);
            var was := AnchorsOf(s.resume.accounts, a);
            r.Ok? && !r.value.next && r.value.mailbox == s.resume.mailbox && r.value.limit == s.resume.limit &&
            (a in r.value.accounts <==> a in s.ids) &&
            (a in s.ids ==> r.value.accounts[a].beforeUid == was.beforeUid) &&
            (a in s.ids && !s.resume.next && (exists ov :: Entry(a, ov) in page) ==>
               r.value.accounts[a].afterUid.Some? &&
               (exists ov :: Entry(a, ov) in page && ov.ref.uid == r.value.accounts[a].afterUid.value) &&
               (forall ov :: Entry(a, ov) in page ==> ov.ref.uid <= r.value.accounts[a].afterUid.value))
  {
    var state := PrevStateOf(s, pages, page);
    ResumeRoundTrip(c, Resume(false, s.resume.mailbox, s.resume.limit, state));
    if a in s.ids && !s.resume.next && exists ov :: Entry(a, ov) in page {
      MaxContributed(page, a);
    }
  }
}
