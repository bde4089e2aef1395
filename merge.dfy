/** What the two multi-account overview routes share: entries tagged with their
    account, Python's stable `list.sort(key=..., reverse=True)` on a newest-first
    key, the per-account contributions to a page, the account stamp on each
    rendered entry, and the check that every requested account exists. Dates
    are integers (seconds); a missing date sorts below every date. */
module Merge {
  import opened Wrappers
  import opened Text
  import opened Paging

  /** The fields of an e-mail overview the routes read: its ref, the date one
      route sorts by (`date`) and the one the other sorts by (`received_at`),
      and the `account` already on its rendered ref, if any. */
  datatype Overview = Overview(ref: EmailRef, date: Option<int>, receivedAt: Option<int>, refAccount: Option<string>)

  /** `(acc_id, overview)` */
  datatype Entry = Entry(account: string, ov: Overview)

  // ---------------------------------------------------------------------
  // Sort keys
  // ---------------------------------------------------------------------

  /** `(date or datetime.min, account, uid)`, compared as a tuple. */
  datatype SortKey = SortKey(date: Option<int>, account: string, uid: int)

  predicate DateLess(a: Option<int>, b: Option<int>) {
    b.Some? && (a.None? || a.value < b.value)
  }

  predicate KeyLess(a: SortKey, b: SortKey) {
    || DateLess(a.date, b.date)
    || (a.date == b.date && LexLess(a.account, b.account))
    || (a.date == b.date && a.account == b.account && a.uid < b.uid)
  }

  lemma KeyLessIrreflexive(a: SortKey)
    ensures !KeyLess(a, a)
  {
    LexLessIrreflexive(a.account);
  }

  lemma KeyLessTransitive(a: SortKey, b: SortKey, c: SortKey)
    requires KeyLess(a, b) && KeyLess(b, c)
    ensures KeyLess(a, c)
  {
    if a.date == b.date && b.date == c.date && a.account != c.account {
      if LexLess(a.account, b.account) && LexLess(b.account, c.account) {
        LexLessTransitive(a.account, b.account, c.account);
      }
    } else if a.date == b.date && b.date == c.date && a.account == c.account && a.account != b.account {
      LexLessTransitive(a.account, b.account, a.account);
      LexLessIrreflexive(a.account);
    }
  }

  lemma KeyLessTotal(a: SortKey, b: SortKey)
    requires a != b
    ensures KeyLess(a, b) || KeyLess(b, a)
  {
    if a.date == b.date && a.account != b.account {
      LexLessTotal(a.account, b.account);
    }
  }

  /** Keys that are not below one another chain: `a >= b >= c` gives `a >= c`. */
  lemma NotLessTransitive(a: SortKey, b: SortKey, c: SortKey)
    requires !KeyLess(a, b) && !KeyLess(b, c)
    ensures !KeyLess(a, c)
  {
    if KeyLess(a, c) {
      if c == b {
      } else {
        KeyLessTotal(b, c);
        KeyLessTransitive(a, c, b);
      }
    }
  }

  /** Which key a route sorts by. */
  datatype Ordering =
    | ByDate                  // `pair[1].date or datetime.min`
    | ByReceivedAccountUid    // `(ov.received_at or datetime.min, acc_id, ov.ref.uid or -1)`

  function KeyOf(o: Ordering, e: Entry): SortKey {
    match o
    case ByDate => SortKey(e.ov.date, "", 0)
    case ByReceivedAccountUid =>
      SortKey(e.ov.receivedAt, e.account, if e.ov.ref.uid == 0 then -1 else e.ov.ref.uid)
  }

  // ---------------------------------------------------------------------
  // `combined_entries.sort(key=..., reverse=True)`
  // ---------------------------------------------------------------------

  /** Newest first: no entry's key is below the key of an entry after it. */
  predicate NewestFirst(o: Ordering, s: seq<Entry>) {
    forall i, j :: 0 <= i < j < |s| ==> !KeyLess(KeyOf(o, s[i]), KeyOf(o, s[j]))
  }

  /** Put `x`, which came before every entry of `s`, in front of the first
      entry whose key is not above its own. */
  function Insert(o: Ordering, x: Entry, s: seq<Entry>): (r: seq<Entry>)
    ensures multiset(r) == multiset(s) + multiset{x}
  {
    if s == [] || !KeyLess(KeyOf(o, x), KeyOf(o, s[0])) then [x] + s
    else
      assert s == [s[0]] + s[1..];
      [s[0]] + Insert(o, x, s[1..])
  }

  /** The sort is stable, as Python's is, also with `reverse=True`. */
  function SortNewestFirst(o: Ordering, s: seq<Entry>): (r: seq<Entry>)
    ensures multiset(r) == multiset(s)
  {
    if s == [] then []
    else
      assert s == [s[0]] + s[1..];
      Insert(o, s[0], SortNewestFirst(o, s[1..]))
  }

  lemma InMultiset(y: Entry, s: seq<Entry>)
    requires y in multiset(s)
    ensures exists k :: 0 <= k < |s| && s[k] == y
  {
    assert y in s;
  }

  /** No entry of `t` has a key above the key of `h`. */
  predicate Dominates(o: Ordering, h: Entry, t: seq<Entry>) {
    forall j :: 0 <= j < |t| ==> !KeyLess(KeyOf(o, h), KeyOf(o, t[j]))
  }

  lemma ConsNewestFirst(o: Ordering, h: Entry, t: seq<Entry>)
    requires NewestFirst(o, t) && Dominates(o, h, t)
    ensures NewestFirst(o, [h] + t)
  {
    var r := [h] + t;
    forall i, j | 0 <= i < j < |r| ensures !KeyLess(KeyOf(o, r[i]), KeyOf(o, r[j])) {
      assert r[j] == t[j - 1];
      if i > 0 {
        assert r[i] == t[i - 1];
      }
    }
  }

  /** An entry above `x` and above every entry of `u` is above `Insert(x, u)`. */
  lemma {:induction false} InsertDominated(o: Ordering, h: Entry, x: Entry, u: seq<Entry>)
    requires Dominates(o, h, u) && !KeyLess(KeyOf(o, h), KeyOf(o, x))
    ensures Dominates(o, h, Insert(o, x, u))
    decreases |u|
  {
    if u == [] || !KeyLess(KeyOf(o, x), KeyOf(o, u[0])) {
      var r := [x] + u;
      forall j | 0 < j < |r| ensures !KeyLess(KeyOf(o, h), KeyOf(o, r[j])) {
        assert r[j] == u[j - 1];
      }
    } else {
      InsertDominated(o, h, x, u[1..]);
      var t := Insert(o, x, u[1..]);
      var r := [u[0]] + t;
      forall j | 0 < j < |r| ensures !KeyLess(KeyOf(o, h), KeyOf(o, r[j])) {
        assert r[j] == t[j - 1];
      }
    }
  }

  lemma {:induction false} InsertNewestFirst(o: Ordering, x: Entry, s: seq<Entry>)
    requires NewestFirst(o, s)
    ensures NewestFirst(o, Insert(o, x, s))
    decreases |s|
  {
    if s == [] || !KeyLess(KeyOf(o, x), KeyOf(o, s[0])) {
      forall j | 0 <= j < |s| ensures !KeyLess(KeyOf(o, x), KeyOf(o, s[j])) {
        if j > 0 {
          NotLessTransitive(KeyOf(o, x), KeyOf(o, s[0]), KeyOf(o, s[j]));
        }
      }
      ConsNewestFirst(o, x, s);
    } else {
      InsertNewestFirst(o, x, s[1..]);
      assert NewestFirst(o, s[1..]) by {
        forall i, j | 0 <= i < j < |s[1..]| ensures !KeyLess(KeyOf(o, s[1..][i]), KeyOf(o, s[1..][j])) {
          assert s[1..][i] == s[i + 1] && s[1..][j] == s[j + 1];
        }
      }
      assert Dominates(o, s[0], s[1..]) by {
        forall j | 0 <= j < |s[1..]| ensures !KeyLess(KeyOf(o, s[0]), KeyOf(o, s[1..][j])) {
          assert s[1..][j] == s[j + 1];
        }
      }
      if KeyLess(KeyOf(o, s[0]), KeyOf(o, x)) {
        KeyLessTransitive(KeyOf(o, x), KeyOf(o, s[0]), KeyOf(o, x));
        KeyLessIrreflexive(KeyOf(o, x));
      }
      InsertDominated(o, s[0], x, s[1..]);
      ConsNewestFirst(o, s[0], Insert(o, x, s[1..]));
    }
  }

  /** The sorted entries are newest first. */
  lemma {:induction false} SortIsNewestFirst(o: Ordering, s: seq<Entry>)
    ensures NewestFirst(o, SortNewestFirst(o, s))
  {
    if s != [] {
      SortIsNewestFirst(o, s[1..]);
      InsertNewestFirst(o, s[0], SortNewestFirst(o, s[1..]));
    }
  }

  /** The entries whose key is `k`, in order. */
  function WithKey(o: Ordering, s: seq<Entry>, k: SortKey): seq<Entry> {
    if s == [] then []
    else (if KeyOf(o, s[0]) == k then [s[0]] else []) + WithKey(o, s[1..], k)
  }

  lemma {:induction false} InsertStable(o: Ordering, x: Entry, s: seq<Entry>, k: SortKey)
    ensures WithKey(o, Insert(o, x, s), k) ==
            (if KeyOf(o, x) == k then [x] else []) + WithKey(o, s, k)
    decreases |s|
  {
    var r := Insert(o, x, s);
    if s == [] || !KeyLess(KeyOf(o, x), KeyOf(o, s[0])) {
      assert r == [x] + s;
      assert r[0] == x && r[1..] == s;
    } else {
      var t := Insert(o, x, s[1..]);
      InsertStable(o, x, s[1..], k);
      assert r == [s[0]] + t;
      assert r[0] == s[0] && r[1..] == t;
      var head := if KeyOf(o, s[0]) == k then [s[0]] else [];
      assert WithKey(o, r, k) == head + WithKey(o, t, k);
      assert WithKey(o, s, k) == head + WithKey(o, s[1..], k);
      if KeyOf(o, x) == k {
        KeyLessIrreflexive(k);
        assert head == [];
      }
    }
  }

  /** Entries with equal keys keep their relative order. */
  lemma {:induction false} SortStable(o: Ordering, s: seq<Entry>, k: SortKey)
    ensures WithKey(o, SortNewestFirst(o, s), k) == WithKey(o, s, k)
  {
    if s != [] {
      SortStable(o, s[1..], k);
      InsertStable(o, s[0], SortNewestFirst(o, s[1..]), k);
    }
  }

  /** `combined_entries[:limit]` after sorting. */
  function Page(o: Ordering, combined: seq<Entry>, limit: int): (page: seq<Entry>)
    ensures limit >= 1 ==> |page| == if limit <= |combined| then limit else |combined|
    ensures limit <= 0 ==> |page| == SliceIndex(|combined|, limit)
  {
    var sorted := SortNewestFirst(o, combined);
    assert |sorted| == |multiset(sorted)| == |combined|;
    sorted[..SliceIndex(|sorted|, limit)]
  }

  /** The page is newest first, holds only merged entries, and no entry left
      off it is newer than one on it. */
  lemma PageIsNewest(o: Ordering, combined: seq<Entry>, limit: int)
    ensures NewestFirst(o, Page(o, combined, limit))
    ensures multiset(Page(o, combined, limit)) <= multiset(combined)
    ensures forall e, d :: e in Page(o, combined, limit) && d in multiset(combined) - multiset(Page(o, combined, limit))
              ==> !KeyLess(KeyOf(o, e), KeyOf(o, d))
  {
    var sorted := SortNewestFirst(o, combined);
    SortIsNewestFirst(o, combined);
    var n := SliceIndex(|sorted|, limit);
    var page := sorted[..n];
    assert sorted == page + sorted[n..];
    assert multiset(sorted) == multiset(page) + multiset(sorted[n..]);
    assert multiset(combined) - multiset(page) == multiset(sorted[n..]);
    forall e, d | e in page && d in multiset(sorted[n..])
      ensures !KeyLess(KeyOf(o, e), KeyOf(o, d))
    {
      PrefixAboveRest(o, sorted, n, e, d);
    }
  }

  lemma PrefixAboveRest(o: Ordering, sorted: seq<Entry>, n: nat, e: Entry, d: Entry)
    requires NewestFirst(o, sorted) && n <= |sorted|
    requires e in sorted[..n] && d in multiset(sorted[n..])
    ensures !KeyLess(KeyOf(o, e), KeyOf(o, d))
  {
    var i :| 0 <= i < n && sorted[..n][i] == e;
    InMultiset(d, sorted[n..]);
    var j :| 0 <= j < |sorted[n..]| && sorted[n..][j] == d;
    assert sorted[n + j] == d && sorted[i] == e;
  }

  // ---------------------------------------------------------------------
  // `contributed.setdefault(acc_id, []).append(ov)`
  // ---------------------------------------------------------------------

  /** The overviews of one account on the page, in page order. */
  function OvsOf(page: seq<Entry>, acc: string): seq<Overview> {
    if page == [] then []
    else
      var e := page[|page| - 1];
      OvsOf(page[..|page| - 1], acc) + (if e.account == acc then [e.ov] else [])
  }

  lemma {:induction false} OvsOfEmpty(page: seq<Entry>, acc: string)
    ensures OvsOf(page, acc) == [] <==> forall e :: e in page ==> e.account != acc
  {
    if page != [] {
      OvsOfEmpty(page[..|page| - 1], acc);
      assert page == page[..|page| - 1] + [page[|page| - 1]];
    }
  }

  /** An overview of the account is on the page exactly when it is in the list. */
  lemma {:induction false} OvsOfMembers(page: seq<Entry>, acc: string, ov: Overview)
    ensures ov in OvsOf(page, acc) <==> Entry(acc, ov) in page
  {
    if page != [] {
      OvsOfMembers(page[..|page| - 1], acc, ov);
      assert page == page[..|page| - 1] + [page[|page| - 1]];
    }
  }

  /** The accounts with an entry on the page. */
  function AccountsOf(page: seq<Entry>): set<string> {
    set e | e in page :: e.account
  }

  lemma OvsOfSnoc(page: seq<Entry>, e: Entry, acc: string)
    ensures OvsOf(page + [e], acc) == OvsOf(page, acc) + (if e.account == acc then [e.ov] else [])
  {
    assert (page + [e])[..|page|] == page;
  }

  /** The loop that groups the page by account. */
  method Contribute(page: seq<Entry>) returns (m: map<string, seq<Overview>>)
    ensures m.Keys == AccountsOf(page)
    ensures forall a :: a in m ==> m[a] == OvsOf(page, a)
  {
    m := map[];
    for i := 0 to |page|
      invariant m.Keys == AccountsOf(page[..i])
      invariant forall a :: a in m ==> m[a] == OvsOf(page[..i], a)
    {
      var e := page[i];
      assert page[..i + 1] == page[..i] + [e];
      var old_m := m;
      m := m[e.account := Seen(m, e.account) + [e.ov]];
      ContributeStep(page[..i], e, old_m, m);
    }
    assert page[..|page|] == page;
  }

  lemma ContributeStep(done: seq<Entry>, e: Entry, m: map<string, seq<Overview>>, m': map<string, seq<Overview>>)
    requires m.Keys == AccountsOf(done)
    requires forall a :: a in m ==> m[a] == OvsOf(done, a)
    requires m' == m[e.account := Seen(m, e.account) + [e.ov]]
    ensures m'.Keys == AccountsOf(done + [e])
    ensures forall a :: a in m' ==> m'[a] == OvsOf(done + [e], a)
  {
    assert AccountsOf(done + [e]) == AccountsOf(done) + {e.account};
    forall a | a in m' ensures m'[a] == OvsOf(done + [e], a) {
      OvsOfSnoc(done, e, a);
      if a !in m {
        OvsOfEmpty(done, a);
      }
    }
  }

  /** `contributed.get(acc_id, [])` */
  function Seen(m: map<string, seq<Overview>>, acc: string): seq<Overview> {
    if acc in m then m[acc] else []
  }

  /** What the grouping loop yields for one account is its overviews on the
      page, and it is empty exactly when the account has no entry there. */
  lemma SeenIsOvsOf(page: seq<Entry>, m: map<string, seq<Overview>>, acc: string)
    requires m.Keys == AccountsOf(page)
    requires forall a :: a in m ==> m[a] == OvsOf(page, a)
    ensures Seen(m, acc) == OvsOf(page, acc)
    ensures Seen(m, acc) == [] <==> acc !in AccountsOf(page)
  {
    OvsOfEmpty(page, acc);
  }

  function UidsOfOvs(ovs: seq<Overview>): (r: seq<int>)
    ensures |r| == |ovs| && forall i :: 0 <= i < |ovs| ==> r[i] == ovs[i].ref.uid
  {
    seq(|ovs|, i requires 0 <= i < |ovs| => ovs[i].ref.uid)
  }

  /** `min(uids)` */
  function MinOf(s: seq<int>): (r: int)
    requires s != []
    ensures r in s && forall x :: x in s ==> r <= x
  {
    if |s| == 1 then s[0]
    else
      var m := MinOf(s[1..]);
      assert forall x :: x in s ==> x == s[0] || x in s[1..];
      if s[0] <= m then s[0] else m
  }

  /** `max(uids)` */
  function MaxOf(s: seq<int>): (r: int)
    requires s != []
    ensures r in s && forall x :: x in s ==> x <= r
  {
    if |s| == 1 then s[0]
    else
      var m := MaxOf(s[1..]);
      assert forall x :: x in s ==> x == s[0] || x in s[1..];
      if s[0] >= m then s[0] else m
  }

  // ---------------------------------------------------------------------
  // Rendering: `ref.setdefault("account", acc_id)`
  // ---------------------------------------------------------------------

  /** A rendered entry: the overview and the account its ref carries. */
  datatype Item = Item(ov: Overview, account: string)

  function Stamp(e: Entry): Item {
    Item(e.ov, GetOr(e.ov.refAccount, e.account))
  }

  /** The rendering loop: one item per page entry, in page order; an account
      already on the ref is kept, otherwise the entry's account is put there. */
  method Render(page: seq<Entry>) returns (data: seq<Item>)
    ensures |data| == |page|
    ensures forall i :: 0 <= i < |page| ==> data[i].ov == page[i].ov
    ensures forall i :: 0 <= i < |page| ==>
              data[i].account == if page[i].ov.refAccount.Some? then page[i].ov.refAccount.value else page[i].account
  {
    data := [];
    for i := 0 to |page|
      invariant |data| == i
      invariant forall k :: 0 <= k < i ==> data[k] == Stamp(page[k])
    {
      data := data + [Stamp(page[i])];
    }
  }

  // ---------------------------------------------------------------------
  // The requested accounts
  // ---------------------------------------------------------------------

  /** The keys of a dictionary filled from `ids` in order: first occurrences. */
  function Dedup(ids: seq<string>): (r: seq<string>)
    ensures forall a :: a in r <==> a in ids
    ensures forall i, j :: 0 <= i < j < |r| ==> r[i] != r[j]
  {
    if ids == [] then []
    else
      var d := Dedup(ids[..|ids| - 1]);
      var a := ids[|ids| - 1];
      assert ids == ids[..|ids| - 1] + [a];
      if a in d then d else d + [a]
  }

  /** The first account id the registry does not know, if any. */
  function FirstUnknown(ids: seq<string>, registry: seq<string>): (r: Option<string>)
    ensures r.None? <==> forall i :: 0 <= i < |ids| ==> ids[i] in registry
    ensures r.Some? ==> exists i :: 0 <= i < |ids| && ids[i] == r.value && ids[i] !in registry
                          && forall j :: 0 <= j < i ==> ids[j] in registry
  {
    if ids == [] then None
    else if ids[0] !in registry then Some(ids[0])
    else
      var r := FirstUnknown(ids[1..], registry);
      assert forall i :: 0 < i < |ids| ==> ids[i] == ids[1..][i - 1];
      r
  }

  /** The loop `manager = ACCOUNTS.get(acc_id)`: the first unknown account id
      is reported; otherwise the managers, one per distinct id, in order. */
  method KnownAccounts(ids: seq<string>, registry: seq<string>) returns (r: Result<seq<string>, string>)
    ensures r.Err? <==> FirstUnknown(ids, registry).Some?
    ensures r.Err? ==> r.error == FirstUnknown(ids, registry).value
    ensures r.Ok? ==> r.value == Dedup(ids)
  {
    var managers: seq<string> := [];
    for i := 0 to |ids|
      invariant forall j :: 0 <= j < i ==> ids[j] in registry
      invariant managers == Dedup(ids[..i])
    {
      if ids[i] !in registry {
        return Err(ids[i]);
      }
      assert ids[..i + 1][..i] == ids[..i];
      managers := if ids[i] in managers then managers else managers + [ids[i]];
    }
    assert ids[..|ids|] == ids;
    r := Ok(managers);
  }
}
