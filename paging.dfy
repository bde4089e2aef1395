/** Message references, one page of a UID search, and the page slicing and
    anchor rules shared by the IMAP client and the in-memory store. UIDs are
    the unique identifiers of section 2.3.1.1 of RFC 3501; a page is cut from
    an ascending list of them and handed out newest first. */
module Paging {
  import opened Wrappers

  /** A message address: its UID inside one mailbox. */
  datatype EmailRef = EmailRef(uid: int, mailbox: string)

  /** One page of search results with the anchors for the neighbouring pages. */
  datatype PagedSearchResult = PagedSearchResult(
    refs: seq<EmailRef>,
    nextBeforeUid: Option<int>,
    prevAfterUid: Option<int>,
    newestUid: Option<int>,
    oldestUid: Option<int>,
    total: int,
    hasNext: bool,
    hasPrev: bool)

  /** Which page is wanted: the newest (tail), older than a UID, or newer than a UID. */
  datatype Anchor = Tail | Before(beforeUid: int) | After(afterUid: int)

  /** A page with no refs; only `total` is set. */
  function EmptyPage(total: int): PagedSearchResult {
    PagedSearchResult([], None, None, None, None, total, false, false)
  }

  /** The two optional anchors of a search call; giving both is a `ValueError`. */
  function AnchorOf(beforeUid: Option<int>, afterUid: Option<int>): (r: Result<Anchor, string>)
    ensures r.Err? <==> beforeUid.Some? && afterUid.Some?
    ensures r.Ok? && beforeUid.Some? ==> r.value == Before(beforeUid.value)
    ensures r.Ok? && afterUid.Some? ==> r.value == After(afterUid.value)
    ensures r.Ok? && beforeUid.None? && afterUid.None? ==> r.value == Tail
  {
    if beforeUid.Some? && afterUid.Some? then Err("Cannot specify both before_uid and after_uid")
    else if beforeUid.Some? then Ok(Before(beforeUid.value))
    else if afterUid.Some? then Ok(After(afterUid.value))
    else Ok(Tail)
  }

  predicate Ascending(s: seq<int>) {
    forall i, j :: 0 <= i < j < |s| ==> s[i] < s[j]
  }

  predicate Descending(refs: seq<EmailRef>) {
    forall i, j :: 0 <= i < j < |refs| ==> refs[i].uid > refs[j].uid
  }

  // ---------------------------------------------------------------------
  // Python slices with an arbitrary integer bound
  // ---------------------------------------------------------------------

  /** Where a Python slice bound `i` lands in a sequence of length `len`. */
  function SliceIndex(len: nat, i: int): (k: nat)
    ensures k <= len
    ensures 0 <= i ==> k == if i <= len then i else len
    ensures i < 0 ==> k == if len + i >= 0 then len + i else 0
  {
    if i < 0 then (if len + i >= 0 then len + i else 0)
    else if i <= len then i else len
  }

  /** `s[:n]` */
  function PyTake(s: seq<int>, n: int): seq<int> {
    s[..SliceIndex(|s|, n)]
  }

  /** `s[-n:]`; note that `n == 0` gives all of `s`, since `-0 == 0`. */
  function PyLast(s: seq<int>, n: int): seq<int> {
    s[SliceIndex(|s|, -n)..]
  }

  /** For a positive count, `s[:n]` is the first `min(n, |s|)` elements and
      `s[-n:]` the last `min(n, |s|)`; a zero count takes nothing from the front
      and everything from the back. */
  lemma SliceCounts(s: seq<int>, n: int)
    ensures n > 0 ==> PyTake(s, n) == s[..if n <= |s| then n else |s|]
    ensures n > 0 ==> PyLast(s, n) == s[if n <= |s| then |s| - n else 0..]
    ensures PyTake(s, 0) == [] && PyLast(s, 0) == s
    ensures n < 0 ==> PyLast(s, n) == s[if -n <= |s| then -n else |s|..]
  {
  }

  // ---------------------------------------------------------------------
  // Cutting a page
  // ---------------------------------------------------------------------

  /** The refs for ascending page UIDs, newest first. */
  function NewestFirst(mailbox: string, asc: seq<int>): (refs: seq<EmailRef>)
    ensures |refs| == |asc|
    ensures forall i :: 0 <= i < |refs| ==> refs[i] == EmailRef(asc[|asc| - 1 - i], mailbox)
  {
    seq(|asc|, i requires 0 <= i < |asc| => EmailRef(asc[|asc| - 1 - i], mailbox))
  }

  /** The UIDs of the page inside the window: the newest `pageSize` for older
      and tail paging, the oldest `pageSize` for newer paging. */
  function PageUids(window: seq<int>, pageSize: int, anchor: Anchor): seq<int> {
    if anchor.After? then PyTake(window, pageSize) else PyLast(window, pageSize)
  }

  /** The page for an ascending `window` of matching UIDs. `emptyPageTotal` is
      the `total` reported when the slice is empty although the window is not:
      the IMAP client reports 0, the in-memory store the window size. */
  function CutPage(mailbox: string, window: seq<int>, pageSize: int, anchor: Anchor,
                   emptyPageTotal: int): PagedSearchResult
  {
    if window == [] then EmptyPage(0)
    else
      var page := PageUids(window, pageSize, anchor);
      if page == [] then EmptyPage(emptyPageTotal)
      else
        var oldest := page[0];
        var newest := page[|page| - 1];
        var knownMore := |window| > |page|;
        var hasOlder := if anchor.After? then true else knownMore || oldest > 1;
        var hasNewer := match anchor
          case Before(_) => true
          case After(_) => knownMore
          case Tail => false;
        PagedSearchResult(
          NewestFirst(mailbox, page),
          if hasOlder then Some(oldest) else None,
          if hasNewer then Some(newest) else None,
          Some(newest), Some(oldest),
          |window|, hasOlder, hasNewer)
  }

  /** Refs of an ascending run of UIDs come out strictly descending, each
      from the run and in the given mailbox. */
  lemma NewestFirstOrder(mailbox: string, asc: seq<int>)
    requires Ascending(asc)
    ensures Descending(NewestFirst(mailbox, asc))
    ensures forall i :: 0 <= i < |asc| ==>
              NewestFirst(mailbox, asc)[i].mailbox == mailbox && NewestFirst(mailbox, asc)[i].uid in asc
  {
  }

  /** A page is a contiguous run of the window: a suffix for older and tail
      paging, a prefix for newer paging. */
  lemma PageUidsRun(window: seq<int>, pageSize: int, anchor: Anchor)
    ensures !anchor.After? ==> PageUids(window, pageSize, anchor) == window[SliceIndex(|window|, -pageSize)..]
    ensures anchor.After? ==> PageUids(window, pageSize, anchor) == window[..SliceIndex(|window|, pageSize)]
    ensures pageSize > 0 ==> |PageUids(window, pageSize, anchor)| == if pageSize <= |window| then pageSize else |window|
  {
  }

  /** Which UIDs a page holds, in which order, and how many. */
  lemma CutPageSlice(mailbox: string, window: seq<int>, pageSize: int, anchor: Anchor, emptyPageTotal: int)
    requires Ascending(window)
    ensures var r := CutPage(mailbox, window, pageSize, anchor, emptyPageTotal);
      && (window == [] ==> r == EmptyPage(0))
      && Descending(r.refs)
      && (forall i :: 0 <= i < |r.refs| ==> r.refs[i].mailbox == mailbox && r.refs[i].uid in window)
      && (r.refs != [] ==> r.total == |window|)
  {
    if window != [] {
      var page := PageUids(window, pageSize, anchor);
      PageUidsRun(window, pageSize, anchor);
      assert Ascending(page);
      NewestFirstOrder(mailbox, page);
    }
  }

  /** For a positive page size: older and tail pages hold the newest
      `min(pageSize, |window|)` UIDs of the window, newer pages the oldest. */
  lemma CutPageContents(mailbox: string, window: seq<int>, pageSize: int, anchor: Anchor, emptyPageTotal: int)
    requires pageSize > 0 && window != []
    ensures var r := CutPage(mailbox, window, pageSize, anchor, emptyPageTotal);
      && |r.refs| == (if pageSize <= |window| then pageSize else |window|)
      && (!anchor.After? ==> forall i :: 0 <= i < |r.refs| ==> r.refs[i].uid == window[|window| - 1 - i])
      && (anchor.After? ==> forall i :: 0 <= i < |r.refs| ==> r.refs[i].uid == window[|r.refs| - 1 - i])
  {
    PageUidsRun(window, pageSize, anchor);
  }

  /** The refs of a cut page are those of its page UIDs, newest first. */
  lemma CutPageRefs(mailbox: string, window: seq<int>, pageSize: int, anchor: Anchor, emptyPageTotal: int)
    ensures CutPage(mailbox, window, pageSize, anchor, emptyPageTotal).refs == NewestFirst(mailbox, PageUids(window, pageSize, anchor))
  {
  }

  /** The anchor rules: each anchor is present exactly when its flag is set,
      a tail page has no newer page, and an older or tail page whose oldest UID
      exceeds 1 always offers an older page. */
  lemma CutPageAnchors(mailbox: string, window: seq<int>, pageSize: int, anchor: Anchor, emptyPageTotal: int)
    ensures var r := CutPage(mailbox, window, pageSize, anchor, emptyPageTotal);
      && (r.hasNext <==> r.nextBeforeUid.Some?)
      && (r.hasNext ==> r.nextBeforeUid == r.oldestUid)
      && (r.hasPrev <==> r.prevAfterUid.Some?)
      && (r.hasPrev ==> r.prevAfterUid == r.newestUid)
      && (r.refs == [] ==> !r.hasNext && !r.hasPrev)
      && (r.refs != [] ==> r.oldestUid == Some(r.refs[|r.refs| - 1].uid) && r.newestUid == Some(r.refs[0].uid))
      && (anchor.Tail? ==> !r.hasPrev)
      && (anchor.Before? && r.refs != [] ==> r.hasPrev)
      && (anchor.After? && r.refs != [] ==> r.hasNext)
      && (!anchor.After? && r.refs != [] && r.oldestUid.value > 1 ==> r.hasNext)
  {
  }
}
