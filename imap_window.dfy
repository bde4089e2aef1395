/** UID windows and the progressive widening search of the IMAP client
    (`_make_window`, `_search_in_window`, `_refresh_search_cache_progressive`).
    The server is an oracle: `uidnext` is the outcome of `STATUS (UIDNEXT)`
    and `matching` the ascending UIDs of the mailbox that satisfy the base
    criteria, so that `UID SEARCH <criteria> UID s:e` answers with those of
    them inside `[s, e]` (sections 6.3.10 and 6.4.8 of RFC 3501). */
module ImapWindow {
  import opened Wrappers
  import opened Text
  import opened Paging
  import opened ImapQuery

  /** An inclusive UID range `[start, end]`; empty when `end < start`. */
  datatype UidWindow = UidWindow(start: int, end: int)

  predicate IsEmpty(w: UidWindow) {
    w.end < w.start
  }

  function Max(a: int, b: int): int { if a >= b then a else b }

  function Min(a: int, b: int): int { if a <= b then a else b }

  /** The newest UID the mailbox can hold, `max(1, uidnext - 1)`. */
  function Newest(uidnext: int): int {
    Max(1, uidnext - 1)
  }

  // ---------------------------------------------------------------------
  // `_make_window`
  // ---------------------------------------------------------------------

  /** `_make_window` exactly as written: an older-page window ends at
      `max(1, before_uid - 1)`, so for `before_uid <= 1` it is `[1, 1]` and
      holds a UID that is not older than the anchor. */
  function MakeWindowAsWritten(anchor: Anchor, windowSize: int, uidnext: Result<int, string>): Result<UidWindow, string> {
    if anchor.Before? then
      var end := Max(1, anchor.beforeUid - 1);
      Ok(UidWindow(Max(1, end - windowSize + 1), end))
    else if uidnext.Err? then Err(uidnext.error)
    else
      var newest := Newest(uidnext.value);
      if anchor.After? then
        var start := anchor.afterUid + 1;
        var end := Min(newest, start + windowSize - 1);
        Ok(UidWindow(start, if newest >= start then Max(end, start) else start - 1))
      else
        Ok(UidWindow(Max(1, newest - windowSize + 1), newest))
  }

  /** `_make_window` with the older-page window ending at `before_uid - 1`
      without the clamp to 1, so that it is empty for `before_uid <= 1`.
      Newer and tail windows are those of the code as written. */
  function MakeWindow(anchor: Anchor, windowSize: int, uidnext: Result<int, string>): Result<UidWindow, string> {
    if anchor.Before? then
      var end := anchor.beforeUid - 1;
      Ok(UidWindow(Max(1, end - windowSize + 1), end))
    else MakeWindowAsWritten(anchor, windowSize, uidnext)
  }

  /** The window shapes of the code as written, for a positive window size:
      an older window is `1 <= start <= end == max(1, before_uid - 1)`, a newer
      window starts right after the anchor and is empty exactly when the
      anchor is at or past the newest UID, a tail window ends at the newest
      UID; none is wider than the window size. Only newer and tail windows
      consult `STATUS`, so only they can fail. */
  lemma MakeWindowAsWrittenShape(anchor: Anchor, windowSize: int, uidnext: Result<int, string>)
    requires windowSize >= 1
    ensures var r := MakeWindowAsWritten(anchor, windowSize, uidnext);
      && (r.Err? <==> !anchor.Before? && uidnext.Err?)
      && (r.Ok? && anchor.Before? ==>
            1 <= r.value.start <= r.value.end == Max(1, anchor.beforeUid - 1)
            && r.value.end - r.value.start + 1 <= windowSize)
      && (r.Ok? && anchor.After? ==>
            r.value.start == anchor.afterUid + 1
            && (IsEmpty(r.value) <==> Newest(uidnext.value) < r.value.start)
            && (IsEmpty(r.value) ==> r.value.end == r.value.start - 1)
            && (!IsEmpty(r.value) ==>
                  r.value.end <= Newest(uidnext.value) && r.value.end - r.value.start + 1 <= windowSize))
      && (r.Ok? && anchor.Tail? ==>
            1 <= r.value.start <= r.value.end == Newest(uidnext.value)
            && r.value.end - r.value.start + 1 <= windowSize)
  {
  }

  /** The input that shows the clamp: older than UID 1, the window as written
      is `[1, 1]`, and UID 1 is not below the anchor. */
  lemma MakeWindowAsWrittenAdmitsAnchor()
    ensures MakeWindowAsWritten(Before(1), 200, Err("no STATUS")) == Ok(UidWindow(1, 1))
    ensures !(1 < 1)
  {
  }

  /** The corrected window holds only UIDs below `before_uid` (and is empty
      when there are none), never wider than the window size; for
      `before_uid >= 2` and the other anchors it is the window as written. */
  lemma MakeWindowShape(anchor: Anchor, windowSize: int, uidnext: Result<int, string>)
    requires windowSize >= 1
    ensures var r := MakeWindow(anchor, windowSize, uidnext);
      && (r.Err? <==> !anchor.Before? && uidnext.Err?)
      && (anchor.Before? ==>
            r.Ok? && r.value.end == anchor.beforeUid - 1 && r.value.start >= 1
            && (IsEmpty(r.value) <==> anchor.beforeUid <= 1)
            && r.value.end - r.value.start + 1 <= windowSize)
      && (!anchor.Before? || anchor.beforeUid >= 2 ==> r == MakeWindowAsWritten(anchor, windowSize, uidnext))
  {
    MakeWindowAsWrittenShape(anchor, windowSize, uidnext);
  }

  // ---------------------------------------------------------------------
  // `_search_in_window`
  // ---------------------------------------------------------------------

  /** The UIDs of `s` inside the window, in their order. */
  function InWindow(s: seq<int>, w: UidWindow): (r: seq<int>)
    ensures |r| <= |s|
    ensures IsEmpty(w) ==> r == []
  {
    if s == [] then []
    else (if w.start <= s[0] <= w.end then [s[0]] else []) + InWindow(s[1..], w)
  }

  /** A window search keeps exactly the UIDs inside the window. */
  lemma {:induction false} InWindowMembers(s: seq<int>, w: UidWindow)
    ensures forall u :: u in InWindow(s, w) <==> u in s && w.start <= u <= w.end
    decreases |s|
  {
    if s != [] {
      InWindowMembers(s[1..], w);
      assert s == [s[0]] + s[1..];
    }
  }

  /** A window search of an ascending list is ascending. */
  lemma {:induction false} InWindowAscending(s: seq<int>, w: UidWindow)
    requires Ascending(s)
    ensures Ascending(InWindow(s, w))
    decreases |s|
  {
    if s != [] {
      var t := s[1..];
      assert Ascending(t);
      InWindowAscending(t, w);
      InWindowMembers(t, w);
      var rest := InWindow(t, w);
      var head := if w.start <= s[0] <= w.end then [s[0]] else [];
      forall u | u in rest ensures s[0] < u {
        var j :| 0 <= j < |t| && t[j] == u;
        assert s[j + 1] == u;
      }
      forall i, j | 0 <= i < j < |head + rest| ensures (head + rest)[i] < (head + rest)[j] {
        if i < |head| {
          assert (head + rest)[j] in rest;
        } else {
          assert (head + rest)[i] == rest[i - |head|];
          assert (head + rest)[j] == rest[j - |head|];
        }
      }
    }
  }

  /** The `UID s:e` criterion openmail's query builder appends for a window. */
  function UidRange(w: UidWindow): string {
    IntToString(w.start) + ":" + IntToString(w.end)
  }

  /** The criteria string of a window search: the base parts, and for a
      non-empty window the `UID` range after them. */
  function WindowCriteria(parts: seq<string>, w: UidWindow): string {
    if IsEmpty(w) then CriteriaOf(parts) else CriteriaOf(parts + ["UID", UidRange(w)])
  }

  datatype SearchOutcome = SearchOutcome(criteria: string, uids: seq<int>)

  /** `_search_in_window`: an empty window answers `[]` without asking the
      server; otherwise the server returns the matching UIDs in the window. */
  function SearchInWindow(parts: seq<string>, w: UidWindow, matching: seq<int>): (r: SearchOutcome)
    ensures IsEmpty(w) ==> r.uids == [] && r.criteria == CriteriaOf(parts)
    ensures forall u :: u in r.uids <==> u in matching && w.start <= u <= w.end
  {
    InWindowMembers(matching, w);
    SearchOutcome(WindowCriteria(parts, w), if IsEmpty(w) then [] else InWindow(matching, w))
  }

  // ---------------------------------------------------------------------
  // The progressive widening loop
  // ---------------------------------------------------------------------

  /** The client's search knobs. */
  datatype Knobs = Knobs(windowFactor: int, maxRounds: int, maxWindowUids: int, maxUidsPerKey: int)

  /** Factor 4, 6 rounds, windows of at most 200000 UIDs, at most 10000 UIDs kept. */
  const DefaultKnobs := Knobs(4, 6, 200000, 10000)

  /** The memory guard: more than `maxUids` UIDs are cut to the newest `maxUids`. */
  function Cap(uids: seq<int>, maxUids: int): seq<int> {
    if |uids| > maxUids then PyLast(uids, maxUids) else uids
  }

  /** The guard keeps a suffix, so an ascending list stays ascending; with a
      positive bound at most `maxUids` UIDs remain. */
  lemma CapSuffix(uids: seq<int>, maxUids: int)
    ensures var c := Cap(uids, maxUids);
      && c == uids[|uids| - |c|..]
      && (Ascending(uids) ==> Ascending(c))
      && (maxUids > 0 ==> |c| <= maxUids)
      && (forall u :: u in c ==> u in uids)
  {
    var c := Cap(uids, maxUids);
    assert c == uids[|uids| - |c|..];
    forall u | u in c ensures u in uids {
      var j :| 0 <= j < |c| && c[j] == u;
      assert u == uids[|uids| - |c| + j];
    }
    if Ascending(uids) {
      forall i, j | 0 <= i < j < |c| ensures c[i] < c[j] {
        assert c[i] == uids[|uids| - |c| + i] && c[j] == uids[|uids| - |c| + j];
      }
    }
  }

  /** How many UIDs the loop wants: `max(1, page_size)`. */
  function Want(pageSize: int): int {
    Max(1, pageSize)
  }

  /** Why the loop stops before its last round: the window holds the `want`
      UIDs, or it reaches UID 1 (older and tail pages), or it reaches the
      newest UID (newer pages). */
  ghost predicate Stopped(matching: seq<int>, anchor: Anchor, pageSize: int, uidnext: Result<int, string>, win: UidWindow) {
    || |InWindow(matching, win)| >= Want(pageSize)
    || (!anchor.After? && win.start == 1)
    || (anchor.After? && uidnext.Ok? && win.end >= Newest(uidnext.value))
  }

  /** The loop of `_refresh_search_cache_progressive`: starting from a window
      of `max(want * factor, want)` UIDs, search the window, stop once it
      holds `want` UIDs or cannot grow past UID 1 (older and tail pages) or
      past the newest UID (newer pages), and otherwise double the window, for
      at most `maxRounds` rounds. Windows are those of `_make_window` as
      written. The ghost results are the last window
      searched, the size it was made with and the number of windows widened. */
  method WidenWindow(parts: seq<string>, pageSize: int, anchor: Anchor, knobs: Knobs,
                     uidnext: Result<int, string>, matching: seq<int>)
    returns (r: Result<SearchOutcome, string>, ghost win: UidWindow, ghost size: int, ghost rounds: nat)
    requires Ascending(matching)
    ensures r.Err? <==> knobs.maxRounds > 0 && !anchor.Before? && uidnext.Err?
    ensures r.Ok? && knobs.maxRounds <= 0 ==> r.value == SearchOutcome(CriteriaOf(parts), [])
    ensures r.Ok? && knobs.maxRounds > 0 ==>
              && MakeWindowAsWritten(anchor, size, uidnext) == Ok(win)
              && size <= knobs.maxWindowUids
              && (knobs.maxWindowUids >= 1 ==> size >= Min(Want(pageSize), knobs.maxWindowUids))
              && r.value == SearchOutcome(WindowCriteria(parts, win), InWindow(matching, win))
              && rounds < knobs.maxRounds
              && (Stopped(matching, anchor, pageSize, uidnext, win) || rounds == knobs.maxRounds - 1)
    ensures r.Ok? ==> Ascending(r.value.uids) && forall u :: u in r.value.uids ==> u in matching
  {
    var want := Want(pageSize);
    var windowSize := Max(want * knobs.windowFactor, want);
    var lastCriteria := CriteriaOf(parts);
    var lastUids: seq<int> := [];
    win, size, rounds := UidWindow(1, 0), 0, 0;
    ghost var searched := false;
    var round := 0;
    while round < knobs.maxRounds
      invariant 0 <= round && (round == 0 || round <= knobs.maxRounds)
      invariant searched <==> round > 0
      invariant knobs.maxWindowUids >= 1 ==> windowSize >= Min(want, knobs.maxWindowUids)
      invariant Ascending(lastUids) && forall u :: u in lastUids ==> u in matching
      invariant searched ==> uidnext.Ok? || anchor.Before?
      invariant searched ==> rounds == round - 1 && MakeWindowAsWritten(anchor, size, uidnext) == Ok(win)
      invariant searched ==> size <= knobs.maxWindowUids
      invariant searched && knobs.maxWindowUids >= 1 ==> size >= Min(want, knobs.maxWindowUids)
      invariant searched ==> lastCriteria == WindowCriteria(parts, win) && lastUids == InWindow(matching, win)
      invariant !searched ==> lastCriteria == CriteriaOf(parts) && lastUids == []
      decreases knobs.maxRounds - round
    {
      windowSize := Min(windowSize, knobs.maxWindowUids);
      var w := MakeWindowAsWritten(anchor, windowSize, uidnext);
      if w.Err? {
        return Err(w.error), win, size, rounds;
      }
      var found := SearchInWindow(parts, w.value, matching);
      assert found.uids == InWindow(matching, w.value);
      InWindowAscending(matching, w.value);
      InWindowMembers(matching, w.value);
      lastCriteria, lastUids := found.criteria, found.uids;
      win, size, rounds, searched := w.value, windowSize, round, true;
      if || |found.uids| >= want
         || (!anchor.After? && w.value.start == 1)
         || (anchor.After? && w.value.end >= Newest(uidnext.value)) {
        break;
      }
      windowSize := windowSize * 2;
      round := round + 1;
    }
    r := Ok(SearchOutcome(lastCriteria, lastUids));
  }

  /** `_refresh_search_cache_progressive`: the widening loop, then the
      memory guard, which keeps the newest `maxUidsPerKey` UIDs. */
  method RefreshProgressive(parts: seq<string>, pageSize: int, anchor: Anchor, knobs: Knobs,
                            uidnext: Result<int, string>, matching: seq<int>)
    returns (r: Result<SearchOutcome, string>, ghost win: UidWindow, ghost size: int, ghost rounds: nat)
    requires Ascending(matching)
    ensures r.Err? <==> knobs.maxRounds > 0 && !anchor.Before? && uidnext.Err?
    ensures r.Ok? && knobs.maxRounds <= 0 ==> r.value == SearchOutcome(CriteriaOf(parts), [])
    ensures r.Ok? && knobs.maxRounds > 0 ==>
              && MakeWindowAsWritten(anchor, size, uidnext) == Ok(win)
              && size <= knobs.maxWindowUids
              && (knobs.maxWindowUids >= 1 ==> size >= Min(Want(pageSize), knobs.maxWindowUids))
              && r.value == SearchOutcome(WindowCriteria(parts, win), Cap(InWindow(matching, win), knobs.maxUidsPerKey))
              && rounds < knobs.maxRounds
              && (Stopped(matching, anchor, pageSize, uidnext, win) || rounds == knobs.maxRounds - 1)
    ensures r.Ok? ==> Ascending(r.value.uids) && forall u :: u in r.value.uids ==> u in matching
  {
    var last;
    last, win, size, rounds := WidenWindow(parts, pageSize, anchor, knobs, uidnext, matching);
    if last.Err? {
      return last, win, size, rounds;
    }
    var lastUids := last.value.uids;
    if |lastUids| > knobs.maxUidsPerKey {
      lastUids := PyLast(lastUids, knobs.maxUidsPerKey);
    }
    CapSuffix(last.value.uids, knobs.maxUidsPerKey);
    assert lastUids == Cap(last.value.uids, knobs.maxUidsPerKey);
    r := Ok(SearchOutcome(last.value.criteria, lastUids));
  }

  // ---------------------------------------------------------------------
  // What the widening loop gives up, and what it does not
  // ---------------------------------------------------------------------

  /** What an unwindowed search answers for the anchor when every UID of
      the mailbox lies in `[1, newest]` (see `WantedMembers`). */
  function Wanted(matching: seq<int>, anchor: Anchor, uidnext: Result<int, string>): seq<int>
    requires !anchor.Before? ==> uidnext.Ok?
  {
    match anchor
    case Before(b) => InWindow(matching, UidWindow(1, b - 1))
    case After(a) => InWindow(matching, UidWindow(a + 1, Newest(uidnext.value)))
    case Tail => InWindow(matching, UidWindow(1, Newest(uidnext.value)))
  }

  /** The reference answer holds exactly the matching UIDs below `before_uid`,
      above `after_uid`, or all of them, when the server's UIDs are positive and
      below `uidnext` (section 2.3.1.1 of RFC 3501). */
  lemma WantedMembers(matching: seq<int>, anchor: Anchor, uidnext: Result<int, string>, u: int)
    requires !anchor.Before? ==> uidnext.Ok? && forall v :: v in matching ==> v < uidnext.value
    requires forall v :: v in matching ==> 1 <= v
    ensures u in Wanted(matching, anchor, uidnext) <==> u in matching && match anchor
      case Before(b) => u < b
      case After(a) => u > a
      case Tail => true
  {
    match anchor
    case Before(b) => InWindowMembers(matching, UidWindow(1, b - 1));
    case After(a) => InWindowMembers(matching, UidWindow(a + 1, Newest(uidnext.value)));
    case Tail => InWindowMembers(matching, UidWindow(1, Newest(uidnext.value)));
  }

  /** A window search keeps a list whose UIDs all lie inside the window. */
  lemma {:induction false} AllInWindow(s: seq<int>, w: UidWindow)
    requires forall u :: u in s ==> w.start <= u <= w.end
    ensures InWindow(s, w) == s
    decreases |s|
  {
    if s != [] {
      assert s[0] in s;
      forall u | u in s[1..] ensures w.start <= u <= w.end {
        var j :| 0 <= j < |s[1..]| && s[1..][j] == u;
        assert s[j + 1] == u;
        assert s[j + 1] in s;
      }
      AllInWindow(s[1..], w);
      assert s == [s[0]] + s[1..];
    }
  }

  /** When every matching UID lies below `uidnext`, the tail page is meant to
      come from all of them. */
  lemma TailWantedIsAll(matching: seq<int>, uidnext: Result<int, string>)
    requires uidnext.Ok? && forall u :: u in matching ==> 1 <= u < uidnext.value
    ensures Wanted(matching, Tail, uidnext) == matching
  {
    AllInWindow(matching, UidWindow(1, Newest(uidnext.value)));
  }

  /** A window search finds nothing when no UID lies inside the window. */
  lemma NoneInWindow(s: seq<int>, w: UidWindow)
    requires forall u :: u in s ==> !(w.start <= u <= w.end)
    ensures InWindow(s, w) == []
    decreases |s|
  {
    if s != [] {
      assert s[0] in s;
      forall u | u in s[1..] ensures u in s {
        var j :| 0 <= j < |s[1..]| && s[1..][j] == u;
        assert s[j + 1] == u;
      }
      NoneInWindow(s[1..], w);
    }
  }

  lemma InWindowCons(s: seq<int>, w: UidWindow)
    requires s != []
    ensures InWindow(s, w) == (if w.start <= s[0] <= w.end then [s[0]] else []) + InWindow(s[1..], w)
  {
  }

  /** The tail of an ascending list is ascending. */
  lemma AscendingTail(s: seq<int>)
    requires s != [] && Ascending(s)
    ensures Ascending(s[1..])
  {
    forall i, j | 0 <= i < j < |s[1..]| ensures s[1..][i] < s[1..][j] {
      assert s[1..][i] == s[i + 1] && s[1..][j] == s[j + 1];
    }
  }

  /** Past the head of an ascending list nothing lies below the head. */
  lemma NoneBelowHead(s: seq<int>, lo: int, mid: int)
    requires s != [] && Ascending(s) && mid <= s[0]
    ensures InWindow(s[1..], UidWindow(lo, mid - 1)) == []
  {
    var t := s[1..];
    forall u | u in t ensures !(lo <= u <= mid - 1) {
      var j :| 0 <= j < |t| && t[j] == u;
      assert s[j + 1] == u;
    }
    NoneInWindow(t, UidWindow(lo, mid - 1));
  }

  /** On an ascending list a window search splits at any UID inside its range. */
  lemma {:induction false} InWindowSplit(s: seq<int>, lo: int, mid: int, hi: int)
    requires Ascending(s) && lo <= mid <= hi + 1
    ensures InWindow(s, UidWindow(lo, hi)) == InWindow(s, UidWindow(lo, mid - 1)) + InWindow(s, UidWindow(mid, hi))
    decreases |s|
  {
    if s != [] {
      var t := s[1..];
      AscendingTail(s);
      var all, low, high := UidWindow(lo, hi), UidWindow(lo, mid - 1), UidWindow(mid, hi);
      InWindowSplit(t, lo, mid, hi);
      InWindowCons(s, all);
      InWindowCons(s, low);
      InWindowCons(s, high);
      if lo <= s[0] < mid {
        var l, h := InWindow(t, low), InWindow(t, high);
        assert [s[0]] + (l + h) == ([s[0]] + l) + h;
      } else if mid <= s[0] {
        NoneBelowHead(s, lo, mid);
      }
    }
  }

  lemma LastOfLonger(pre: seq<int>, x: seq<int>, n: int)
    requires 1 <= n <= |x|
    ensures PyLast(pre + x, n) == PyLast(x, n)
  {
    assert PyLast(pre + x, n) == (pre + x)[|pre| + |x| - n..];
  }

  lemma LastOfCap(x: seq<int>, n: int, maxUids: int)
    requires 1 <= n <= maxUids
    ensures PyLast(Cap(x, maxUids), n) == PyLast(x, n)
  {
  }

  lemma FirstOfLonger(x: seq<int>, post: seq<int>, n: int)
    requires 1 <= n <= |x|
    ensures PyTake(x + post, n) == PyTake(x, n)
  {
    assert PyTake(x + post, n) == (x + post)[..n];
  }
  /** An older or tail window `[start, top]` that holds a page's worth of
      UIDs, or reaches down to UID 1, gives the newest `n` UIDs up to `top`. */
  lemma SuffixPage(matching: seq<int>, start: int, top: int, n: int, maxUids: int)
    requires Ascending(matching) && 1 <= start
    requires 1 <= n <= maxUids
    requires |InWindow(matching, UidWindow(start, top))| >= n || start == 1
    ensures PyLast(Cap(InWindow(matching, UidWindow(start, top)), maxUids), n)
         == PyLast(InWindow(matching, UidWindow(1, top)), n)
  {
    var x := InWindow(matching, UidWindow(start, top));
    LastOfCap(x, n, maxUids);
    if start <= top + 1 {
      InWindowSplit(matching, 1, start, top);
      var pre := InWindow(matching, UidWindow(1, start - 1));
      if |x| >= n {
        LastOfLonger(pre, x, n);
      } else {
        assert pre == [];
        assert pre + x == x;
      }
    }
  }

  /** A non-empty newer window `[start, end]` below the newest UID that holds
      a page's worth of UIDs, or reaches the newest UID, gives the oldest `n`
      UIDs from `start` on. */
  lemma PrefixPage(matching: seq<int>, start: int, end: int, newest: int, n: int)
    requires Ascending(matching) && start <= end <= newest
    requires 1 <= n
    requires |InWindow(matching, UidWindow(start, end))| >= n || end == newest
    ensures PyTake(InWindow(matching, UidWindow(start, end)), n) == PyTake(InWindow(matching, UidWindow(start, newest)), n)
  {
    var x := InWindow(matching, UidWindow(start, end));
    InWindowSplit(matching, start, end + 1, newest);
    var post := InWindow(matching, UidWindow(end + 1, newest));
    if |x| >= n {
      FirstOfLonger(x, post, n);
    } else {
      assert post == [];
      assert x + post == x;
    }
  }

  /** The widening loop loses nothing: when it stopped because the window
      held a page's worth of UIDs or could not grow any further, the page cut
      from its (capped) answer has the same refs as the page cut from an
      unwindowed search. This holds for the windows as written except older
      than UID 1 (see `AsWrittenRepeatsUidOne`), and needs the page to fit
      under the cap; for newer pages the window's whole answer must fit under
      the cap, which keeps the newest UIDs. */
  lemma ProgressivePageComplete(mailbox: string, matching: seq<int>, anchor: Anchor, pageSize: int,
                                size: int, uidnext: Result<int, string>, win: UidWindow, maxUids: int)
    requires Ascending(matching)
    requires size >= 1 && MakeWindowAsWritten(anchor, size, uidnext) == Ok(win)
    requires anchor.Before? ==> anchor.beforeUid >= 2
    requires 1 <= pageSize <= maxUids
    requires Stopped(matching, anchor, pageSize, uidnext, win)
    requires anchor.After? ==> |InWindow(matching, win)| <= maxUids
    ensures !anchor.Before? ==> uidnext.Ok?
    ensures CutPage(mailbox, Cap(InWindow(matching, win), maxUids), pageSize, anchor, 0).refs
         == CutPage(mailbox, Wanted(matching, anchor, uidnext), pageSize, anchor, 0).refs
  {
    MakeWindowShape(anchor, size, uidnext);
    CorrectedPageComplete(mailbox, matching, anchor, pageSize, size, uidnext, win, maxUids);
  }

  /** With the older window ending at `before_uid - 1`, the same holds for
      every anchor, `before_uid = 1` included. */
  lemma {:induction false} CorrectedPageComplete(mailbox: string, matching: seq<int>, anchor: Anchor, pageSize: int,
                                                 size: int, uidnext: Result<int, string>, win: UidWindow, maxUids: int)
    requires Ascending(matching)
    requires size >= 1 && MakeWindow(anchor, size, uidnext) == Ok(win)
    requires 1 <= pageSize <= maxUids
    requires Stopped(matching, anchor, pageSize, uidnext, win)
    requires anchor.After? ==> |InWindow(matching, win)| <= maxUids
    ensures !anchor.Before? ==> uidnext.Ok?
    ensures CutPage(mailbox, Cap(InWindow(matching, win), maxUids), pageSize, anchor, 0).refs
         == CutPage(mailbox, Wanted(matching, anchor, uidnext), pageSize, anchor, 0).refs
  {
    MakeWindowShape(anchor, size, uidnext);
    match anchor
    case After(a) =>
      NewerPageComplete(mailbox, matching, a, pageSize, size, uidnext, win, maxUids);
    case Before(b) =>
      OlderPageComplete(mailbox, matching, b, pageSize, size, uidnext, win, maxUids);
    case Tail =>
      TailPageComplete(mailbox, matching, pageSize, size, uidnext, win, maxUids);
  }

  /** The clamp as it shows in a page: asked for mail older than UID 1 in a
      mailbox where UID 1 matches, the window as written finds UID 1 and the
      page is that message, while no UID is older than the anchor. */
  lemma AsWrittenRepeatsUidOne(mailbox: string, matching: seq<int>, pageSize: int, size: int,
                               uidnext: Result<int, string>, maxUids: int)
    requires Ascending(matching) && matching != [] && matching[0] == 1
    requires size >= 1 && 1 <= pageSize && 1 <= maxUids
    ensures var win := MakeWindowAsWritten(Before(1), size, uidnext).value;
            CutPage(mailbox, Cap(InWindow(matching, win), maxUids), pageSize, Before(1), 0).refs == [EmailRef(1, mailbox)]
    ensures Wanted(matching, Before(1), uidnext) == []
    ensures CutPage(mailbox, Wanted(matching, Before(1), uidnext), pageSize, Before(1), 0).refs == []
  {
    var win := UidWindow(1, 1);
    assert MakeWindowAsWritten(Before(1), size, uidnext) == Ok(win);
    forall u | u in matching[1..] ensures !(1 <= u <= 1) {
      var j :| 0 <= j < |matching[1..]| && matching[1..][j] == u;
      assert matching[j + 1] == u;
    }
    NoneInWindow(matching[1..], win);
    InWindowCons(matching, win);
    assert InWindow(matching, win) == [1];
    CutPageRefs(mailbox, [1], pageSize, Before(1), 0);
  }

  /** `ProgressivePageComplete` for newer pages. */
  lemma NewerPageComplete(mailbox: string, matching: seq<int>, a: int, pageSize: int,
                          size: int, uidnext: Result<int, string>, win: UidWindow, maxUids: int)
    requires Ascending(matching) && uidnext.Ok?
    requires size >= 1 && MakeWindow(After(a), size, uidnext) == Ok(win)
    requires 1 <= pageSize <= maxUids
    requires |InWindow(matching, win)| >= pageSize || win.end >= Newest(uidnext.value)
    requires |InWindow(matching, win)| <= maxUids
    ensures CutPage(mailbox, Cap(InWindow(matching, win), maxUids), pageSize, After(a), 0).refs
         == CutPage(mailbox, Wanted(matching, After(a), uidnext), pageSize, After(a), 0).refs
  {
    MakeWindowShape(After(a), size, uidnext);
    MakeWindowAsWrittenShape(After(a), size, uidnext);
    var x := InWindow(matching, win);
    CutPageRefs(mailbox, x, pageSize, After(a), 0);
    CutPageRefs(mailbox, Wanted(matching, After(a), uidnext), pageSize, After(a), 0);
    if !IsEmpty(win) {
      PrefixPage(matching, win.start, win.end, Newest(uidnext.value), pageSize);
    }
  }

  /** `ProgressivePageComplete` for older pages. */
  lemma OlderPageComplete(mailbox: string, matching: seq<int>, b: int, pageSize: int,
                          size: int, uidnext: Result<int, string>, win: UidWindow, maxUids: int)
    requires Ascending(matching)
    requires size >= 1 && MakeWindow(Before(b), size, uidnext) == Ok(win)
    requires 1 <= pageSize <= maxUids
    requires |InWindow(matching, win)| >= pageSize || win.start == 1
    ensures CutPage(mailbox, Cap(InWindow(matching, win), maxUids), pageSize, Before(b), 0).refs
         == CutPage(mailbox, Wanted(matching, Before(b), uidnext), pageSize, Before(b), 0).refs
  {
    MakeWindowShape(Before(b), size, uidnext);
    CutPageRefs(mailbox, Cap(InWindow(matching, win), maxUids), pageSize, Before(b), 0);
    CutPageRefs(mailbox, Wanted(matching, Before(b), uidnext), pageSize, Before(b), 0);
    SuffixPage(matching, win.start, b - 1, pageSize, maxUids);
  }

  /** `ProgressivePageComplete` for the tail page. */
  lemma TailPageComplete(mailbox: string, matching: seq<int>, pageSize: int,
                         size: int, uidnext: Result<int, string>, win: UidWindow, maxUids: int)
    requires Ascending(matching) && uidnext.Ok?
    requires size >= 1 && MakeWindow(Tail, size, uidnext) == Ok(win)
    requires 1 <= pageSize <= maxUids
    requires |InWindow(matching, win)| >= pageSize || win.start == 1
    ensures CutPage(mailbox, Cap(InWindow(matching, win), maxUids), pageSize, Tail, 0).refs
         == CutPage(mailbox, Wanted(matching, Tail, uidnext), pageSize, Tail, 0).refs
  {
    MakeWindowShape(Tail, size, uidnext);
    MakeWindowAsWrittenShape(Tail, size, uidnext);
    CutPageRefs(mailbox, Cap(InWindow(matching, win), maxUids), pageSize, Tail, 0);
    CutPageRefs(mailbox, Wanted(matching, Tail, uidnext), pageSize, Tail, 0);
    SuffixPage(matching, win.start, Newest(uidnext.value), pageSize, maxUids);
  }
}
