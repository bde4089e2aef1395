/** The in-memory IMAP mail store used in place of a server: a map from
    mailbox name to UID to stored message and flag set, one UID counter shared
    by every mailbox, and a switch that makes the next operation fail. It
    answers paged searches with the same page rules as the real client, with
    the whole match set as the window. Messages are opaque apart from their
    address and headers. */
module FakeImap {
  import opened Wrappers
  import opened Text
  import opened Paging
  import opened ImapQuery
  import opened ImapClient

  /** A stored message; the store rewrites `ref` whenever it files a copy. */
  datatype Message = Message(ref: EmailRef, headers: map<string, string>, body: string)

  datatype Stored = Stored(msg: Message, flags: set<string>)

  type Box = map<int, Stored>

  /** The whole state the operations change: the mailboxes and the next UID. */
  datatype Store = Store(boxes: map<string, Box>, next: int)

  const SeenFlag := "\\Seen"
  const DeletedFlag := "\\Deleted"
  const DraftFlag := "\\Draft"
  const FlaggedFlag := "\\Flagged"
  const ForcedFailure := "FakeIMAPClient forced failure"

  /** `self._mailboxes.get(name, {})` */
  function BoxOf(boxes: map<string, Box>, name: string): Box {
    if name in boxes then boxes[name] else map[]
  }

  /** `_ensure_mailbox`: add an empty mailbox unless it exists. */
  function Ensure(boxes: map<string, Box>, name: string): (r: map<string, Box>)
    ensures r.Keys == boxes.Keys + {name}
    ensures forall m :: m in boxes ==> r[m] == boxes[m]
    ensures name !in boxes ==> r[name] == map[]
  {
    if name in boxes then boxes else boxes[name := map[]]
  }

  /** The stored copy of a message filed under `uid` in `mailbox`. */
  function Filed(s: Stored, uid: int, mailbox: string): Stored {
    Stored(s.msg.(ref := EmailRef(uid, mailbox)), s.flags)
  }

  // ---------------------------------------------------------------------
  // The store invariant
  // ---------------------------------------------------------------------

  /** Every UID is positive and below the counter, every message knows its own
      address, and no UID is in use in two mailboxes. */
  ghost predicate ValidStore(st: Store) {
    && st.next >= 1
    && (forall m, u :: m in st.boxes && u in st.boxes[m] ==>
          1 <= u < st.next && st.boxes[m][u].msg.ref == EmailRef(u, m))
    && (forall m1, m2, u :: m1 in st.boxes && m2 in st.boxes && u in st.boxes[m1] && u in st.boxes[m2] ==> m1 == m2)
  }

  lemma EnsureKeepsValid(st: Store, name: string)
    requires ValidStore(st)
    ensures ValidStore(Store(Ensure(st.boxes, name), st.next))
  {
  }

  /** Filing a message under the next UID and advancing the counter. */
  lemma FileKeepsValid(st: Store, mailbox: string, s: Stored)
    requires ValidStore(st)
    ensures ValidStore(Store(st.boxes[mailbox := BoxOf(st.boxes, mailbox)[st.next := Filed(s, st.next, mailbox)]], st.next + 1))
  {
    var b := st.boxes[mailbox := BoxOf(st.boxes, mailbox)[st.next := Filed(s, st.next, mailbox)]];
    forall m1, m2, u | m1 in b && m2 in b && u in b[m1] && u in b[m2] ensures m1 == m2 {
      if u == st.next {
        assert m1 == mailbox && m2 == mailbox;
      }
    }
  }

  /** Creating the mailbox if needed and then filing into it is filing into
      the mailbox or into a new empty one. */
  lemma EnsureThenFile(boxes: map<string, Box>, mailbox: string, uid: int, s: Stored)
    ensures var e := Ensure(boxes, mailbox);
      mailbox in e && e[mailbox := e[mailbox][uid := s]] == boxes[mailbox := BoxOf(boxes, mailbox)[uid := s]]
  {
  }

  /** Dropping some UIDs of one mailbox, or the whole mailbox. */
  lemma RemoveKeepsValid(st: Store, mailbox: string, gone: set<int>)
    requires ValidStore(st) && mailbox in st.boxes
    ensures ValidStore(Store(st.boxes[mailbox := st.boxes[mailbox] - gone], st.next))
    ensures ValidStore(Store(st.boxes - {mailbox}, st.next))
  {
  }

  // ---------------------------------------------------------------------
  // `_matches_query`
  // ---------------------------------------------------------------------

  /** The flag keywords of the query, each a condition on the flag set. */
  predicate FlagFilterOk(flags: set<string>, parts: seq<string>) {
    && !("UNSEEN" in parts && SeenFlag in flags)
    && !("SEEN" in parts && SeenFlag !in flags)
    && !("DELETED" in parts && DeletedFlag !in flags)
    && !("UNDELETED" in parts && DeletedFlag in flags)
    && !("DRAFT" in parts && DraftFlag !in flags)
    && !("UNDRAFT" in parts && DraftFlag in flags)
    && !("FLAGGED" in parts && FlaggedFlag !in flags)
    && !("UNFLAGGED" in parts && FlaggedFlag in flags)
  }

  /** Whether the message has a `List-Unsubscribe` header in any letter case. */
  predicate HasUnsubscribe(headers: map<string, string>) {
    exists k :: k in headers && Lower(k) == "list-unsubscribe"
  }

  /** The `HEADER name value` triple at position `i`: only `List-Unsubscribe`
      is checked; an empty value asks for the header, any other value for a
      case-insensitive substring of the exactly named header. */
  predicate HeaderTripleOk(headers: map<string, string>, parts: seq<string>, i: int)
    requires 0 <= i && i + 2 < |parts|
  {
    var name := StripChar(parts[i + 1], '"');
    var value := StripChar(parts[i + 2], '"');
    Lower(name) == "list-unsubscribe" ==>
      if value == "" then HasUnsubscribe(headers)
      else Contains(Lower(if "List-Unsubscribe" in headers then headers["List-Unsubscribe"] else ""), Lower(value))
  }

  /** The small subset of SEARCH the store understands; everything else matches. */
  predicate Matches(s: Stored, parts: seq<string>) {
    && FlagFilterOk(s.flags, parts)
    && forall i :: 0 <= i && i + 2 < |parts| && parts[i] == "HEADER" ==> HeaderTripleOk(s.msg.headers, parts, i)
  }

  /** A query of plain keywords matches exactly the messages whose flags agree
      with each keyword; in particular `UNSEEN` excludes `\Seen` and `FLAGGED`
      requires `\Flagged`. */
  lemma MatchesFlagKeywords(s: Stored, parts: seq<string>)
    requires "HEADER" !in parts
    ensures Matches(s, parts) <==> FlagFilterOk(s.flags, parts)
    ensures Matches(s, parts) && "UNSEEN" in parts ==> SeenFlag !in s.flags
    ensures Matches(s, parts) && "FLAGGED" in parts ==> FlaggedFlag in s.flags
  {
  }

  // ---------------------------------------------------------------------
  // The search window and flag updates as values
  // ---------------------------------------------------------------------

  /** Whether a UID lies in the window of the anchor. */
  predicate Keep(anchor: Anchor, u: int) {
    match anchor
    case Before(b) => u < b
    case After(a) => u > a
    case Tail => true
  }

  /** `[u for u in all_uids if ...]` for the anchor. */
  function WindowOf(all: seq<int>, anchor: Anchor): (w: seq<int>)
    ensures |w| <= |all|
  {
    if all == [] then []
    else (if Keep(anchor, all[0]) then [all[0]] else []) + WindowOf(all[1..], anchor)
  }

  lemma {:induction false} WindowMembers(all: seq<int>, anchor: Anchor)
    ensures forall u :: u in WindowOf(all, anchor) <==> u in all && Keep(anchor, u)
  {
    if all != [] {
      WindowMembers(all[1..], anchor);
      assert all == [all[0]] + all[1..];
    }
  }

  lemma {:induction false} WindowAscending(all: seq<int>, anchor: Anchor)
    requires Ascending(all)
    ensures Ascending(WindowOf(all, anchor))
  {
    if all != [] {
      WindowAscending(all[1..], anchor);
      WindowMembers(all[1..], anchor);
      var rest := WindowOf(all[1..], anchor);
      forall j | 0 <= j < |rest| ensures all[0] < rest[j] {
        assert rest[j] in rest;
        var k :| 0 <= k < |all[1..]| && all[1..][k] == rest[j];
        assert all[k + 1] == rest[j];
      }
    }
  }

  lemma {:induction false} WindowTail(all: seq<int>)
    ensures WindowOf(all, Tail) == all
  {
    if all != [] {
      WindowTail(all[1..]);
    }
  }

  /** The UIDs a list of refs names. */
  function UidSet(refs: seq<EmailRef>): set<int> {
    set r | r in refs :: r.uid
  }

  /** `stored.flags |= flags` (or `-=`) on every addressed message of a box;
      UIDs the box does not hold are ignored. */
  function WithFlags(box: Box, uids: set<int>, flags: set<string>, add: bool): (r: Box)
    ensures r.Keys == box.Keys
  {
    map u | u in box :: if u in uids then box[u].(flags := if add then box[u].flags + flags else box[u].flags - flags) else box[u]
  }

  /** The box without the messages flagged `\Deleted`. */
  function Expunged(box: Box): (r: Box)
    ensures forall u :: u in r <==> u in box && DeletedFlag !in box[u].flags
  {
    map u | u in box && DeletedFlag !in box[u].flags :: box[u]
  }

  /** The UIDs of a box whose message lacks `\Seen`. */
  function UnseenUids(box: Box): set<int> {
    set u | u in box && SeenFlag !in box[u].flags
  }

  /** The mailboxes after a successful `add_flags` / `remove_flags`. */
  function AfterFlags(boxes: map<string, Box>, refs: seq<EmailRef>, flags: set<string>, add: bool): map<string, Box> {
    if refs != [] && refs[0].mailbox in boxes
    then boxes[refs[0].mailbox := WithFlags(boxes[refs[0].mailbox], UidSet(refs), flags, add)]
    else boxes
  }

  lemma WithFlagsKeepsValid(st: Store, mailbox: string, uids: set<int>, flags: set<string>, add: bool)
    requires ValidStore(st) && mailbox in st.boxes
    ensures ValidStore(Store(st.boxes[mailbox := WithFlags(st.boxes[mailbox], uids, flags, add)], st.next))
  {
  }

  /** Adding flags and then removing them leaves only the removal; when none
      of the addressed messages had any of them, removal undoes the addition. */
  lemma AddThenRemove(box: Box, uids: set<int>, flags: set<string>)
    ensures WithFlags(WithFlags(box, uids, flags, true), uids, flags, false) == WithFlags(box, uids, flags, false)
    ensures (forall u :: u in box && u in uids ==> box[u].flags !! flags) ==>
              WithFlags(WithFlags(box, uids, flags, true), uids, flags, false) == box
  {
    var a := WithFlags(WithFlags(box, uids, flags, true), uids, flags, false);
    forall u | u in box ensures a[u] == WithFlags(box, uids, flags, false)[u] {
      if u in uids {
        assert (box[u].flags + flags) - flags == box[u].flags - flags;
      }
    }
    if forall u :: u in box && u in uids ==> box[u].flags !! flags {
      forall u | u in box ensures a[u] == box[u] {
        if u in uids {
          assert box[u].flags - flags == box[u].flags;
        }
      }
    }
  }

  /** Marking messages `\Deleted` and then expunging removes exactly them and
      the messages already marked; every other message stays as it was. */
  lemma DeleteThenExpunge(box: Box, uids: set<int>)
    ensures var r := Expunged(WithFlags(box, uids, {DeletedFlag}, true));
      && (forall u :: u in r <==> u in box && u !in uids && DeletedFlag !in box[u].flags)
      && (forall u :: u in r ==> r[u] == box[u])
  {
  }

  // ---------------------------------------------------------------------
  // `move` / `copy` as values
  // ---------------------------------------------------------------------

  /** One ref of `move` (`remove`) or `copy`: a message found in the source is
      filed in the destination under the next UID with the same flags; a move
      also pops it from the source. */
  function Transfer(st: Store, u: int, src: string, dst: string, remove: bool): Store {
    if src in st.boxes && u in st.boxes[src] then
      var s := st.boxes[src][u];
      var b := if remove then st.boxes[src := st.boxes[src] - {u}] else st.boxes;
      Store(b[dst := BoxOf(b, dst)[st.next := Filed(s, st.next, dst)]], st.next + 1)
    else st
  }

  /** The refs of `move` or `copy`, in order. */
  function TransferAll(st: Store, uids: seq<int>, src: string, dst: string, remove: bool): Store
    decreases |uids|
  {
    if uids == [] then st
    else TransferAll(Transfer(st, uids[0], src, dst, remove), uids[1..], src, dst, remove)
  }

  function UidsOf(refs: seq<EmailRef>): (r: seq<int>)
    ensures |r| == |refs| && forall i :: 0 <= i < |refs| ==> r[i] == refs[i].uid
  {
    seq(|refs|, i requires 0 <= i < |refs| => refs[i].uid)
  }

  /** The check `move` / `copy` make before touching anything: every ref
      names the source mailbox. */
  method AllFrom(refs: seq<EmailRef>, src: string) returns (ok: bool)
    ensures ok <==> forall x :: x in refs ==> x.mailbox == src
  {
    var k := 0;
    while k < |refs|
      invariant 0 <= k <= |refs|
      invariant forall j :: 0 <= j < k ==> refs[j].mailbox == src
    {
      if refs[k].mailbox != src {
        return false;
      }
      k := k + 1;
    }
    return true;
  }

  /** The loop of `move` / `copy` over the refs, on the store's parts. */
  method TransferLoop(st: Store, uids: seq<int>, src: string, dst: string, remove: bool)
    returns (boxes: map<string, Box>, next: int)
    ensures Store(boxes, next) == TransferAll(st, uids, src, dst, remove)
  {
    boxes, next := st.boxes, st.next;
    var i := 0;
    while i < |uids|
      invariant 0 <= i <= |uids|
      invariant TransferAll(st, uids, src, dst, remove) == TransferAll(Store(boxes, next), uids[i..], src, dst, remove)
    {
      var u := uids[i];
      assert uids[i..][0] == u && uids[i..][1..] == uids[i + 1..];
      if src in boxes && u in boxes[src] {
        var stored := boxes[src][u];
        if remove {
          boxes := boxes[src := boxes[src] - {u}];
        }
        boxes := boxes[dst := BoxOf(boxes, dst)[next := Filed(stored, next, dst)]];
        next := next + 1;
      }
      i := i + 1;
    }
    assert uids[i..] == [];
  }

  lemma TransferKeepsValid(st: Store, u: int, src: string, dst: string, remove: bool)
    requires ValidStore(st)
    ensures ValidStore(Transfer(st, u, src, dst, remove))
  {
    if src in st.boxes && u in st.boxes[src] {
      var s := st.boxes[src][u];
      if remove {
        RemoveKeepsValid(st, src, {u});
        FileKeepsValid(Store(st.boxes[src := st.boxes[src] - {u}], st.next), dst, s);
      } else {
        FileKeepsValid(st, dst, s);
      }
    }
  }

  lemma {:induction false} TransferAllKeepsValid(st: Store, uids: seq<int>, src: string, dst: string, remove: bool)
    requires ValidStore(st)
    ensures ValidStore(TransferAll(st, uids, src, dst, remove))
    decreases |uids|
  {
    if uids != [] {
      TransferKeepsValid(st, uids[0], src, dst, remove);
      TransferAllKeepsValid(Transfer(st, uids[0], src, dst, remove), uids[1..], src, dst, remove);
    }
  }

  /** The frame of `move` (`remove`) and `copy` between two different
      mailboxes: no mailbox appears or disappears, the counter only grows, no
      third mailbox changes, the source loses exactly the named messages it
      held (a copy leaves it alone), and the destination keeps what it had and
      gains exactly the UIDs issued. */
  lemma {:induction false} TransferAllFrame(st: Store, uids: seq<int>, src: string, dst: string, remove: bool)
    requires ValidStore(st) && src != dst && src in st.boxes && dst in st.boxes
    ensures var r := TransferAll(st, uids, src, dst, remove);
      && r.boxes.Keys == st.boxes.Keys
      && st.next <= r.next
      && (forall m :: m in st.boxes && m != src && m != dst ==> r.boxes[m] == st.boxes[m])
      && r.boxes[src] == (if remove then st.boxes[src] - set u | u in uids else st.boxes[src])
      && (forall u :: u in st.boxes[dst] ==> u in r.boxes[dst] && r.boxes[dst][u] == st.boxes[dst][u])
      && (forall n :: n in r.boxes[dst] <==> n in st.boxes[dst] || st.next <= n < r.next)
  {
    TransferAllOthers(st, uids, src, dst, remove);
    TransferAllSource(st, uids, src, dst, remove);
    TransferAllDest(st, uids, src, dst, remove);
  }

  lemma {:induction false} TransferAllOthers(st: Store, uids: seq<int>, src: string, dst: string, remove: bool)
    requires dst in st.boxes
    ensures var r := TransferAll(st, uids, src, dst, remove);
      && r.boxes.Keys == st.boxes.Keys
      && st.next <= r.next
      && (forall m :: m in st.boxes && m != src && m != dst ==> r.boxes[m] == st.boxes[m])
    decreases |uids|
  {
    if uids != [] {
      TransferAllOthers(Transfer(st, uids[0], src, dst, remove), uids[1..], src, dst, remove);
    }
  }

  lemma {:induction false} TransferAllSource(st: Store, uids: seq<int>, src: string, dst: string, remove: bool)
    requires src != dst && src in st.boxes && dst in st.boxes
    ensures var r := TransferAll(st, uids, src, dst, remove);
      && src in r.boxes
      && r.boxes[src] == (if remove then st.boxes[src] - set u | u in uids else st.boxes[src])
    decreases |uids|
  {
    if uids != [] {
      var t := Transfer(st, uids[0], src, dst, remove);
      TransferAllSource(t, uids[1..], src, dst, remove);
      assert (set x | x in uids) == {uids[0]} + set x | x in uids[1..];
    }
  }

  lemma {:induction false} TransferAllDest(st: Store, uids: seq<int>, src: string, dst: string, remove: bool)
    requires ValidStore(st) && src != dst && dst in st.boxes
    ensures var r := TransferAll(st, uids, src, dst, remove);
      && dst in r.boxes
      && (forall u :: u in st.boxes[dst] ==> u in r.boxes[dst] && r.boxes[dst][u] == st.boxes[dst][u])
      && (forall n :: n in r.boxes[dst] <==> n in st.boxes[dst] || st.next <= n < r.next)
    decreases |uids|
  {
    if uids != [] {
      var u := uids[0];
      var t := Transfer(st, u, src, dst, remove);
      TransferKeepsValid(st, u, src, dst, remove);
      TransferAllOthers(t, uids[1..], src, dst, remove);
      TransferAllDest(t, uids[1..], src, dst, remove);
      if src in st.boxes && u in st.boxes[src] {
        assert st.next !in st.boxes[dst];
      }
    }
  }

  /** `lo <= n < hi`: the UIDs issued while the counter went from `lo` to `hi`. */
  predicate Between(lo: int, hi: int, n: int) {
    lo <= n < hi
  }

  /** Mailbox `dst` of `r` holds under `n` the copy of `s` filed there. */
  ghost predicate FiledFrom(r: Store, n: int, dst: string, s: Stored) {
    dst in r.boxes && n in r.boxes[dst] && r.boxes[dst][n] == Filed(s, n, dst)
  }

  /** Each UID issued by `move` or `copy` between two different mailboxes
      files a named source message with its flags, and each named message
      the source held is filed under one of them. */
  lemma {:induction false} TransferAllIssued(st: Store, uids: seq<int>, src: string, dst: string, remove: bool)
    requires ValidStore(st) && src != dst && src in st.boxes && dst in st.boxes
    ensures var r := TransferAll(st, uids, src, dst, remove);
      && (forall n :: Between(st.next, r.next, n) ==>
            exists u :: u in uids && u in st.boxes[src] && FiledFrom(r, n, dst, st.boxes[src][u]))
      && (forall u :: u in uids && u in st.boxes[src] ==>
            exists n :: st.next <= n < r.next && FiledFrom(r, n, dst, st.boxes[src][u]))
    decreases |uids|
  {
    if uids != [] {
      var u := uids[0];
      var t := Transfer(st, u, src, dst, remove);
      TransferKeepsValid(st, u, src, dst, remove);
      TransferAllIssued(t, uids[1..], src, dst, remove);
      TransferAllFrame(t, uids[1..], src, dst, remove);
      var r := TransferAll(t, uids[1..], src, dst, remove);
      assert r == TransferAll(st, uids, src, dst, remove);
      IssuedStep(st, t, r, uids, src, dst, remove);
    }
  }

  /** The inductive step of `TransferAllIssued`, for the first ref. */
  lemma IssuedStep(st: Store, t: Store, r: Store, uids: seq<int>, src: string, dst: string, remove: bool)
    requires ValidStore(st) && src != dst && src in st.boxes && dst in st.boxes && uids != []
    requires t == Transfer(st, uids[0], src, dst, remove)
    requires t.next <= r.next
    requires dst in r.boxes && forall x :: x in t.boxes[dst] ==> x in r.boxes[dst] && r.boxes[dst][x] == t.boxes[dst][x]
    requires forall n :: Between(t.next, r.next, n) ==>
               exists x :: x in uids[1..] && x in t.boxes[src] && FiledFrom(r, n, dst, t.boxes[src][x])
    requires forall x :: x in uids[1..] && x in t.boxes[src] ==>
               exists n :: t.next <= n < r.next && FiledFrom(r, n, dst, t.boxes[src][x])
    ensures forall n :: Between(st.next, r.next, n) ==>
              exists x :: x in uids && x in st.boxes[src] && FiledFrom(r, n, dst, st.boxes[src][x])
    ensures forall x :: x in uids && x in st.boxes[src] ==>
              exists n :: st.next <= n < r.next && FiledFrom(r, n, dst, st.boxes[src][x])
  {
    var u := uids[0];
    assert u in uids;
    forall x | x in uids[1..] ensures x in uids { }
    if u in st.boxes[src] {
      assert t.next == st.next + 1;
      assert st.next in t.boxes[dst] && t.boxes[dst][st.next] == Filed(st.boxes[src][u], st.next, dst);
      forall n | Between(st.next, r.next, n)
        ensures exists x :: x in uids && x in st.boxes[src] && FiledFrom(r, n, dst, st.boxes[src][x])
      {
        if n == st.next {
          assert FiledFrom(r, n, dst, st.boxes[src][u]);
        } else {
          assert Between(t.next, r.next, n);
          var x :| x in uids[1..] && x in t.boxes[src] && FiledFrom(r, n, dst, t.boxes[src][x]);
          assert x in st.boxes[src] && t.boxes[src][x] == st.boxes[src][x];
        }
      }
      forall x | x in uids && x in st.boxes[src]
        ensures exists n :: st.next <= n < r.next && FiledFrom(r, n, dst, st.boxes[src][x])
      {
        if x == u {
          assert FiledFrom(r, st.next, dst, st.boxes[src][x]);
        } else {
          assert x in uids[1..] && x in t.boxes[src] && t.boxes[src][x] == st.boxes[src][x];
        }
      }
    } else {
      assert t == st;
      forall x | x in uids && x in st.boxes[src]
        ensures exists n :: st.next <= n < r.next && FiledFrom(r, n, dst, st.boxes[src][x])
      {
        assert x != u;
        assert x in uids[1..];
      }
    }
  }

  // ---------------------------------------------------------------------
  // Ascending listing of a set of UIDs
  // ---------------------------------------------------------------------

  lemma AppendAscending(s: seq<int>, m: int)
    requires Ascending(s) && forall u :: u in s ==> u < m
    ensures Ascending(s + [m])
  {
    forall i, j | 0 <= i < j < |s| + 1 ensures (s + [m])[i] < (s + [m])[j] {
      if j == |s| {
        assert s[i] in s;
      }
    }
  }

  /** A non-empty set of UIDs has an element. */
  lemma SomeUid(s: set<int>)
    requires s != {}
    ensures exists m :: m in s
  {
    assert (forall m :: m !in s) ==> s == {};
  }

  lemma {:induction false} UidMinExists(s: set<int>)
    requires s != {}
    ensures exists m :: m in s && forall x :: x in s ==> m <= x
    decreases |s|
  {
    SomeUid(s);
    var y :| y in s;
    if s != {y} {
      UidMinExists(s - {y});
      var m :| m in s - {y} && forall x :: x in s - {y} ==> m <= x;
      if y < m {
        forall x | x in s ensures y <= x {
          if x != y { assert x in s - {y}; }
        }
      } else {
        forall x | x in s ensures m <= x {
          if x != y { assert x in s - {y}; }
        }
      }
    } else {
      assert forall x :: x in s ==> y <= x;
    }
  }

  // ---------------------------------------------------------------------
  // The loops of the store, on one mailbox
  // ---------------------------------------------------------------------

  lemma WithFlagsStep(box: Box, uids: set<int>, u: int, flags: set<string>, add: bool)
    ensures var r := WithFlags(box, uids, flags, add);
      WithFlags(box, uids + {u}, flags, add) ==
        if u in r then r[u := r[u].(flags := if add then r[u].flags + flags else r[u].flags - flags)] else r
  {
    var r := WithFlags(box, uids, flags, add);
    if u in r {
      if u in uids {
        assert r[u].flags + flags == r[u].flags || !add;
        assert r[u].flags - flags == r[u].flags || add;
      }
    }
  }

  /** The flag loop of `add_flags` / `remove_flags` over one mailbox. */
  method UpdateFlags(box: Box, refs: seq<EmailRef>, flags: set<string>, add: bool) returns (r: Box)
    ensures r == WithFlags(box, UidSet(refs), flags, add)
  {
    r := box;
    var i := 0;
    while i < |refs|
      invariant 0 <= i <= |refs|
      invariant r == WithFlags(box, UidSet(refs[..i]), flags, add)
    {
      var u := refs[i].uid;
      WithFlagsStep(box, UidSet(refs[..i]), u, flags, add);
      if u in r {
        r := r[u := r[u].(flags := if add then r[u].flags + flags else r[u].flags - flags)];
      }
      assert UidSet(refs[..i + 1]) == UidSet(refs[..i]) + {u} by {
        assert refs[..i + 1] == refs[..i] + [refs[i]];
      }
      i := i + 1;
    }
    assert refs[..|refs|] == refs;
  }

  /** Dropping the `\Deleted` UIDs leaves the expunged box. */
  lemma ExpungedIsRemoval(box: Box)
    ensures box - (set u | u in box && DeletedFlag in box[u].flags) == Expunged(box)
  {
    var deleted := set u | u in box && DeletedFlag in box[u].flags;
    assert (box - deleted).Keys == Expunged(box).Keys;
  }

  /** The deletion loop of `expunge`: collect the `\Deleted` UIDs, then drop them. */
  method ExpungeBox(box: Box) returns (r: Box)
    ensures r == Expunged(box)
  {
    r := box;
    var toDelete := set u | u in box && DeletedFlag in box[u].flags;
    ghost var deleted := toDelete;
    while toDelete != {}
      invariant toDelete <= deleted
      invariant r == box - (deleted - toDelete)
      decreases |toDelete|
    {
      SomeUid(toDelete);
      var u :| u in toDelete;
      assert r - {u} == box - (deleted - (toDelete - {u}));
      r := r - {u};
      toDelete := toDelete - {u};
    }
    assert toDelete == {};
    ExpungedIsRemoval(box);
  }

  /** `sum(1 for s in box.values() if "\Seen" not in s.flags)` */
  method CountUnseen(box: Box) returns (unseen: int)
    ensures unseen == |UnseenUids(box)|
  {
    var rest := box.Keys;
    unseen := 0;
    ghost var counted: set<int> := {};
    while rest != {}
      invariant rest <= box.Keys
      invariant counted == set u | u in box && u !in rest && SeenFlag !in box[u].flags
      invariant unseen == |counted|
      decreases |rest|
    {
      SomeUid(rest);
      var u :| u in rest;
      if SeenFlag !in box[u].flags {
        unseen := unseen + 1;
        counted := counted + {u};
      }
      rest := rest - {u};
    }
    assert counted == UnseenUids(box);
  }

  /** The scan of `_matching_uids_asc` over one mailbox: the UIDs, smallest
      first, whose message matches the query. */
  method MatchingUids(box: Box, parts: seq<string>) returns (uids: seq<int>)
    ensures Ascending(uids)
    ensures forall u :: u in uids <==> u in box && Matches(box[u], parts)
  {
    ghost var matching := set u | u in box && Matches(box[u], parts);
    var rest := box.Keys;
    uids := [];
    while rest != {}
      invariant rest <= box.Keys
      invariant Ascending(uids)
      invariant forall u :: u in uids <==> u in matching && u !in rest
      invariant forall u, v :: u in uids && v in rest ==> u < v
      decreases |rest|
    {
      UidMinExists(rest);
      var m :| m in rest && forall x :: x in rest ==> m <= x;
      if Matches(box[m], parts) {
        AppendAscending(uids, m);
        uids := uids + [m];
      }
      rest := rest - {m};
    }
  }

  class FakeImapClient {
    var mailboxes: map<string, Box>
    var nextUid: int
    /** When set, the next operation fails and clears it. */
    var failNext: bool

    ghost function State(): Store
      reads this
    {
      Store(mailboxes, nextUid)
    }

    ghost predicate Valid()
      reads this
    {
      ValidStore(State())
    }

    constructor ()
      ensures mailboxes == map[] && nextUid == 1 && !failNext && Valid()
    {
      mailboxes := map[];
      nextUid := 1;
      failNext := false;
    }

    /** `_ensure_mailbox` */
    method EnsureMailbox(name: string)
      requires Valid()
      modifies this
      ensures Valid()
      ensures mailboxes == Ensure(old(mailboxes), name)
      ensures nextUid == old(nextUid) && failNext == old(failNext)
    {
      EnsureKeepsValid(State(), name);
      if name !in mailboxes {
        mailboxes := mailboxes[name := map[]];
      }
    }

    /** `_alloc_uid`: the counter's value, which is above every UID in use;
        the counter moves on by one. */
    method AllocUid() returns (uid: int)
      requires Valid()
      modifies this
      ensures uid == old(nextUid) && nextUid == uid + 1 && uid >= 1
      ensures forall m, u :: m in mailboxes && u in mailboxes[m] ==> u < uid
      ensures mailboxes == old(mailboxes) && failNext == old(failNext)
    {
      uid := nextUid;
      nextUid := nextUid + 1;
    }

    /** `_maybe_fail`: reports (and clears) the failure switch. */
    method MaybeFail() returns (failed: bool)
      modifies this
      ensures failed == old(failNext) && !failNext
      ensures mailboxes == old(mailboxes) && nextUid == old(nextUid)
    {
      failed := failNext;
      failNext := false;
    }

    /** `add_parsed_message`: files a copy of the message under a new UID. */
    method AddParsedMessage(mailbox: string, msg: Message, flags: set<string>) returns (r: Result<EmailRef, string>)
      requires Valid()
      modifies this
      ensures Valid() && !failNext
      ensures old(failNext) ==> r == Err(ForcedFailure) && State() == old(State())
      ensures !old(failNext) ==>
                && r == Ok(EmailRef(old(nextUid), mailbox))
                && nextUid == old(nextUid) + 1
                && mailboxes == old(mailboxes)[mailbox := BoxOf(old(mailboxes), mailbox)[old(nextUid) := Filed(Stored(msg, flags), old(nextUid), mailbox)]]
    {
      var failed := MaybeFail();
      if failed {
        return Err(ForcedFailure);
      }
      ghost var st := State();
      FileKeepsValid(st, mailbox, Stored(msg, flags));
      EnsureMailbox(mailbox);
      var uid := AllocUid();
      var ref := EmailRef(uid, mailbox);
      EnsureThenFile(st.boxes, mailbox, uid, Filed(Stored(msg, flags), uid, mailbox));
      mailboxes := mailboxes[mailbox := mailboxes[mailbox][uid := Stored(msg.(ref := ref), flags)]];
      r := Ok(ref);
    }

    /** `_matching_uids_asc`: the criteria string and, in ascending order,
        the UIDs of the mailbox whose message matches the query. */
    method MatchingUidsAsc(mailbox: string, parts: seq<string>) returns (criteria: string, uids: seq<int>)
      ensures criteria == CriteriaOf(parts)
      ensures Ascending(uids)
      ensures forall u :: u in uids <==> u in BoxOf(mailboxes, mailbox) && Matches(BoxOf(mailboxes, mailbox)[u], parts)
    {
      criteria := CriteriaOf(parts);
      uids := MatchingUids(BoxOf(mailboxes, mailbox), parts);
    }

    /** `search_page`: the page of the matching UIDs in the anchor's window,
        cut by the client's page rules; an empty slice of a non-empty window
        still reports the window's size. */
    method SearchPage(mailbox: string, parts: seq<string>, pageSize: int,
                      beforeUid: Option<int>, afterUid: Option<int>)
      returns (r: Result<PagedSearchResult, string>, ghost all: seq<int>)
      requires Valid()
      modifies this
      ensures State() == old(State()) && !failNext && Valid()
      ensures old(failNext) ==> r == Err(ForcedFailure)
      ensures !old(failNext) && AnchorOf(beforeUid, afterUid).Err? ==> r.Err?
      ensures Ascending(all)
      ensures forall u :: u in all <==> u in BoxOf(mailboxes, mailbox) && Matches(BoxOf(mailboxes, mailbox)[u], parts)
      ensures !old(failNext) && AnchorOf(beforeUid, afterUid).Ok? ==>
                var a := AnchorOf(beforeUid, afterUid).value;
                r == Ok(CutPage(mailbox, WindowOf(all, a), pageSize, a, |WindowOf(all, a)|))
    {
      var failed := MaybeFail();
      var criteria, uids := MatchingUidsAsc(mailbox, parts);
      all := uids;
      if failed {
        return Err(ForcedFailure), all;
      }
      var anchor := AnchorOf(beforeUid, afterUid);
      if anchor.Err? {
        return Err(anchor.error), all;
      }
      var window := WindowOf(uids, anchor.value);
      r := Ok(CutPage(mailbox, window, pageSize, anchor.value, |window|));
    }

    /** `search`: the refs of the tail page of `limit`, that is the newest
        `limit` UIDs of the mailbox's matching messages (ghost `all`, ascending),
        newest first. */
    method Search(mailbox: string, parts: seq<string>, limit: int)
      returns (r: Result<seq<EmailRef>, string>, ghost all: seq<int>)
      requires Valid()
      modifies this
      ensures State() == old(State()) && !failNext && Valid()
      ensures r.Err? <==> old(failNext)
      ensures r.Ok? ==> Descending(r.value)
      ensures r.Ok? ==> forall i :: 0 <= i < |r.value| ==>
                r.value[i].mailbox == mailbox && r.value[i].uid in BoxOf(mailboxes, mailbox)
                && Matches(BoxOf(mailboxes, mailbox)[r.value[i].uid], parts)
      ensures r.Ok? && limit >= 1 ==> |r.value| <= limit
      ensures r.Ok? && limit >= 1 && r.value == [] ==>
                forall u :: u in BoxOf(mailboxes, mailbox) ==> !Matches(BoxOf(mailboxes, mailbox)[u], parts)
      ensures Ascending(all)
      ensures forall u :: u in all <==> u in BoxOf(mailboxes, mailbox) && Matches(BoxOf(mailboxes, mailbox)[u], parts)
      ensures r.Ok? ==> r.value == NewestFirst(mailbox, PyLast(all, limit))
    {
      var page;
      page, all := SearchPage(mailbox, parts, limit, None, None);
      if page.Err? {
        return Err(page.error), all;
      }
      FakePageBounds(mailbox, all, limit, Tail);
      WindowTail(all);
      if limit >= 1 && all != [] {
        CutPageContents(mailbox, all, limit, Tail, |all|);
      }
      CutPageRefs(mailbox, all, limit, Tail, |all|);
      r := Ok(page.value.refs);
    }

    /** `uid_search`: every matching UID, ascending, in one search. */
    method UidSearch(mailbox: string, parts: seq<string>) returns (r: Result<seq<int>, string>)
      modifies this
      ensures State() == old(State()) && !failNext
      ensures old(failNext) ==> r == Err(ForcedFailure)
      ensures r.Ok? ==> Ascending(r.value)
      ensures r.Ok? ==> forall u :: u in r.value <==> u in BoxOf(mailboxes, mailbox) && Matches(BoxOf(mailboxes, mailbox)[u], parts)
      ensures !old(failNext) ==> r.Ok?
    {
      var failed := MaybeFail();
      if failed {
        return Err(ForcedFailure);
      }
      var criteria, uids := MatchingUidsAsc(mailbox, parts);
      r := Ok(uids);
    }

    /** `add_flags` (`add`) and `remove_flags`: no refs do nothing, refs in
        two mailboxes are an error, and otherwise the flags of each addressed
        message of that mailbox are united with (or stripped of) `flags`. A
        mailbox that does not exist is left absent. */
    method ChangeFlags(refs: seq<EmailRef>, flags: set<string>, add: bool) returns (r: Result<(), string>)
      requires Valid()
      modifies this
      ensures Valid() && !failNext && nextUid == old(nextUid)
      ensures r.Err? <==> old(failNext) || (refs != [] && !SameMailbox(refs))
      ensures r.Err? || refs == [] ==> mailboxes == old(mailboxes)
      ensures r.Ok? ==> mailboxes == AfterFlags(old(mailboxes), refs, flags, add)
    {
      var failed := MaybeFail();
      if failed {
        return Err(ForcedFailure);
      }
      if refs == [] {
        return Ok(());
      }
      var same := AssertSameMailbox(refs, if add then "add_flags" else "remove_flags");
      if same.Err? {
        return Err(same.error);
      }
      var mailbox := same.value;
      if mailbox !in mailboxes {
        return Ok(());
      }
      WithFlagsKeepsValid(State(), mailbox, UidSet(refs), flags, add);
      var box := UpdateFlags(mailboxes[mailbox], refs, flags, add);
      mailboxes := mailboxes[mailbox := box];
      r := Ok(());
    }

    /** `expunge`: the mailbox loses exactly its messages flagged `\Deleted`. */
    method Expunge(mailbox: string) returns (r: Result<(), string>)
      requires Valid()
      modifies this
      ensures Valid() && !failNext && nextUid == old(nextUid)
      ensures r.Err? <==> old(failNext)
      ensures r.Err? ==> mailboxes == old(mailboxes)
      ensures r.Ok? ==> mailboxes == if mailbox in old(mailboxes)
                                     then old(mailboxes)[mailbox := Expunged(old(mailboxes)[mailbox])]
                                     else old(mailboxes)
    {
      var failed := MaybeFail();
      if failed {
        return Err(ForcedFailure);
      }
      if mailbox !in mailboxes {
        return Ok(());
      }
      RemoveKeepsValid(State(), mailbox, set u | u in mailboxes[mailbox] && DeletedFlag in mailboxes[mailbox][u].flags);
      var box := ExpungeBox(mailboxes[mailbox]);
      mailboxes := mailboxes[mailbox := box];
      r := Ok(());
    }

    /** `list_mailboxes`: the mailbox names in sorted order. */
    method ListMailboxes() returns (r: Result<seq<string>, string>)
      modifies this
      ensures State() == old(State()) && !failNext
      ensures old(failNext) ==> r == Err(ForcedFailure)
      ensures !old(failNext) ==> r == Ok(SortedSet(mailboxes.Keys))
    {
      var failed := MaybeFail();
      if failed {
        return Err(ForcedFailure);
      }
      var names := SortStrings(mailboxes.Keys);
      r := Ok(names);
    }

    /** `mailbox_status`: the mailbox size and the number of its messages
        without `\Seen`; an absent mailbox counts as empty. */
    method MailboxStatus(mailbox: string) returns (r: Result<map<string, int>, string>)
      modifies this
      ensures State() == old(State()) && !failNext
      ensures old(failNext) ==> r == Err(ForcedFailure)
      ensures !old(failNext) ==>
                r == Ok(map["messages" := |BoxOf(mailboxes, mailbox)|, "unseen" := |UnseenUids(BoxOf(mailboxes, mailbox))|])
    {
      var failed := MaybeFail();
      if failed {
        return Err(ForcedFailure);
      }
      var box := BoxOf(mailboxes, mailbox);
      var unseen := CountUnseen(box);
      r := Ok(map["messages" := |box|, "unseen" := unseen]);
    }

    /** `move` (`remove`) and `copy`: no refs do nothing; a ref outside
        `src` is an error before anything changes; otherwise the destination
        is created if missing and the refs are transferred one by one. */
    method MoveOrCopy(refs: seq<EmailRef>, src: string, dst: string, remove: bool) returns (r: Result<(), string>)
      requires Valid()
      modifies this
      ensures Valid() && !failNext
      ensures r.Err? <==> old(failNext) || exists x :: x in refs && x.mailbox != src
      ensures r.Err? || refs == [] ==> State() == old(State())
      ensures r.Ok? && refs != [] ==>
                State() == TransferAll(Store(Ensure(old(mailboxes), dst), old(nextUid)), UidsOf(refs), src, dst, remove)
    {
      var failed := MaybeFail();
      if failed {
        return Err(ForcedFailure);
      }
      if refs == [] {
        return Ok(());
      }
      var sameSource := AllFrom(refs, src);
      if !sameSource {
        return Err(if remove then "All EmailRef.mailbox must match src_mailbox for move()"
                   else "All EmailRef.mailbox must match src_mailbox for copy()");
      }
      EnsureMailbox(dst);
      TransferAllKeepsValid(State(), UidsOf(refs), src, dst, remove);
      mailboxes, nextUid := TransferLoop(Store(mailboxes, nextUid), UidsOf(refs), src, dst, remove);
      r := Ok(());
    }

    /** `create_mailbox` */
    method CreateMailbox(name: string) returns (r: Result<(), string>)
      requires Valid()
      modifies this
      ensures Valid() && !failNext && nextUid == old(nextUid)
      ensures old(failNext) ==> r == Err(ForcedFailure) && mailboxes == old(mailboxes)
      ensures !old(failNext) ==> r == Ok(()) && mailboxes == Ensure(old(mailboxes), name)
    {
      var failed := MaybeFail();
      if failed {
        return Err(ForcedFailure);
      }
      EnsureMailbox(name);
      r := Ok(());
    }

    /** `delete_mailbox`: the mailbox and its messages are gone; an absent
        name is not an error. */
    method DeleteMailbox(name: string) returns (r: Result<(), string>)
      requires Valid()
      modifies this
      ensures Valid() && !failNext && nextUid == old(nextUid)
      ensures old(failNext) ==> r == Err(ForcedFailure) && mailboxes == old(mailboxes)
      ensures !old(failNext) ==> r == Ok(()) && mailboxes == old(mailboxes) - {name}
    {
      var failed := MaybeFail();
      if failed {
        return Err(ForcedFailure);
      }
      if name in mailboxes {
        RemoveKeepsValid(State(), name, {});
      }
      mailboxes := mailboxes - {name};
      r := Ok(());
    }
  }

  /** What a page of the store holds: only UIDs of the window (below
      `before_uid`, above `after_uid`), all matching, newest first, at most
      `pageSize` of them, and a non-empty page reports the window's size. */
  lemma FakePageBounds(mailbox: string, all: seq<int>, pageSize: int, anchor: Anchor)
    requires Ascending(all)
    ensures var w := WindowOf(all, anchor);
      var r := CutPage(mailbox, w, pageSize, anchor, |w|);
      && Descending(r.refs)
      && (forall i :: 0 <= i < |r.refs| ==> r.refs[i].mailbox == mailbox && r.refs[i].uid in all && Keep(anchor, r.refs[i].uid))
      && (pageSize >= 1 ==> |r.refs| <= pageSize)
      && r.total == |w|
  {
    var w := WindowOf(all, anchor);
    WindowAscending(all, anchor);
    WindowMembers(all, anchor);
    CutPageSlice(mailbox, w, pageSize, anchor, |w|);
    if pageSize >= 1 && w != [] {
      CutPageContents(mailbox, w, pageSize, anchor, |w|);
    }
  }
}
