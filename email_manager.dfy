/** The manager's flag operations over the in-memory store: bulk add and
    remove with an empty-input guard, the system-flag wrappers of section
    2.3.2 of RFC 3501, the mark-everything-seen loop, and the criteria of
    `fetch_latest`. */
module EmailManager {
  import opened Wrappers
  import opened Paging
  import opened ImapQuery
  import opened FakeImap
  import opened ImapClient

  const AnsweredFlag := "\\Answered"

  /** The distinct system flags the wrappers use. */
  lemma SystemFlagsDistinct()
    ensures SeenFlag != FlaggedFlag && SeenFlag != DeletedFlag && FlaggedFlag != DeletedFlag
    ensures AnsweredFlag != SeenFlag && DraftFlag != SeenFlag
  {
  }

  /** Which flag each wrapper touches, and whether it adds or removes it. */
  datatype Wrapper = MarkSeen | MarkUnseen | Flag | Unflag | Delete | Undelete

  function WrapperFlag(w: Wrapper): (f: string)
    ensures w in {MarkSeen, MarkUnseen} ==> f == SeenFlag
    ensures w in {Flag, Unflag} ==> f == FlaggedFlag
    ensures w in {Delete, Undelete} ==> f == DeletedFlag
  {
    match w
    case MarkSeen | MarkUnseen => SeenFlag
    case Flag | Unflag => FlaggedFlag
    case Delete | Undelete => DeletedFlag
  }

  function WrapperAdds(w: Wrapper): (add: bool)
    ensures add <==> w in {MarkSeen, Flag, Delete}
  {
    w.MarkSeen? || w.Flag? || w.Delete?
  }

  /** `fetch_latest`: the query holds `UNSEEN` exactly when asked for. */
  function LatestParts(unseenOnly: bool): (parts: seq<string>)
    ensures unseenOnly ==> parts == ["UNSEEN"]
    ensures !unseenOnly ==> parts == []
  {
    if unseenOnly then [FlagKeyword(Unseen)] else []
  }

  /** Marking some UIDs `\Seen` leaves unseen exactly the other unseen ones. */
  lemma UnseenAfterMark(box: Box, uids: set<int>)
    ensures UnseenUids(WithFlags(box, uids, {SeenFlag}, true)) == UnseenUids(box) - uids
  {
  }

  /** Marking twice is marking the union. */
  lemma MarkTwice(box: Box, a: set<int>, b: set<int>)
    ensures WithFlags(WithFlags(box, a, {SeenFlag}, true), b, {SeenFlag}, true) == WithFlags(box, a + b, {SeenFlag}, true)
  {
    var l := WithFlags(WithFlags(box, a, {SeenFlag}, true), b, {SeenFlag}, true);
    var r := WithFlags(box, a + b, {SeenFlag}, true);
    forall u | u in box ensures l[u] == r[u] {
      if u in a && u in b {
        assert box[u].flags + {SeenFlag} + {SeenFlag} == box[u].flags + {SeenFlag};
      }
    }
  }

  /** Once nothing is unseen, the marked box is the box with every message marked. */
  lemma MarkedAll(box: Box, marked: set<int>)
    requires UnseenUids(WithFlags(box, marked, {SeenFlag}, true)) == {}
    ensures WithFlags(box, marked, {SeenFlag}, true) == WithFlags(box, box.Keys, {SeenFlag}, true)
  {
    var l := WithFlags(box, marked, {SeenFlag}, true);
    forall u | u in box ensures l[u] == WithFlags(box, box.Keys, {SeenFlag}, true)[u] {
      if u !in marked {
        assert u !in UnseenUids(l);
        assert box[u].flags + {SeenFlag} == box[u].flags;
      }
    }
  }

  /** The UIDs of a nonempty run of refs are its head's UID and the rest's. */
  lemma UidSetCons(refs: seq<EmailRef>)
    requires refs != []
    ensures UidSet(refs) == {refs[0].uid} + UidSet(refs[1..])
  {
    assert refs == [refs[0]] + refs[1..];
  }

  /** The tail of a descending run is descending and below its head. */
  lemma DescendingTail(refs: seq<EmailRef>)
    requires refs != [] && Descending(refs)
    ensures Descending(refs[1..])
    ensures refs[0].uid !in UidSet(refs[1..])
  {
    var rest := refs[1..];
    forall i, j | 0 <= i < j < |rest| ensures rest[i].uid > rest[j].uid {
      assert rest[i] == refs[i + 1] && rest[j] == refs[j + 1];
    }
    forall x | x in rest ensures x.uid != refs[0].uid {
      var j :| 0 <= j < |rest| && rest[j] == x;
      assert refs[j + 1] == x;
    }
  }

  /** Refs in strictly descending UID order name as many UIDs as there are refs. */
  lemma {:induction false} DescendingDistinct(refs: seq<EmailRef>)
    requires Descending(refs)
    ensures |UidSet(refs)| == |refs|
  {
    if refs != [] {
      DescendingTail(refs);
      DescendingDistinct(refs[1..]);
      UidSetCons(refs);
    }
  }

  /** The mailboxes once the UIDs `marked` of one mailbox are marked `\Seen`. */
  ghost function Marking(boxes: map<string, Box>, mailbox: string, marked: set<int>): map<string, Box> {
    if mailbox in boxes then boxes[mailbox := WithFlags(boxes[mailbox], marked, {SeenFlag}, true)] else boxes
  }

  /** Marking a set of unseen UIDs leaves unseen the others, and their count
      falls by the size of the set. */
  lemma {:induction false} MarkedCount(box: Box, marked: set<int>)
    requires marked <= UnseenUids(box)
    ensures UnseenUids(WithFlags(box, marked, {SeenFlag}, true)) == UnseenUids(box) - marked
    ensures |UnseenUids(WithFlags(box, marked, {SeenFlag}, true))| == |UnseenUids(box)| - |marked|
  {
    UnseenAfterMark(box, marked);
    var u := UnseenUids(box);
    assert u == (u - marked) + marked;
  }

  /** One batch of `mark_all_seen`: flagging a descending batch of refs to
      messages of the mailbox that the `UNSEEN` search matched extends the
      marked set by exactly the batch. */
  lemma {:induction false} BatchStep(boxes: map<string, Box>, mailbox: string, marked: set<int>, refs: seq<EmailRef>)
    requires marked <= UnseenUids(BoxOf(boxes, mailbox))
    requires refs != [] && Descending(refs)
    requires forall i :: 0 <= i < |refs| ==>
               && refs[i].mailbox == mailbox
               && refs[i].uid in BoxOf(Marking(boxes, mailbox, marked), mailbox)
               && Matches(BoxOf(Marking(boxes, mailbox, marked), mailbox)[refs[i].uid], LatestParts(true))
    ensures mailbox in boxes && SameMailbox(refs)
    ensures AfterFlags(Marking(boxes, mailbox, marked), refs, {SeenFlag}, true) == Marking(boxes, mailbox, marked + UidSet(refs))
    ensures marked + UidSet(refs) <= UnseenUids(BoxOf(boxes, mailbox))
    ensures |marked + UidSet(refs)| == |marked| + |refs| <= |UnseenUids(BoxOf(boxes, mailbox))|
  {
    BatchUnseen(boxes, mailbox, marked, refs);
    DescendingDistinct(refs);
    MarkTwice(boxes[mailbox], marked, UidSet(refs));
    DisjointCount(UnseenUids(boxes[mailbox]), marked, UidSet(refs));
  }

  /** The refs of an `UNSEEN` batch name unseen messages not yet marked. */
  lemma BatchUnseen(boxes: map<string, Box>, mailbox: string, marked: set<int>, refs: seq<EmailRef>)
    requires refs != []
    requires forall i :: 0 <= i < |refs| ==>
               && refs[i].mailbox == mailbox
               && refs[i].uid in BoxOf(Marking(boxes, mailbox, marked), mailbox)
               && Matches(BoxOf(Marking(boxes, mailbox, marked), mailbox)[refs[i].uid], LatestParts(true))
    ensures mailbox in boxes && SameMailbox(refs)
    ensures UidSet(refs) <= UnseenUids(boxes[mailbox]) - marked
  {
    assert refs[0].uid in BoxOf(Marking(boxes, mailbox, marked), mailbox);
    var l := WithFlags(boxes[mailbox], marked, {SeenFlag}, true);
    assert BoxOf(Marking(boxes, mailbox, marked), mailbox) == l;
    UnseenAfterMark(boxes[mailbox], marked);
    forall x | x in UidSet(refs) ensures x in UnseenUids(l) {
      var e :| e in refs && e.uid == x;
      var i :| 0 <= i < |refs| && refs[i] == e;
      MatchesFlagKeywords(l[x], LatestParts(true));
    }
  }

  /** Adding to a subset of `all` some elements of `all` outside it. */
  lemma DisjointCount(all: set<int>, a: set<int>, b: set<int>)
    requires a <= all && b <= all - a
    ensures |a + b| == |a| + |b| <= |all|
  {
    assert all == (all - (a + b)) + (a + b);
  }

  /** Every message without `\Seen` matches the `UNSEEN` query. */
  lemma UnseenMatches(st: Stored)
    requires SeenFlag !in st.flags
    ensures Matches(st, LatestParts(true))
  {
  }

  /** A search for unseen messages that finds none, with a positive limit,
      means every message of the mailbox is marked. */
  lemma NoneUnseen(boxes: map<string, Box>, mailbox: string, marked: set<int>)
    requires mailbox in boxes
    requires forall u :: u in BoxOf(Marking(boxes, mailbox, marked), mailbox) ==>
               !Matches(BoxOf(Marking(boxes, mailbox, marked), mailbox)[u], LatestParts(true))
    ensures WithFlags(boxes[mailbox], marked, {SeenFlag}, true) == WithFlags(boxes[mailbox], boxes[mailbox].Keys, {SeenFlag}, true)
  {
    var l := WithFlags(boxes[mailbox], marked, {SeenFlag}, true);
    assert BoxOf(Marking(boxes, mailbox, marked), mailbox) == l;
    forall u | u in UnseenUids(l) ensures false {
      UnseenMatches(l[u]);
    }
    MarkedAll(boxes[mailbox], marked);
  }

  class Manager {
    const store: FakeImapClient

    constructor (store: FakeImapClient)
      ensures this.store == store
    {
      this.store := store;
    }

    /** `add_flags` (`add`) and `remove_flags`: no refs make no call on the
        store at all; otherwise the store's flag update. */
    method ChangeFlags(refs: seq<EmailRef>, flags: set<string>, add: bool) returns (r: Result<(), string>)
      requires store.Valid()
      modifies store
      ensures store.Valid() && store.nextUid == old(store.nextUid)
      ensures refs == [] ==> r == Ok(()) && store.failNext == old(store.failNext) && store.mailboxes == old(store.mailboxes)
      ensures refs != [] ==> !store.failNext && (r.Err? <==> old(store.failNext) || !SameMailbox(refs))
      ensures r.Err? ==> store.mailboxes == old(store.mailboxes)
      ensures r.Ok? ==> store.mailboxes == AfterFlags(old(store.mailboxes), refs, flags, add)
    {
      if refs == [] {
        return Ok(());
      }
      r := store.ChangeFlags(refs, flags, add);
    }

    /** `mark_seen`, `mark_unseen`, `flag`, `unflag`, `delete`, `undelete`:
        each adds or removes exactly its one system flag. */
    method Apply(w: Wrapper, refs: seq<EmailRef>) returns (r: Result<(), string>)
      requires store.Valid()
      modifies store
      ensures store.Valid() && store.nextUid == old(store.nextUid)
      ensures refs == [] ==> r == Ok(()) && store.failNext == old(store.failNext) && store.mailboxes == old(store.mailboxes)
      ensures r.Err? ==> store.mailboxes == old(store.mailboxes)
      ensures r.Ok? ==> store.mailboxes == AfterFlags(old(store.mailboxes), refs, {WrapperFlag(w)}, WrapperAdds(w))
    {
      r := ChangeFlags(refs, {WrapperFlag(w)}, WrapperAdds(w));
    }

    /** The loop of `mark_all_seen`: search for unseen messages `chunkSize`
        at a time and mark each batch seen until a search finds none. The
        ghost `marked` is the set of UIDs marked so far; the count returned
        is its size. */
    method SeenBatches(mailbox: string, chunkSize: int) returns (r: Result<int, string>, ghost marked: set<int>)
      requires store.Valid()
      modifies store
      ensures store.Valid() && store.nextUid == old(store.nextUid) && !store.failNext
      ensures r.Err? <==> old(store.failNext)
      ensures r.Err? ==> marked == {}
      ensures store.mailboxes == Marking(old(store.mailboxes), mailbox, marked)
      ensures marked <= UnseenUids(BoxOf(old(store.mailboxes), mailbox))
      ensures r.Ok? ==> r.value == |marked|
      ensures r.Ok? && chunkSize >= 1 && mailbox in old(store.mailboxes) ==>
                WithFlags(old(store.mailboxes)[mailbox], marked, {SeenFlag}, true)
                == WithFlags(old(store.mailboxes)[mailbox], old(store.mailboxes)[mailbox].Keys, {SeenFlag}, true)
    {
      ghost var boxes0 := store.mailboxes;
      marked := {};
      var total := 0;
      var first := true;
      assert Marking(boxes0, mailbox, marked) == boxes0 by {
        if mailbox in boxes0 {
          assert WithFlags(boxes0[mailbox], marked, {SeenFlag}, true) == boxes0[mailbox];
        }
      }
      while true
        invariant store.Valid() && store.nextUid == old(store.nextUid)
        invariant !first ==> !store.failNext && !old(store.failNext)
        invariant first ==> marked == {} && store.failNext == old(store.failNext)
        invariant store.mailboxes == Marking(boxes0, mailbox, marked)
        invariant marked <= UnseenUids(BoxOf(boxes0, mailbox))
        invariant total == |marked| <= |UnseenUids(BoxOf(boxes0, mailbox))|
        decreases |UnseenUids(BoxOf(boxes0, mailbox))| - total, if first then 1 else 0
      {
        var found;
        ghost var all;
        found, all := store.Search(mailbox, LatestParts(true), chunkSize);
        first := false;
        if found.Err? {
          return Err(found.error), marked;
        }
        var refs := found.value;
        if refs == [] {
          if chunkSize >= 1 && mailbox in boxes0 {
            NoneUnseen(boxes0, mailbox, marked);
          }
          break;
        }
        BatchStep(boxes0, mailbox, marked, refs);
        var res := ChangeFlags(refs, {SeenFlag}, true);
        marked := marked + UidSet(refs);
        total := total + |refs|;
      }
      r := Ok(total);
    }

    /** `mark_all_seen`: the result is the sum of the batch sizes, which is
        the number of messages that were unseen and are now seen; no other
        mailbox changes. With a positive chunk size nothing is left unseen, so
        the mailbox ends with every message marked `\Seen`. */
    method MarkAllSeen(mailbox: string, chunkSize: int) returns (r: Result<int, string>)
      requires store.Valid()
      modifies store
      ensures store.Valid() && store.nextUid == old(store.nextUid) && !store.failNext
      ensures r.Err? <==> old(store.failNext)
      ensures r.Err? ==> store.mailboxes == old(store.mailboxes)
      ensures mailbox !in old(store.mailboxes) ==> store.mailboxes == old(store.mailboxes)
      ensures r.Ok? && mailbox in old(store.mailboxes) ==>
                && store.mailboxes.Keys == old(store.mailboxes).Keys
                && (forall m :: m in old(store.mailboxes) && m != mailbox ==> store.mailboxes[m] == old(store.mailboxes)[m])
                && r.value == |UnseenUids(old(store.mailboxes)[mailbox])| - |UnseenUids(store.mailboxes[mailbox])|
      ensures r.Ok? && chunkSize >= 1 ==>
                && r.value == |UnseenUids(BoxOf(old(store.mailboxes), mailbox))|
                && store.mailboxes == if mailbox in old(store.mailboxes)
                                     then old(store.mailboxes)[mailbox := WithFlags(old(store.mailboxes)[mailbox], old(store.mailboxes)[mailbox].Keys, {SeenFlag}, true)]
                                     else old(store.mailboxes)
    {
      ghost var boxes0 := store.mailboxes;
      ghost var marked;
      r, marked := SeenBatches(mailbox, chunkSize);
      if r.Err? {
        assert WithFlags(BoxOf(boxes0, mailbox), {}, {SeenFlag}, true) == BoxOf(boxes0, mailbox);
      }
      if mailbox in boxes0 {
        MarkedCount(boxes0[mailbox], marked);
        if r.Ok? && chunkSize >= 1 {
          UnseenAfterMark(boxes0[mailbox], boxes0[mailbox].Keys);
        }
      }
    }

    /** The search part of `fetch_latest`: the newest `n` refs, restricted to
        unseen messages exactly when `unseenOnly`; fetching the bodies is not
        part of this model. */
    method FetchLatestRefs(mailbox: string, n: int, unseenOnly: bool)
      returns (r: Result<seq<EmailRef>, string>, ghost all: seq<int>)
      requires store.Valid()
      modifies store
      ensures store.State() == old(store.State()) && !store.failNext
      ensures r.Err? <==> old(store.failNext)
      ensures r.Ok? ==> Descending(r.value)
      ensures r.Ok? && n >= 1 ==> |r.value| <= n
      ensures r.Ok? ==> forall i :: 0 <= i < |r.value| ==>
                r.value[i].mailbox == mailbox && r.value[i].uid in BoxOf(store.mailboxes, mailbox)
                && (unseenOnly ==> SeenFlag !in BoxOf(store.mailboxes, mailbox)[r.value[i].uid].flags)
      ensures Ascending(all)
      ensures forall u :: u in all <==> (u in BoxOf(store.mailboxes, mailbox)
                && (unseenOnly ==> SeenFlag !in BoxOf(store.mailboxes, mailbox)[u].flags))
      ensures r.Ok? ==> r.value == NewestFirst(mailbox, PyLast(all, n))
    {
      r, all := store.Search(mailbox, LatestParts(unseenOnly), n);
    }
  }
}
