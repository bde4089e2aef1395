# email-management in Dafny

This project models the core of the `email-management` Python library and its
FastAPI web back-end, and proves properties of that model. It covers:

- **The IMAP client's paging layer** (`src/openmail/imap/client.py`):
  - the TTL + LRU cache of UID lists;
  - the per-connection `SELECT` cache;
  - UID-window arithmetic and the progressive widening search, with the
    server's `UID SEARCH` (section 6.4.4 of RFC 3501) and `STATUS UIDNEXT`
    passed in as oracles;
  - the page slicing and the has-next / has-prev anchor rules of
    `search_page_cached`;
  - the small parsers and formatters: mailbox arguments, `LIST` flags
    (section 7.2.2 of RFC 3501), `STATUS` pairs (section 6.3.10 of RFC 3501),
    `UIDNEXT` and `APPENDUID`.
- **The in-memory IMAP store used by the tests** (`tests/fake_imap_client.py`):
  - a class over a map from mailbox to UID to stored message, a global UID
    counter and a one-shot failure switch;
  - flag changes, expunge, move, copy, windowed search paging, status and
    mailbox management.
- **The flag wrappers and `mark_all_seen`** (`src/email_management/email_manager.py`),
  running on top of that store.
- **The `SEARCH` query builder** (`src/email_management/imap/query.py`):
  - quoted strings (section 4.3 of RFC 3501);
  - the `DD-Mon-YYYY` date rewrite (`date-text` in section 9 of RFC 3501);
  - the builder methods and `build`.
- **The two multi-account overview endpoints**:
  - `get_email_overview` in `webapp/main.py` and `build_email_overview` in
    `webapp/email_overview.py`;
  - per-account pages come in as a function parameter;
  - the model covers validation, merging, the newest-first sort, truncation,
    per-account anchor advance, cursor emission and the response cache.
- **The cursor codec** (`webapp/utils.py`): URL-safe base 64 (section 5 of
  RFC 4648) with `=` padding stripped and restored, over an abstract JSON
  serialiser.
- **The small decision rules**:
  - session authentication: the start-up check, login, logout, status and
    the request gate (`webapp/auth.py`);
  - the XOAUTH2 initial response and its reply checks
    (`src/email_management/auth/oauth2.py`);
  - first-match provider selection (`webapp/model.py`).

**How the model represents the program**
- Python strings are `seq<char>` and bytes are `seq<int>` in `0..255`.
- Clock readings are integer parameters.
- JSON is an abstract `Codec`, a pair of functions `dumps` and `loads`. Every
  property that needs the serialiser to round-trip takes that as a hypothesis
  (`Json.RoundTrips`), never as an axiom.
- Python's `str.split`, `str.strip`, `str.lower`/`upper` (ASCII letters),
  `int()` on an optional sign and ASCII digits, `str()` of an integer, slices with zero or negative bounds, the
  standard and URL-safe base 64 codecs and UTF-8 encoding are written out in
  `text.dfy`, `paging.dfy` and `base64.dfy`.
- Code that changes state is imperative Dafny:
  - the cache (`SearchCache.TtlLruCache`), the connection state
    (`ImapClient.ConnState`), the query builder (`ImapQuery.Query`), the
    in-memory store (`FakeImap.FakeImapClient`), the manager
    (`EmailManager.Manager`), the login session (`Auth.Session`) and the
    overview response cache (`EmailOverview.OverviewCache`) are classes;
  - the source's loops are `while` loops with invariants, each proved
    against a function that specifies it.
- The client's search path runs `_make_window` exactly as written
  (`ImapWindow.MakeWindowAsWritten`). The corrected older window of the
  first finding is `ImapWindow.MakeWindow`; its page completeness is proved
  for every anchor in `ImapWindow.CorrectedPageComplete`.

## Model

| member | source | states |
|---|---|---|
| SearchCache.TtlLruCache.constructor | src/openmail/imap/client.py:74-78 | a new cache is empty and keeps its key bound and time to live |
| SearchCache.TtlLruCache.Get | src/openmail/imap/client.py:80-90 | an absent key gives nothing and changes nothing; an entry with `expires_at < now` gives nothing and is removed; a live entry returns its UID list and becomes most recently used; keys stay distinct |
| SearchCache.TtlLruCache.Set | src/openmail/imap/client.py:92-98 | the eviction loop leaves the touched dictionary with least recently used entries popped down to `max_keys`; it raises exactly when `max_keys` is negative (popping an empty dictionary) |
| SearchCache.TtlLruCache.Invalidate | src/openmail/imap/client.py:100-107 | `invalidate(None)` empties the cache; `invalidate(m)` drops exactly the keys of mailbox `m` |
| SearchCache.Lookup | src/openmail/imap/client.py:83 | a found value is stored under the key; no value means no slot has the key |
| SearchCache.Drop | src/openmail/imap/client.py:87 | removing keys keeps exactly the slots whose key is not removed |
| SearchCache.SetBounds | src/openmail/imap/client.py:95-98 | after `set` the keys are distinct, at most `max_keys` remain, and the survivors are the most recently used suffix |
| SearchCache.SetLookup | src/openmail/imap/client.py:95-98 | after `set` the key maps to the new entry whenever `max_keys >= 1`; any other key still present keeps the value it had |
| SearchCache.AfterSetSlots | src/openmail/imap/client.py:95-98 | `set` introduces no entry other than the one stored |
| SearchCache.TouchLookup | src/openmail/imap/client.py:89 | moving a key to the end changes no lookup except the touched key's |
| SearchCache.InvalidateProperties | src/openmail/imap/client.py:105-107 | after `invalidate(m)` a key of `m` is absent and every other key has its old value |
| SearchCache.LookupDrop | src/openmail/imap/client.py:87 | a dropped key is absent, others unchanged |
| SearchCache.DropKeepsDistinct | src/openmail/imap/client.py:87 | removal keeps keys distinct |
| SearchCache.TouchDistinct | src/openmail/imap/client.py:95-96 | store-then-move-to-end keeps keys distinct |
| SearchCache.DropDrop | src/openmail/imap/client.py:105-107 | popping key sets one after another is popping their union |
| SearchCache.InvalidateStep | src/openmail/imap/client.py:106-107 | one more pop in the invalidation loop removes one more collected key |
| SearchCache.CollectedKeys | src/openmail/imap/client.py:105 | the collected key list is exactly the keys of the mailbox |
| SearchCache.KeysOf | src/openmail/imap/client.py:105 | the comprehension keeps exactly the keys whose mailbox matches |
| ImapClient.ConnState.constructor | src/openmail/imap/client.py:54-58 | a new connection has nothing selected |
| ImapClient.ConnState.EnsureSelected | src/openmail/imap/client.py:247-265 | no SELECT when the mailbox is already selected read-write, or read-only is wanted and selected; otherwise a successful SELECT of the formatted name records `(mailbox, readonly)` and a failed one raises with the state unchanged; on success the selection covers the request |
| ImapClient.SelectionCoversRules | src/openmail/imap/client.py:248-257 | a read-write selection satisfies both modes, a read-only one only read-only requests, and nothing selected satisfies nothing |
| ImapClient.AssertSameMailbox | src/openmail/imap/client.py:267-278 | succeeds exactly for a non-empty list whose refs share one mailbox, and returns that mailbox |
| ImapClient.GetKeepsAscending | src/openmail/imap/client.py:80-90 | `get` keeps every stored UID list ascending |
| ImapClient.SetKeepsAscending | src/openmail/imap/client.py:92-98 | `set` of an ascending list keeps every stored UID list ascending |
| ImapClient.FreshSearch | src/openmail/imap/client.py:397-463 | the progressive search returns ascending matching UIDs and fails exactly when a newer or tail window needs a `STATUS` that fails (SELECT and SEARCH are taken to succeed); when the loop stopped for enough UIDs or at the mailbox edge (not by running out of rounds), with `1 <= page_size <= max_uids_per_key` and `before_uid >= 2`, the page cut from its UIDs is the page cut from all wanted UIDs |
| ImapClient.Client.constructor | src/openmail/imap/client.py:74-78 | a client starts with an empty cache and its search settings |
| ImapClient.Client.Recall | src/openmail/imap/client.py:531 | the cache read answers the live stored list, which is ascending |
| ImapClient.Client.Store | src/openmail/imap/client.py:519 | the cache write is `set` of the fresh list |
| ImapClient.Client.CachedOrStore | src/openmail/imap/client.py:510-535 | with `refresh` the fresh UIDs are used and stored; otherwise a live cached list wins and a miss stores the fresh UIDs |
| ImapClient.Client.SearchPageCached | src/openmail/imap/client.py:491-578 | both anchors are rejected without touching the cache; otherwise it fails only on a failed `STATUS` or a negative key bound (SELECT and SEARCH are taken to succeed), and the page is the slice of the cached or fresh ascending UIDs; when it cut fresh UIDs and the loop stopped as in `FreshSearch`, the refs are exactly the newest `page_size` wanted UIDs (older than `before_uid`, newer than `after_uid`, or all), newest first |
| ImapClient.Client.Search | src/openmail/imap/client.py:580-587 | refs are strictly descending, in the mailbox, among the matching UIDs, and at most `limit` for a positive limit; when the loop stopped as in `FreshSearch` and every matching UID lies below `UIDNEXT`, they are exactly the newest `limit` matching UIDs, newest first |
| ImapWindow.MakeWindowAsWrittenShape | src/openmail/imap/client.py:344-364 | older windows satisfy `1 <= start <= end = max(1, before_uid - 1)`; a newer window starts at `after_uid + 1` and is empty (`end = start - 1`) exactly when newest < start; the tail window ends at `max(1, uidnext - 1)`; widths are at most the window size; only newer and tail windows can fail |
| ImapWindow.MakeWindowAsWrittenAdmitsAnchor | src/openmail/imap/client.py:347-350 | for `before_uid = 1` the window is `[1, 1]`, which holds a UID not older than the anchor |
| ImapWindow.MakeWindowShape | src/openmail/imap/client.py:347-350 | the corrected older window ends at `before_uid - 1` and is empty exactly when `before_uid <= 1`; for every other input it is the window as written |
| ImapWindow.InWindow | src/openmail/imap/client.py:380-395 | the window filter keeps nothing from an empty window |
| ImapWindow.InWindowMembers | src/openmail/imap/client.py:384-395 | the server's answer holds exactly the matching UIDs between `start` and `end` |
| ImapWindow.InWindowAscending | src/openmail/imap/client.py:395 | an ascending mailbox gives an ascending window answer |
| ImapWindow.SearchInWindow | src/openmail/imap/client.py:366-395 | an empty window asks no server and answers `[]` under the base criteria; otherwise the answer is exactly the matching UIDs in the window |
| ImapWindow.CapSuffix | src/openmail/imap/client.py:457-460 | the memory guard keeps an ascending suffix of at most `max_uids_per_key` UIDs |
| ImapWindow.WidenWindow | src/openmail/imap/client.py:410-456 | the loop fails exactly on a needed `STATUS` failure; each window is `_make_window` as written, of a size within the limits, and the loop ends with enough UIDs, at UID 1 (older/tail), at the newest UID (newer) or after the last round |
| ImapWindow.RefreshProgressive | src/openmail/imap/client.py:397-463 | as `WidenWindow`, and the UIDs returned are the last window's answer after the memory guard |
| ImapWindow.WantedMembers | src/openmail/imap/client.py:340-342 | the UIDs a page is meant to come from: older than `before_uid`, newer than `after_uid`, or all |
| ImapWindow.ProgressivePageComplete | src/openmail/imap/client.py:410-460 | for a window made by `_make_window` as written with `before_uid >= 2`, `1 <= page_size <= max_uids_per_key`, and a loop that stopped for enough UIDs or at the mailbox edge (not after its last round), the page cut from the capped window equals the page cut from all wanted UIDs |
| ImapWindow.CorrectedPageComplete | src/openmail/imap/client.py:340-460 | with the corrected older window (`end = before_uid - 1`), the same holds for every `before_uid`, UID 1 included |
| ImapWindow.AsWrittenRepeatsUidOne | src/openmail/imap/client.py:347-350 | with `_make_window` as written, a page older than UID 1 of a mailbox holding UID 1 returns UID 1, while no UID is older than the anchor |
| ImapWindow.TailWantedIsAll | src/openmail/imap/client.py:340-342 | when every matching UID lies below `UIDNEXT`, a tail page is meant to come from all matching UIDs |
| ImapWindow.OlderPageComplete | src/openmail/imap/client.py:439-446 | the older-page case of the above |
| ImapWindow.NewerPageComplete | src/openmail/imap/client.py:448-452 | the newer-page case of the above |
| ImapWindow.TailPageComplete | src/openmail/imap/client.py:439-446 | the tail-page case of the above |
| ImapWindow.InWindowSplit | src/openmail/imap/client.py:384 | the answer for a window is the answer for its lower part followed by its upper part |
| ImapWindow.SuffixPage | src/openmail/imap/client.py:542-546 | the last `n` UIDs of a window holding `n` of them (or reaching UID 1) are the last `n` of everything below its end |
| ImapWindow.PrefixPage | src/openmail/imap/client.py:544 | the first `n` UIDs of a window holding `n` of them (or reaching the newest UID) are the first `n` of everything above its start |
| Paging.AnchorOf | src/openmail/imap/client.py:505-506 | both anchors at once are an error; otherwise the anchor given, or the tail |
| Paging.SliceIndex | src/openmail/imap/client.py:542-546 | a Python slice bound lands where Python puts it, negative bounds counted from the end and clamped |
| Paging.SliceCounts | src/openmail/imap/client.py:542-546 | for a positive count `s[:n]` is the first `min(n, len)` and `s[-n:]` the last `min(n, len)`; a zero count gives nothing from the front and everything from the back |
| Paging.NewestFirst | src/openmail/imap/client.py:551 | the refs list the UIDs in reverse, all in the searched mailbox |
| Paging.NewestFirstOrder | src/openmail/imap/client.py:551 | reversed ascending UIDs are strictly descending refs |
| Paging.PageUidsRun | src/openmail/imap/client.py:541-546 | older and tail paging take the last `page_size` UIDs, newer paging the first `page_size` |
| Paging.CutPageSlice | src/openmail/imap/client.py:537-578 | no UIDs give the empty page; refs are strictly descending window UIDs of the mailbox; a non-empty page reports the window size as `total` |
| Paging.CutPageContents | src/openmail/imap/client.py:541-551 | a positive page size gives `min(page_size, len)` refs: the newest of the window for older/tail paging, the oldest for newer paging |
| Paging.CutPageAnchors | src/openmail/imap/client.py:552-578 | `next_before_uid` is the oldest page UID exactly when `has_next`, `prev_after_uid` the newest exactly when `has_prev`; an empty page has neither; a tail page never has `has_prev`; an older page always has it; a newer page always has `has_next`; older or tail paging with oldest UID > 1 has `has_next` |
| ImapResponses.FormatMailboxArg | src/openmail/imap/client.py:240-245 | `INBOX` in any case becomes `INBOX`; a name already in quotes is kept; the result is `INBOX` or quoted |
| ImapResponses.FormatMailboxArgIdempotent | src/openmail/imap/client.py:240-245 | formatting twice is formatting once |
| ImapResponses.FormatMailboxArgQuoted | src/openmail/imap/client.py:245 | for a plain name the argument is an RFC 3501 quoted string that reads back as the name |
| ImapResponses.UpperSet | src/openmail/imap/client.py:305 | the flag set is exactly the upper-cased words |
| ImapResponses.ListFlagsRoundTrip | src/openmail/imap/client.py:290-305 | a `LIST` line with a parenthesised flag list parses to the set of its flags upper-cased |
| ImapResponses.ListFlagsParsed | src/openmail/imap/client.py:290-305 | the same, stated through the comprehension |
| ImapResponses.SelectableMembers | src/openmail/imap/client.py:897-918 | the listed names are exactly those of non-empty lines without `\NOSELECT` whose name parses |
| ImapResponses.ListMailboxes | src/openmail/imap/client.py:903-916 | the loop lists those names in line order |
| ImapResponses.UidNextOf | src/openmail/imap/client.py:314-327 | a missing or empty reply fails; a value read is a non-negative integer |
| ImapResponses.UidNextRoundTrip | src/openmail/imap/client.py:324-327 | a reply carrying `UIDNEXT n` reads back as `n` |
| ImapResponses.SearchNumberOf | src/openmail/imap/client.py:324 | the regular-expression search finds the first keyword followed by its spaced numbers |
| ImapResponses.SeqMax | src/openmail/imap/client.py:850 | `max` is a member no smaller than any other |
| ImapResponses.AppendedUid | src/openmail/imap/client.py:839-853 | the UID is the `APPENDUID` one when present, otherwise the largest UID of `SEARCH ALL`; it fails exactly when neither gives one |
| ImapResponses.AppendedUidRoundTrip | src/openmail/imap/client.py:842-844 | a reply carrying `APPENDUID v u` gives `u` |
| ImapResponses.StatusKeyIsLower | src/openmail/imap/client.py:946-963 | every `STATUS` key is stored lower-cased, the five named ones included |
| ImapResponses.MailboxStatus | src/openmail/imap/client.py:920-965 | the method is the specified reading: a failed or empty reply and a reply without `( … )` fail, otherwise the tokens between the first `(` and the last `)` are read pair by pair |
| ImapResponses.StatusFoldMembers | src/openmail/imap/client.py:944-965 | a key is in the result exactly when some pair at an even position names it |
| ImapResponses.StatusFoldValues | src/openmail/imap/client.py:944-965 | the value stored for a key is that of the last pair at an even position that names it and whose value token is an integer; a later non-integer value leaves it alone |
| ImapResponses.StatusFoldKeys | src/openmail/imap/client.py:944-965 | a key is in the result exactly when some such pair names it, and its value is that of the last one |
| ImapResponses.StatusFoldUnnamed | src/openmail/imap/client.py:944-965 | a key that no parsable pair names keeps its earlier value |
| ImapQuery.QuoteEscapes | src/email_management/imap/query.py:14-20 | `_q` is a double quote, the string with a backslash before each backslash and quote, and a double quote |
| ImapQuery.EscapeTwoPasses | src/email_management/imap/query.py:17-19 | doubling backslashes first and then escaping quotes escapes each character once |
| ImapQuery.QuoteRoundTrip | src/email_management/imap/query.py:14-20 | a quoted string reads back, under RFC 3501 `quoted`, as the original text |
| ImapQuery.ImapDate | src/email_management/imap/query.py:9-11 | the rewrite succeeds exactly when `strptime("%Y-%m-%d")` accepts the text |
| ImapQuery.ImapDateOfIso | src/email_management/imap/query.py:9-11 | `YYYY-MM-DD` is rewritten to `DD-Mon-YYYY` exactly for a real calendar date |
| ImapQuery.DateTextRoundTrip | src/email_management/imap/query.py:11 | the rewritten text reads back as the same day, month and year |
| ImapQuery.MonthIndexFinds | src/email_management/imap/query.py:11 | each English month abbreviation names its own month |
| ImapQuery.CriteriaOf | src/openmail/imap/client.py:381 | `build() or "ALL"` is never empty and is `ALL` for no parts |
| ImapQuery.BuildSplits | src/email_management/imap/query.py:104-105 | `build` is `ALL` for no parts, otherwise the parts joined by single spaces, which split back into the parts |
| ImapQuery.Query.constructor | src/email_management/imap/query.py:24-26 | a new query has no parts |
| ImapQuery.Query.AddField | src/email_management/imap/query.py:28-60 | a field method appends exactly `[KEY, _q(s)]` and returns the same query |
| ImapQuery.Query.AddDate | src/email_management/imap/query.py:63-73 | a date method appends `[KEY, DD-Mon-YYYY]` and returns the same query, or raises on a bad date and leaves the parts unchanged |
| ImapQuery.Query.AddFlag | src/email_management/imap/query.py:76-95 | a flag method appends its one keyword and returns the same query |
| ImapQuery.Query.Raw | src/email_management/imap/query.py:97-102 | `raw` appends its tokens in order and returns the same query |
| FakeImap.FakeImapClient.constructor | tests/fake_imap_client.py:24-48 | the store starts with no mailboxes, UID counter 1 and no pending failure |
| FakeImap.Ensure | tests/fake_imap_client.py:50-51 | `_ensure_mailbox` adds an empty mailbox when absent and changes no existing one |
| FakeImap.FakeImapClient.EnsureMailbox | tests/fake_imap_client.py:50-51 | the method is `Ensure` on the store |
| FakeImap.FakeImapClient.AllocUid | tests/fake_imap_client.py:53-56 | returns the counter and increments it; the UID is above every UID in use |
| FakeImap.FakeImapClient.MaybeFail | tests/fake_imap_client.py:58-61 | fails exactly when `fail_next` was set, and clears it |
| FakeImap.FakeImapClient.AddParsedMessage | tests/fake_imap_client.py:97-114 | a forced failure changes nothing; otherwise the message is filed under a fresh UID with its flags and its ref |
| FakeImap.EnsureKeepsValid | tests/fake_imap_client.py:50-51 | adding a mailbox keeps the store invariant: UIDs below the counter, refs matching their address, no UID in two mailboxes |
| FakeImap.FileKeepsValid | tests/fake_imap_client.py:110-114 | filing under the counter keeps the invariant |
| FakeImap.RemoveKeepsValid | tests/fake_imap_client.py:483-491 | removing messages or a mailbox keeps the invariant |
| FakeImap.MatchesFlagKeywords | tests/fake_imap_client.py:118-149 | without `HEADER` a message matches exactly when its flags agree with every flag keyword; `UNSEEN` excludes `\Seen`, `FLAGGED` needs `\Flagged` |
| FakeImap.MatchingUids | tests/fake_imap_client.py:171-183 | the matching UIDs of a mailbox in ascending order |
| FakeImap.FakeImapClient.MatchingUidsAsc | tests/fake_imap_client.py:171-183 | criteria are `build() or "ALL"`; the UIDs are ascending and exactly those of matching messages |
| FakeImap.WindowOf | tests/fake_imap_client.py:208-224 | the anchor filter keeps no more than it is given |
| FakeImap.WindowMembers | tests/fake_imap_client.py:208-224 | the window holds exactly the matching UIDs below `before_uid`, above `after_uid`, or all |
| FakeImap.WindowAscending | tests/fake_imap_client.py:208-224 | the window stays ascending |
| FakeImap.FakeImapClient.SearchPage | tests/fake_imap_client.py:185-258 | a forced failure or both anchors fail with the store unchanged; otherwise the page is cut from the anchor's window with `total` the window size |
| FakeImap.FakePageBounds | tests/fake_imap_client.py:208-258 | the page has strictly descending refs of matching UIDs on the anchor's side, at most `page_size` of them, and `total` is the window size |
| FakeImap.FakeImapClient.Search | tests/fake_imap_client.py:260-262 | descending matching refs of the mailbox, at most `limit`, none only when nothing matches; they are exactly the newest `limit` UIDs of the matching messages, newest first |
| FakeImap.FakeImapClient.UidSearch | tests/fake_imap_client.py:264-272 | ascending UIDs of exactly the matching messages |
| FakeImap.WithFlags | tests/fake_imap_client.py:459-479 | a flag change keeps the mailbox's UIDs |
| FakeImap.WithFlagsKeepsValid | tests/fake_imap_client.py:459-479 | a flag change keeps the store invariant |
| FakeImap.UpdateFlags | tests/fake_imap_client.py:463-468 | the loop unions (or subtracts) the flags on the addressed UIDs the mailbox holds, ignoring others |
| FakeImap.FakeImapClient.ChangeFlags | tests/fake_imap_client.py:459-479 | fails exactly on a forced failure or refs in two mailboxes, changing nothing; empty refs change nothing; otherwise only the addressed messages' flags change |
| FakeImap.AddThenRemove | tests/fake_imap_client.py:459-479 | removing flags after adding them is removing them, and restores messages that lacked them |
| FakeImap.Expunged | tests/fake_imap_client.py:483-491 | expunge keeps exactly the messages without `\Deleted` |
| FakeImap.ExpungeBox | tests/fake_imap_client.py:487-491 | the loop removes the `\Deleted` messages |
| FakeImap.ExpungedIsRemoval | tests/fake_imap_client.py:487-491 | that is the mailbox minus the collected `\Deleted` UIDs |
| FakeImap.FakeImapClient.Expunge | tests/fake_imap_client.py:483-491 | only the named mailbox changes, by `Expunged` |
| FakeImap.DeleteThenExpunge | tests/fake_imap_client.py:483-491 | flagging `\Deleted` and expunging removes exactly the addressed and already deleted messages and leaves the rest as they were |
| FakeImap.FakeImapClient.ListMailboxes | tests/fake_imap_client.py:493-495 | the mailbox names in sorted order |
| FakeImap.CountUnseen | tests/fake_imap_client.py:499-503 | the loop counts the messages without `\Seen` |
| FakeImap.FakeImapClient.MailboxStatus | tests/fake_imap_client.py:497-503 | `messages` is the mailbox size and `unseen` the count lacking `\Seen`; nothing changes |
| FakeImap.UidsOf | tests/fake_imap_client.py:519 | the UIDs of the refs in order |
| FakeImap.AllFrom | tests/fake_imap_client.py:63-73 | true exactly when every ref is in the source mailbox |
| FakeImap.TransferLoop | tests/fake_imap_client.py:519-533 | the loop files each found message under a fresh UID in the destination, removing it from the source for `move` |
| FakeImap.FakeImapClient.MoveOrCopy | tests/fake_imap_client.py:507-560 | a forced failure or a ref outside the source fails with nothing changed; otherwise the store is the transfer of the refs into the ensured destination |
| FakeImap.TransferAllKeepsValid | tests/fake_imap_client.py:507-560 | move and copy keep the store invariant |
| FakeImap.TransferAllFrame | tests/fake_imap_client.py:507-560 | other mailboxes are untouched; `move` removes exactly the named UIDs from the source and `copy` leaves it alone; the destination keeps its messages and gains exactly the fresh UIDs |
| FakeImap.TransferAllOthers | tests/fake_imap_client.py:507-560 | move and copy keep the set of mailboxes, never lower the UID counter, and leave every mailbox other than source and destination as it was |
| FakeImap.TransferAllSource | tests/fake_imap_client.py:524-528 | `move` removes exactly the named UIDs from the source; `copy` leaves it as it was |
| FakeImap.TransferAllDest | tests/fake_imap_client.py:521-533 | the destination keeps every message it had and gains exactly the UIDs issued during the transfer |
| FakeImap.TransferAllIssued | tests/fake_imap_client.py:519-560 | every fresh UID files a named source message with its flags, and every named source message is filed under a fresh UID |
| FakeImap.FakeImapClient.CreateMailbox | tests/fake_imap_client.py:562-564 | creating is `Ensure`, or a forced failure |
| FakeImap.FakeImapClient.DeleteMailbox | tests/fake_imap_client.py:566-568 | deleting removes the mailbox, or a forced failure |
| EmailManager.SystemFlagsDistinct | src/email_management/email_manager.py:15-20 | the RFC 3501 system flags are distinct |
| EmailManager.WrapperFlag | src/email_management/email_manager.py:66-92 | `mark_seen`/`mark_unseen` use `\Seen`, `flag`/`unflag` `\Flagged`, `delete`/`undelete` `\Deleted` |
| EmailManager.WrapperAdds | src/email_management/email_manager.py:66-92 | `mark_seen`, `flag` and `delete` add; the others remove |
| EmailManager.Manager.constructor | src/email_management/email_manager.py:25-28 | a manager over a store |
| EmailManager.Manager.ChangeFlags | src/email_management/email_manager.py:53-63 | empty refs make no call and change nothing; otherwise the store's flag change |
| EmailManager.Manager.Apply | src/email_management/email_manager.py:66-92 | each wrapper adds or removes exactly its one flag on the addressed messages |
| EmailManager.LatestParts | src/email_management/email_manager.py:44-46 | `UNSEEN` is the only criterion, and only when `unseen_only` |
| EmailManager.Manager.FetchLatestRefs | src/email_management/email_manager.py:36-47 | the refs are exactly the newest `n` UIDs of the mailbox (of its unseen messages when `unseen_only`), newest first; nothing changes |
| EmailManager.Manager.SeenBatches | src/email_management/email_manager.py:69-77 | the loop marks a set of unseen messages `\Seen`, returns its size, and with a positive chunk size marks them all |
| EmailManager.Manager.MarkAllSeen | src/email_management/email_manager.py:69-77 | only the mailbox's flags change; the total is the drop in unseen count, and for a positive chunk size every message ends `\Seen` and the total is the number that were unseen |
| EmailManager.UnseenAfterMark | src/email_management/email_manager.py:75 | marking `\Seen` removes exactly the marked UIDs from the unseen set |
| EmailManager.MarkTwice | src/email_management/email_manager.py:71-76 | two marking rounds are one round over the union |
| EmailManager.MarkedAll | src/email_management/email_manager.py:73-74 | when nothing is left unseen, the marked set did the work of marking everything |
| EmailManager.MarkedCount | src/email_management/email_manager.py:75-76 | marking unseen UIDs lowers the unseen count by their number |
| EmailManager.BatchStep | src/email_management/email_manager.py:72-76 | one batch of the unseen search marks new, distinct unseen UIDs and adds its size to the total |
| EmailManager.DescendingDistinct | src/email_management/email_manager.py:76 | `len(refs)` counts distinct UIDs |
| Merge.KeyLessTransitive | webapp/email_overview.py:184-190 | the sort key order is transitive |
| Merge.KeyLessTotal | webapp/email_overview.py:184-190 | the sort key order is total on distinct keys |
| Merge.KeyLessIrreflexive | webapp/email_overview.py:184-190 | no sort key is ordered before itself |
| Merge.Insert | webapp/main.py:146-149 | insertion keeps the entries as a multiset |
| Merge.SortNewestFirst | webapp/main.py:146-149 | the sort is a permutation |
| Merge.SortIsNewestFirst | webapp/main.py:146-149 | the result is newest first under the key |
| Merge.SortStable | webapp/main.py:146-149 | entries with equal keys keep their relative order, as Python's sort does |
| Merge.InsertStable | webapp/main.py:146-149 | one insertion keeps the order of equal keys |
| Merge.Page | webapp/main.py:151-152 | the page holds `min(limit, len)` entries, Python's slice for `limit <= 0` |
| Merge.PageIsNewest | webapp/email_overview.py:190-191 | the page is newest first, drawn from the entries, and no entry left out is newer than one kept |
| Merge.OvsOfMembers | webapp/main.py:154-156 | an account's contributed overviews are exactly its page entries |
| Merge.OvsOfEmpty | webapp/main.py:154-156 | an account contributed nothing exactly when it has no page entry |
| Merge.Contribute | webapp/main.py:154-156 | the grouping loop maps each account on the page to its overviews in page order |
| Merge.SeenIsOvsOf | webapp/main.py:181 | `contributed.get(acc, [])` is the account's page overviews |
| Merge.MinOf | webapp/main.py:191 | `min` is a member no larger than any other |
| Merge.MaxOf | webapp/main.py:205 | `max` is a member no smaller than any other |
| Merge.Render | webapp/main.py:159-172 | one item per page entry in order; an account already on the ref is kept, otherwise the entry's account is stamped |
| Merge.Dedup | webapp/main.py:102-107 | the manager map has each requested account once |
| Merge.FirstUnknown | webapp/main.py:103-106 | the first requested id not in the registry, or none when all are known |
| Merge.KnownAccounts | webapp/main.py:102-107 | the lookup loop fails on the first unknown account, otherwise collects each account once |
| OverviewRoute.ReadState | webapp/main.py:77-85 | a missing member is `Malformed cursor` (400); any other reading failure is a server error; a read state records the mailbox, the direction and exactly the accounts of the cursor |
| OverviewRoute.ReadStateJson | webapp/main.py:233-249 | a state written by the route reads back as itself |
| OverviewRoute.ResumeRoundTrip | webapp/main.py:71-85 | a cursor the route emits decodes back to the state it encodes |
| OverviewRoute.ReadAccountsJson | webapp/main.py:214-221 | each account's written anchors read back |
| OverviewRoute.Resolve | webapp/main.py:68-107 | the validations in order, with the managers being the requested accounts once each |
| OverviewRoute.Validations | webapp/main.py:68-107 | `limit < 1` gives 400, an undecodable cursor 400 `Invalid cursor`, no accounts 400, an unknown account 404 naming it |
| OverviewRoute.FirstPageFetches | webapp/main.py:87-97 | without a cursor the direction is `next`, every account is asked with no anchors and `refresh`, and exactly the requested accounts are fetched |
| OverviewRoute.FetchAll | webapp/main.py:117-142 | fails with a server error exactly when some fetch raises; otherwise gathers the pages, the entries in account order and `total_count` |
| OverviewRoute.Tagged | webapp/main.py:141-142 | each overview is paired with its account in order |
| OverviewRoute.TotalFallback | webapp/main.py:139 | with every `total` zero, `total_count` is the number of gathered entries |
| OverviewRoute.GatheredFrame | webapp/main.py:117-142 | the gathered entries and total depend only on the pages of the listed accounts |
| OverviewRoute.Advance | webapp/main.py:183-221 | the next state keeps `after_uid` and the prev state keeps `before_uid` |
| OverviewRoute.NewStates | webapp/main.py:178-221 | the loop builds the specified next and prev states |
| OverviewRoute.SeenStep | webapp/main.py:181-212 | one account's step from its grouped overviews is the specified step |
| OverviewRoute.StatesStep | webapp/main.py:214-221 | one loop iteration extends both states by one account |
| OverviewRoute.StatesDone | webapp/main.py:178-221 | after all accounts the states are the specified ones |
| OverviewRoute.Build | webapp/main.py:146-259 | sort, slice, render, anchors and cursors give the specified response |
| OverviewRoute.Serve | webapp/main.py:117-259 | fetching then building is the specified answer |
| OverviewRoute.GetEmailOverview | webapp/main.py:50-259 | the route's answer is the specification `OverviewOf` |
| OverviewRoute.PageIsNewestByDate | webapp/main.py:146-152 | `result_count` is `min(limit, entries)`; the page is newest first by date, undated last; no entry left out is newer than one shown |
| OverviewRoute.CursorEmission | webapp/main.py:223-249 | `next_cursor` exactly when the page is non-empty and some account has more older mail; `prev_cursor` exactly when non-empty and some account has a `prev_after_uid`; cursors are non-empty |
| OverviewRoute.MinContributed | webapp/main.py:189-192 | the minimum contributed UID is one of the account's page UIDs and no larger than any |
| OverviewRoute.MaxContributed | webapp/main.py:203-206 | the maximum contributed UID is one of the account's page UIDs and no smaller than any |
| OverviewRoute.NextCursorResumes | webapp/main.py:187-240 | the next cursor reads back with direction `next`, the same mailbox, limit and accounts; `after_uid` unchanged; in the `next` direction a contributing account's `before_uid` is its oldest page UID and a silent account keeps its anchor |
| OverviewRoute.PrevCursorResumes | webapp/main.py:202-249 | the prev cursor reads back with direction `prev`, the same mailbox, limit and accounts; `before_uid` unchanged; in the `prev` direction a contributing account's `after_uid` is its newest page UID |
| EmailOverview.NormalizeSearch | webapp/email_overview.py:37-41 | none, empty or whitespace-only input gives none; otherwise the words joined by single spaces |
| EmailOverview.NormalizeSearchIdempotent | webapp/email_overview.py:37-41 | normalising twice is normalising once |
| EmailOverview.AiCacheKeyIdempotent | webapp/email_overview.py:44-45 | the AI cache key of a key is itself |
| EmailOverview.AiCacheKeyIgnoresCase | webapp/email_overview.py:44-45 | lower-casing the input first changes nothing |
| EmailOverview.AiCacheKeyOfNormalized | webapp/email_overview.py:115-116 | keying the normalised search equals keying the raw text |
| EmailOverview.CollapseLower | webapp/email_overview.py:44-45 | collapsing whitespace and lower-casing commute |
| EmailOverview.CacheKeyTellsApart | webapp/email_overview.py:48-58 | equal keys for the same mailbox, cursor and accounts mean the same limit and the same search |
| EmailOverview.ReadState | webapp/email_overview.py:75-80 | a cursor state reads exactly when it is an object with a string `mailbox` and an object `accounts`; a missing one is a `KeyError` naming it; the accounts and search are the cursor's |
| EmailOverview.SearchOf | webapp/email_overview.py:80-92 | a string search query in the cursor is normalised |
| EmailOverview.PlanRequest | webapp/email_overview.py:72-100 | the method is the specified plan: validation, cursor or request, accounts, normalised search and cache key |
| EmailOverview.AnchorsOf | webapp/email_overview.py:142-143 | each requested account has an anchor |
| EmailOverview.ReadAnchors | webapp/email_overview.py:140-143 | the loop reads the specified anchors |
| EmailOverview.Fetched | webapp/email_overview.py:159-168 | a fetch that raises counts as total 0 and no entries; otherwise its page |
| EmailOverview.FetchAccounts | webapp/email_overview.py:170-182 | the loop gathers the entries in account order and sums the totals |
| EmailOverview.CollectedMembers | webapp/email_overview.py:179-182 | an entry is gathered exactly when its account was asked and returned it |
| EmailOverview.NothingCollected | webapp/email_overview.py:159-182 | when every fetch fails, nothing is gathered and the total is 0 |
| EmailOverview.NewAnchors | webapp/email_overview.py:207-221 | the loop builds the specified new anchors |
| EmailOverview.AnchorsJson | webapp/email_overview.py:229-233 | the cursor's `accounts` object has exactly the accounts of the new state |
| EmailOverview.Compose | webapp/email_overview.py:184-244 | sort, slice, render, anchors and cursor give the specified listing |
| EmailOverview.OverviewCache.constructor | webapp/email_overview.py:28-30 | the response cache starts empty |
| EmailOverview.OverviewCache.BuildEmailOverview | webapp/email_overview.py:61-247 | the answer and the new cache are the specification `Answer`: a cached answer is reused while it is at most 15 seconds old, otherwise it is rebuilt and stored for 15 seconds |
| EmailOverview.Validations | webapp/email_overview.py:72-110 | `limit < 1` raises; an undecodable cursor raises; no accounts give `{}`; an uncached unknown account raises naming it; none of these touches the cache |
| EmailOverview.FirstPagePlan | webapp/email_overview.py:81-100 | without a cursor the plan uses the request's mailbox, limit, accounts and normalised search, and every account starts without an anchor |
| EmailOverview.RepeatIsCached | webapp/email_overview.py:101-103 | repeating a successful request before its cache entry expires answers from the cache, whatever the fetches would now return |
| EmailOverview.ExpiredIsRebuilt | webapp/email_overview.py:18 | a request repeated more than 15 seconds after a fresh build is answered as if nothing were cached |
| EmailOverview.OnPage | webapp/email_overview.py:179-191 | a page entry comes from a requested account's fetch |
| EmailOverview.FailedFetchContributesNothing | webapp/email_overview.py:159-166 | no page entry belongs to an account whose fetch failed |
| EmailOverview.AllFetchesFail | webapp/email_overview.py:159-244 | when every fetch fails the answer is an empty page with no cursor and totals 0 |
| EmailOverview.PageIsNewestReceived | webapp/email_overview.py:184-193 | `result_count` is `min(limit, entries)`; entries are descending by `(received_at, account, uid)` with a missing date lowest; no entry left out is above one shown |
| EmailOverview.AnchorAdvance | webapp/email_overview.py:209-221 | an account with no page entry keeps its anchor; otherwise it becomes `max(min contributed uid, 1)` |
| EmailOverview.CursorIffResults | webapp/email_overview.py:223-235 | `next_cursor` exists exactly when the page is non-empty, and is non-empty |
| EmailOverview.ReadStateJson | webapp/email_overview.py:229-235 | a written cursor state reads back its mailbox, anchors and search |
| EmailOverview.CursorReadsBack | webapp/email_overview.py:75-80 | an emitted cursor decodes back to its mailbox, `accounts` object, anchors and search |
| EmailOverview.PlanOfCursor | webapp/email_overview.py:75-100 | a request with a readable cursor is planned from the cursor's mailbox, sorted accounts and search |
| EmailOverview.AnchorsRead | webapp/email_overview.py:142-143 | anchors read one by one are the anchors of the plan |
| EmailOverview.ResumePlanned | webapp/email_overview.py:75-100 | a request with an emitted cursor is planned from that cursor's state |
| EmailOverview.ResumeAnchors | webapp/email_overview.py:142-143 | that plan reads back exactly the anchors written |
| EmailOverview.NextCursorResumes | webapp/email_overview.py:207-235 | following `next_cursor` plans the next page from the new anchors with the same mailbox and search |
| Cursor.StripPadding | webapp/utils.py:6 | `rstrip("=")` removes exactly the trailing `=` run |
| Cursor.EncodeCursor | webapp/utils.py:4-6 | the cursor holds only URL-safe alphabet characters and no `=` |
| Cursor.Padded | webapp/utils.py:10-11 | exactly `(-len) mod 4` `=` are appended, so the length is a multiple of 4 |
| Cursor.Unpadded | webapp/utils.py:6 | stripping removes exactly the encoding's padding |
| Cursor.PaddedRestores | webapp/utils.py:10-11 | re-padding a stripped encoding restores it |
| Cursor.CursorRoundTrip | webapp/utils.py:4-12 | decoding an encoded state gives the state back, for a round-tripping serialiser |
| Cursor.EncodeCursorNonEmpty | webapp/utils.py:4-6 | a state whose text is non-empty gives a non-empty cursor |
| Base64.EncodeShape | webapp/utils.py:6 | the encoding has `4 * ceil(n / 3)` characters, alphabet characters with `=` in exactly the last `PadCount` places |
| Base64.EncodeGroups | webapp/utils.py:6 | the encoding's length is a multiple of 4 and exceeds its padding for non-empty input |
| Base64.DecodeEncode | webapp/utils.py:11 | decoding an encoding gives the bytes back, in both alphabets |
| Base64.SextetRoundTrip | webapp/utils.py:6 | every alphabet character decodes to its value and is never `=` |
| Base64.Utf8Append | webapp/utils.py:5 | UTF-8 encoding distributes over concatenation |
| OAuth2.XOAuth2String | src/email_management/auth/oauth2.py:20-23 | the string decodes to the UTF-8 bytes of `user=…\x01auth=Bearer …\x01\x01`, its length is a multiple of 4, and it is standard-alphabet with at most two trailing `=` |
| OAuth2.ApplyImap | src/email_management/auth/oauth2.py:25-37 | succeeds exactly when the token is obtained and authentication answers `OK`; any failure is an `AuthError` |
| OAuth2.ApplySmtp | src/email_management/auth/oauth2.py:39-51 | succeeds exactly when the token is obtained and `AUTH XOAUTH2` answers 235; any failure is an `AuthError` |
| OAuth2.SmtpInitialResponse | src/email_management/auth/oauth2.py:47 | the SMTP argument is `XOAUTH2 ` and a string that decodes to the payload |
| OAuth2.ImapAsWrittenSendsEncodedTwice | src/email_management/auth/oauth2.py:28-33 | the client library encodes the callback's already encoded string again, so the server decodes text starting with `d`, never the `user=` payload |
| OAuth2.ImapCallbackCorrected | src/email_management/auth/oauth2.py:28-33 | a callback returning the raw payload reaches the server as the payload after its one decoding |
| Auth.StartupCheck | webapp/auth.py:22-28 | start-up passes exactly when auth is not required or both `SESSION_SECRET` and `APP_PASSWORD` are set |
| Auth.CompareDigest | webapp/auth.py:32 | `compare_digest` raises exactly on a non-ASCII argument and otherwise tells equality |
| Auth.VerifyPassword | webapp/auth.py:31-32 | true exactly when the input equals `APP_PASSWORD`; a non-ASCII input or password raises |
| Auth.Status | webapp/auth.py:43-48 | mode `open` exactly when auth is disabled, and then no `authed`; otherwise `authed` is true exactly when the session holds `True` |
| Auth.Session.constructor | webapp/auth.py:56-57 | a session holds the values it is given |
| Auth.Session.Login | webapp/auth.py:56-64 | succeeds exactly for the configured user and password and then sets `authed`; any refusal leaves the session unchanged and answers 401, or 500 when a comparison raises |
| Auth.LoginRefusal | webapp/auth.py:58-61 | a refusal is 401, or 500 exactly when some compared string is non-ASCII |
| Auth.Session.Logout | webapp/auth.py:67-70 | the session is emptied and no longer authenticated |
| Auth.Dispatch | webapp/auth.py:90-111 | open prefixes always pass; `/api/` paths pass exactly when open or authenticated; other paths pass unless the SPA is protected and the session is not authenticated; a refusal is 401 |
| Auth.GateAfterLoginAndLogout | webapp/auth.py:90-111 | after login every path passes; after logout a protected API path is refused |
| Auth.StatusMatchesGate | webapp/auth.py:97-102 | in required mode a protected API path passes exactly when the status says `authed` |
| Auth.DefaultGateOpenPaths | webapp/auth.py:78-88 | the default open API paths and `/assets/` paths always pass |
| Provider.FirstUsable | webapp/model.py:63-70 | no provider exactly when no key in the list is usable; otherwise the first usable provider in list order, with its table models |
| Provider.SelectIsFirstMatch | webapp/model.py:62-68 | the earliest provider in `claude, openai, gemini, xai, groq` with a usable key wins, with exactly its table entry |
| Provider.SelectNone | webapp/model.py:70 | with no usable key the answer is `(None, {})` |
| Provider.WhitespaceKeyIsAbsent | webapp/model.py:67 | a whitespace-only key is the same as no key |
| Provider.SameUsability | webapp/model.py:63-68 | the choice depends only on which keys are usable |
| Text.SplitJoin | webapp/email_overview.py:40 | space-joined words split back into the same words |
| Text.CollapseIdempotent | webapp/email_overview.py:40 | collapsing whitespace twice is collapsing once |
| Text.SplitStrip | webapp/email_overview.py:40 | `strip` before `split` changes nothing |
| Text.StripEmptyIffAllSpace | webapp/model.py:67 | a stripped string is empty exactly when it is all whitespace, exactly when it has no words |
| Text.SplitLower | webapp/email_overview.py:45 | lower-casing before splitting lower-cases each word |
| Text.StripLower | webapp/email_overview.py:45 | stripping and lower-casing commute |
| Text.LowerIdempotent | webapp/email_overview.py:45 | lower-casing twice is lower-casing once |
| Text.ParseIntRoundTrip | src/openmail/imap/client.py:948 | `int(str(i))` is `i` |
| Text.SortedSet | tests/fake_imap_client.py:495 | `sorted` of a set is strictly ascending with exactly its members |
| Text.SortStrings | tests/fake_imap_client.py:495 | the selection loop computes the sorted list |
| Text.AscendingUnique | tests/fake_imap_client.py:495 | there is only one strictly ascending list of a set |
| Json.IntOrNull | webapp/main.py:123-127 | an anchor written as `null` or an integer reads back as itself |

## Left out

- **Concurrency and I/O in the client**: the connection pool, `_acquire`, `_run` retries and backoff, semaphores, locks and `close`. The model is one sequential caller; the locks are absent.
- **Server replies as parameters**: `UID SEARCH` is the ascending list of matching UIDs; `STATUS UIDNEXT` is a result that stays the same across rounds; a SELECT's success is a boolean. The `SELECT` inside `_search_in_window` and the `UID SEARCH` itself are taken to succeed: a non-OK reply there raises in Python (`src/openmail/imap/client.py:387-391`), but the model's searches fail only on `STATUS` or the key bound.
- **`parse_list_mailbox_name`** is not part of this model. `ImapResponses.ListMailboxes` takes it as a function parameter.
- **Fetch bodies**: `fetch`, `fetch_overview`, `fetch_attachment` and `fetch_message_id`. These need parsers that are not part of this model. Messages are opaque values with headers.
- **The fake's `append`** depends on `parse_rfc822`, which is not part of this model. `add_parsed_message` is modelled.
- **`refresh_search_cache`** is not modelled. It is the legacy unwindowed search, and the paging path does not use it.
- **`IMAPQuery.uid`** belongs to a query module that is not part of this model. A window search is modelled as appending `UID start:end` to the parts.
- **Time**: `time.time()` and `datetime` become integer parameters. A missing date is below every date, and naive and aware datetimes are not distinguished.
- **`Base64.Decode`** is the strict decoder. Python's default decoder drops characters outside the alphabet, so the model rejects some cursors that Python would accept.
- **JSON**: `json.dumps`/`json.loads` are an abstract codec whose round trip is a hypothesis. JSON objects are maps in the model, so key order never matters; this is what `sort_keys=True` gives.
- **The AI search path of `build_email_overview`**: the language-model call, `EmailAssistant`, the derived-query cache and `asyncio.gather` are left out. The provider choice only selects a search mode, which is passed to the fetch function.
- **`to_dict()`** is not modelled. Rendering keeps the overview and the account put on its ref. The top-level fallback for a missing ref cannot arise in the model.
- **`EmailOverview.AnchorOf`**: a stored anchor that is neither `null` nor an integer is a failure. In Python it would be passed on to the fetch.
- OverviewRoute.ReadState: a `mailbox` that is not a string, a `limit` that is not an integer or boolean, an `accounts` that is not an object, or a per-account anchor that is neither `null` nor an integer fails with a server error. Python would carry such a mailbox, limit or anchor on until a later operation failed on it. The `direction` member may hold any JSON value; only `"next"` pages forward.
- ImapWindow.ProgressivePageComplete: proved only when the loop stopped for enough UIDs or at the mailbox edge, not when it ran out of rounds; only for `1 <= page_size <= max_uids_per_key`; only for `before_uid >= 2`, since `_make_window` as written searches UID 1 for `before_uid = 1` (see Findings); and, for newer pages, only when the last window holds no more than `max_uids_per_key` UIDs. The memory guard keeps the newest UIDs even when paging newer, so a very full newer window can lose the oldest UIDs the page should show.
- ImapClient.FreshSearch, ImapClient.Client.SearchPageCached and ImapClient.Client.Search carry the completeness above under the same hypotheses (the ghost `PageComplete`). When the loop ran out of rounds, they promise only matching UIDs, not the newest ones.
- EmailOverview.ReadState: a `mailbox` that is not a string is a failure. Python passes it on to the cache key and to `manager.imap_query`, outside the `try` around the fetch; `imap_query` is not part of this model.
- EmailOverview.OverviewCache.BuildEmailOverview: `webapp/ttl_cache.py` is not part of this model. An entry is live while `now <= stored time + 15`. The 512-entry bound and its eviction are not modelled, so the model may hit where Python has already evicted the entry.
- Text.ParseInt reads only an optional sign and ASCII digits. Python's `int` also accepts `_` between digits, other Unicode decimal digits and surrounding whitespace; the model rejects those tokens.
- **`EmailOverview.CacheKeyTellsApart`** proves only that the limit and the search are told apart. Mailbox names, cursors or account ids containing `|` or `,` can make different requests share a key.
- **Other routes and modules**: the remaining routes of `webapp/main.py`, `webapp/context.py`, `email_assistant.py` and `email_query.py` are left out. They are request plumbing, thread pools and LLM wrappers.
- **Other manager methods**: `send`, `list_unsubscribe_candidates` and `unsubscribe_selected` are outside the flag logic and are left out.
- **`setup_auth` and environment reads**: middleware wiring and `os.getenv` are left out. The configuration is a value.
- **`mark_all_seen`** is modelled on the in-memory store. The real client's `search` and `add_flags` are not composed with it.

## Findings

| source | as written | input that shows it | evidently intended | confidence | as-written member | corrected member |
|---|---|---|---|---|---|---|
| src/openmail/imap/client.py:347-350 | the older-page window ends at `max(1, before_uid - 1)` | `before_uid = 1` gives window `[1, 1]`, so an older page of a mailbox holding UID 1 returns UID 1 although no UID is older than the anchor; whether a cursor with `before_uid = 1` reaches the client depends on the page metadata of `fetch_overview`, which is not part of this model | an empty window when `before_uid <= 1` | not executed | ImapWindow.AsWrittenRepeatsUidOne | ImapWindow.CorrectedPageComplete |
| src/email_management/auth/oauth2.py:28-33 | the IMAP callback returns the base 64 string, which `imaplib` base-64-encodes once more | any user and token: the server decodes text starting with `d` (the encoding of `u`) instead of `user=…` | the callback returns the raw payload and lets `imaplib` encode it | not executed | OAuth2.ImapAsWrittenSendsEncodedTwice | OAuth2.ImapCallbackCorrected |
