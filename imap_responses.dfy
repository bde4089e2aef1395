/** The IMAP client's small formatters and response parsers: the mailbox
    argument of SELECT and STATUS, the flags of a LIST line (section 7.2.2 of
    RFC 3501), the UIDNEXT of a STATUS reply and the UID of an APPENDUID
    response code (section 6.3.11 of RFC 3501 and section 4 of RFC 4315),
    and the attribute pairs of a STATUS reply (section 7.2.4 of RFC 3501).
    Response lines arrive already decoded to strings. */
module ImapResponses {
  import opened Wrappers
  import opened Text
  import opened ImapQuery

  // ---------------------------------------------------------------------
  // `_format_mailbox_arg`
  // ---------------------------------------------------------------------

  /** `INBOX` in any case becomes `INBOX`; a name that already starts and ends
      with a double quote is passed through; anything else is wrapped in
      double quotes without escaping. */
  function FormatMailboxArg(mailbox: string): (r: string)
    ensures Upper(mailbox) == "INBOX" ==> r == "INBOX"
    ensures Upper(mailbox) != "INBOX" && StartsWith(mailbox, "\"") && EndsWith(mailbox, "\"") ==> r == mailbox
    ensures r == "INBOX" || (StartsWith(r, "\"") && EndsWith(r, "\""))
  {
    if Upper(mailbox) == "INBOX" then "INBOX"
    else if StartsWith(mailbox, "\"") && EndsWith(mailbox, "\"") then mailbox
    else "\"" + mailbox + "\""
  }

  /** Formatting an already formatted argument changes nothing. */
  lemma FormatMailboxArgIdempotent(mailbox: string)
    ensures FormatMailboxArg(FormatMailboxArg(mailbox)) == FormatMailboxArg(mailbox)
  {
    var r := FormatMailboxArg(mailbox);
    if r == "INBOX" {
      assert Upper(r) == "INBOX";
    } else {
      assert r[0] == '"';
      assert Upper(r)[0] == '"';
    }
  }

  lemma {:induction false} EscapePlain(s: string)
    requires forall i :: 0 <= i < |s| ==> s[i] != '"' && s[i] != '\\'
    ensures Escape(s) == s
  {
    if s != [] {
      EscapePlain(s[1..]);
      assert [s[0]] + s[1..] == s;
    }
  }

  /** A name of text characters without quotes or backslashes, other than
      INBOX, is sent as an RFC 3501 quoted string that reads back as the name. */
  lemma FormatMailboxArgQuoted(mailbox: string)
    requires Upper(mailbox) != "INBOX"
    requires forall i :: 0 <= i < |mailbox| ==> IsTextChar(mailbox[i]) && mailbox[i] != '"' && mailbox[i] != '\\'
    ensures Unquote(FormatMailboxArg(mailbox)) == Some(mailbox)
  {
    EscapePlain(mailbox);
    UnquoteEscaped(mailbox);
    if mailbox != [] {
      assert !StartsWith(mailbox, "\"");
    }
    assert FormatMailboxArg(mailbox)[1..] == Escape(mailbox) + "\"";
  }

  // ---------------------------------------------------------------------
  // `_parse_list_flags` and the LIST filter of `list_mailboxes`
  // ---------------------------------------------------------------------

  /** The upper-cased flags between the first `(` and the first `)` after it;
      no parenthesis, or nothing between them, gives no flags. */
  function ParseListFlags(line: string): set<string> {
    var start := FindChar(line, '(', 0);
    if start == -1 then {}
    else
      var end := FindChar(line, ')', start + 1);
      if end == -1 || end <= start + 1 then {}
      else
        var flags := Strip(line[start + 1..end]);
        if flags == "" then {} else UpperSet(Split(flags))
  }

  /** `{f.upper() for f in words}` */
  function UpperSet(words: seq<string>): (r: set<string>)
    ensures forall f :: f in r <==> exists w :: w in words && f == Upper(w)
  {
    if words == [] then {}
    else
      assert forall w :: w in words <==> w == words[0] || w in words[1..];
      {Upper(words[0])} + UpperSet(words[1..])
  }

  lemma {:induction false} FindCharAt(s: string, c: char, start: nat, i: nat)
    requires start <= i < |s| && s[i] == c
    requires forall j :: start <= j < i ==> s[j] != c
    ensures FindChar(s, c, start) == i
    decreases i - start
  {
    if start < i {
      FindCharAt(s, c, start + 1, i);
    }
  }

  lemma {:induction false} JoinChars(ws: seq<string>, c: char)
    requires c != ' '
    requires forall k :: 0 <= k < |ws| ==> c !in ws[k]
    ensures c !in Join(" ", ws)
  {
    if |ws| > 1 {
      JoinChars(ws[1..], c);
    }
  }

  lemma {:induction false} JoinEnds(ws: seq<string>)
    requires ws != [] && forall k :: 0 <= k < |ws| ==> IsWord(ws[k])
    requires ws[0] != [] && ws[|ws| - 1] != []
    ensures Join(" ", ws) != []
    ensures Join(" ", ws)[0] == ws[0][0]
    ensures Join(" ", ws)[|Join(" ", ws)| - 1] == ws[|ws| - 1][|ws[|ws| - 1]| - 1]
  {
    if |ws| > 1 {
      assert IsWord(ws[1]);
      JoinEnds(ws[1..]);
    }
  }

  lemma StripUnspaced(s: string)
    requires s != [] && !IsSpace(s[0]) && !IsSpace(s[|s| - 1])
    ensures Strip(s) == s
  {
  }

  /** A LIST line `prefix (f1 ... fn) rest`, with no `(` before the list and
      flag words without parentheses, yields the upper-cased flags. */
  lemma {:induction false} ListFlagsRoundTrip(prefix: string, flags: seq<string>, rest: string)
    requires '(' !in prefix
    requires forall k :: 0 <= k < |flags| ==> IsWord(flags[k]) && '(' !in flags[k] && ')' !in flags[k]
    ensures ParseListFlags(prefix + "(" + Join(" ", flags) + ")" + rest) == set f | f in flags :: Upper(f)
  {
    ListFlagsParsed(prefix, flags, rest);
    assert UpperSet(flags) == set f | f in flags :: Upper(f);
  }

  lemma {:induction false} ListFlagsParsed(prefix: string, flags: seq<string>, rest: string)
    requires '(' !in prefix
    requires forall k :: 0 <= k < |flags| ==> IsWord(flags[k]) && '(' !in flags[k] && ')' !in flags[k]
    ensures ParseListFlags(prefix + "(" + Join(" ", flags) + ")" + rest) == UpperSet(flags)
  {
    var body := Join(" ", flags);
    var line := prefix + "(" + body + ")" + rest;
    var p := |prefix|;
    assert line[p] == '(';
    forall j | 0 <= j < p ensures line[j] != '(' {
      assert line[j] == prefix[j];
    }
    FindCharAt(line, '(', 0, p);
    JoinChars(flags, ')');
    var q := p + 1 + |body|;
    assert line[q] == ')';
    forall j | p + 1 <= j < q ensures line[j] != ')' {
      assert line[j] == body[j - p - 1];
    }
    FindCharAt(line, ')', p + 1, q);
    assert line[p + 1..q] == body;
    if flags != [] {
      assert IsWord(flags[0]) && IsWord(flags[|flags| - 1]);
      JoinEnds(flags);
      StripUnspaced(body);
      SplitJoin(flags);
      assert body != "";
    }
  }

  /** `list_mailboxes` on one line: an empty line or a line flagged
      `\NOSELECT` gives nothing, any other the name the LIST-line reader
      (`nameOf`) finds in it. */
  function Kept(line: string, nameOf: string -> Option<string>): Option<string> {
    if line == "" || "\\NOSELECT" in ParseListFlags(line) then None else nameOf(line)
  }

  /** `list_mailboxes`: the names kept from each line, in order. */
  function Selectable(lines: seq<string>, nameOf: string -> Option<string>): seq<string> {
    if lines == [] then []
    else
      var keep := Kept(lines[0], nameOf);
      (if keep.Some? then [keep.value] else []) + Selectable(lines[1..], nameOf)
  }

  /** The listed names are exactly those of selectable, non-empty lines. */
  lemma {:induction false} SelectableMembers(lines: seq<string>, nameOf: string -> Option<string>, name: string)
    ensures name in Selectable(lines, nameOf) <==>
              exists i :: 0 <= i < |lines| && lines[i] != "" && "\\NOSELECT" !in ParseListFlags(lines[i])
                            && nameOf(lines[i]) == Some(name)
  {
    if lines != [] {
      SelectableMembers(lines[1..], nameOf, name);
      if name in Selectable(lines[1..], nameOf) {
        var i :| 0 <= i < |lines[1..]| && lines[1..][i] != "" && "\\NOSELECT" !in ParseListFlags(lines[1..][i])
                 && nameOf(lines[1..][i]) == Some(name);
        assert lines[i + 1] == lines[1..][i];
      }
      if exists i :: 0 <= i < |lines| && lines[i] != "" && "\\NOSELECT" !in ParseListFlags(lines[i])
                       && nameOf(lines[i]) == Some(name) {
        var i :| 0 <= i < |lines| && lines[i] != "" && "\\NOSELECT" !in ParseListFlags(lines[i])
                 && nameOf(lines[i]) == Some(name);
        if i > 0 {
          assert lines[1..][i - 1] == lines[i];
        }
      }
    }
  }

  lemma SelectableStep(lines: seq<string>, i: nat, nameOf: string -> Option<string>)
    requires i < |lines|
    ensures Selectable(lines[i..], nameOf)
            == (if Kept(lines[i], nameOf).Some? then [Kept(lines[i], nameOf).value] else []) + Selectable(lines[i + 1..], nameOf)
  {
    assert lines[i..][1..] == lines[i + 1..];
  }

  /** The loop of `list_mailboxes` over the LIST response lines. */
  method ListMailboxes(lines: seq<string>, nameOf: string -> Option<string>) returns (names: seq<string>)
    ensures names == Selectable(lines, nameOf)
  {
    names := [];
    var i := 0;
    assert lines[i..] == lines;
    while i < |lines|
      invariant 0 <= i <= |lines|
      invariant names + Selectable(lines[i..], nameOf) == Selectable(lines, nameOf)
    {
      SelectableStep(lines, i, nameOf);
      var keep := Kept(lines[i], nameOf);
      ghost var later := Selectable(lines[i + 1..], nameOf);
      if keep.Some? {
        assert names + ([keep.value] + later) == (names + [keep.value]) + later;
        names := names + [keep.value];
      } else {
        assert [] + later == later;
      }
      i := i + 1;
    }
    assert lines[i..] == [];
  }

  // ---------------------------------------------------------------------
  // `re.search(r"KEYWORD\s+(\d+)", s)` and `re.search(r"KEYWORD\s+\d+\s+(\d+)", s)`
  // ---------------------------------------------------------------------

  /** Length of the leading run of digits (`digits`) or of whitespace. */
  function RunLen(s: string, digits: bool): (n: nat)
    ensures n <= |s|
  {
    if s != [] && (if digits then IsDigit(s[0]) else IsSpace(s[0])) then 1 + RunLen(s[1..], digits) else 0
  }

  /** The digit run is made of digits. */
  lemma {:induction false} RunLenDigits(s: string)
    ensures AllDigits(s[..RunLen(s, true)])
  {
    if s != [] && IsDigit(s[0]) {
      RunLenDigits(s[1..]);
      assert s[..RunLen(s, true)] == [s[0]] + s[1..][..RunLen(s[1..], true)];
    }
  }

  /** The digit run of digits followed by a non-digit is exactly those digits. */
  lemma {:induction false} RunLenOfDigits(ds: string, t: string)
    requires AllDigits(ds) && NoDigitFirst(t)
    ensures RunLen(ds + t, true) == |ds|
  {
    if ds != [] {
      assert (ds + t)[1..] == ds[1..] + t;
      RunLenOfDigits(ds[1..], t);
    } else {
      assert ds + t == t;
    }
  }

  /** `\s+(\d+)` at the start of `s`: the number and the text after it. Both
      runs are greedy, and backtracking cannot help, since no whitespace
      character is a digit. */
  function SpacedNumber(s: string): Option<(nat, string)> {
    var k := RunLen(s, false);
    var d := RunLen(s[k..], true);
    if k == 0 || d == 0 then None
    else
      RunLenDigits(s[k..]);
      Some((DecimalValue(s[k..][..d]), s[k + d..]))
  }

  /** `count` groups `\s+\d+` at the start of `s`; the value of the last one. */
  function SpacedNumbers(s: string, count: nat): Option<nat>
    requires count >= 1
    decreases count
  {
    match SpacedNumber(s)
    case None => None
    case Some((v, rest)) => if count == 1 then Some(v) else SpacedNumbers(rest, count - 1)
  }

  /** The pattern anchored at the start of `s`. */
  function MatchAt(s: string, keyword: string, count: nat): Option<nat>
    requires count >= 1
  {
    if StartsWith(s, keyword) then SpacedNumbers(s[|keyword|..], count) else None
  }

  /** `re.search`: the match at the first position where there is one. */
  function SearchNumber(s: string, keyword: string, count: nat): Option<nat>
    requires count >= 1
    decreases |s|
  {
    if s == [] then None
    else if MatchAt(s, keyword, count).Some? then MatchAt(s, keyword, count)
    else SearchNumber(s[1..], keyword, count)
  }

  /** The text ` n1 n2 ...` a server writes after the keyword. */
  function Render(nums: seq<nat>): string {
    if nums == [] then "" else " " + NatToString(nums[0]) + Render(nums[1..])
  }

  predicate NoDigitFirst(t: string) {
    t == [] || !IsDigit(t[0])
  }

  /** One space, a run of digits and a rest that starts with no digit. */
  lemma SpacedNumberAt(ds: string, t: string)
    requires ds != [] && AllDigits(ds) && NoDigitFirst(t)
    ensures SpacedNumber(" " + ds + t) == Some((DecimalValue(ds), t))
  {
    var s := " " + ds + t;
    assert s[1..] == ds + t;
    assert RunLen(s, false) == 1 by {
      assert s[0] == ' ' && s[1] == ds[0];
      assert RunLen(s[1..], false) == 0;
    }
    RunLenOfDigits(ds, t);
    assert s[1..][..|ds|] == ds;
    assert s[1 + |ds|..] == t;
  }

  lemma SpacedNumberOf(n: nat, t: string)
    requires NoDigitFirst(t)
    ensures SpacedNumber(" " + NatToString(n) + t) == Some((n, t))
  {
    SpacedNumberAt(NatToString(n), t);
    DecimalRoundTrip(n);
  }

  /** The rendering of a nonempty list is its first number after a space,
      then the rendering of the rest. */
  lemma RenderCons(nums: seq<nat>, t: string)
    requires |nums| >= 1
    ensures Render(nums) + t == " " + NatToString(nums[0]) + (Render(nums[1..]) + t)
  {
    var h, r := " " + NatToString(nums[0]), Render(nums[1..]);
    assert Render(nums) == h + r;
    ConcatAssoc(h, r, t);
  }

  lemma ConcatAssoc(a: string, b: string, c: string)
    ensures (a + b) + c == a + (b + c)
  {
  }

  /** What follows the first number of a rendering starts with no digit. */
  lemma RenderRestNoDigit(nums: seq<nat>, t: string)
    requires |nums| >= 1 && NoDigitFirst(t)
    ensures NoDigitFirst(Render(nums[1..]) + t)
  {
    var r := Render(nums[1..]);
    if |nums| == 1 {
      assert r + t == t;
    } else {
      assert (r + t)[0] == r[0];
    }
  }

  lemma {:induction false} SpacedNumbersOf(nums: seq<nat>, t: string)
    requires |nums| >= 1 && NoDigitFirst(t)
    ensures SpacedNumbers(Render(nums) + t, |nums|) == Some(nums[|nums| - 1])
  {
    var rest := Render(nums[1..]) + t;
    RenderCons(nums, t);
    RenderRestNoDigit(nums, t);
    SpacedNumberOf(nums[0], rest);
    if |nums| > 1 {
      SpacedNumbersOf(nums[1..], t);
    }
  }

  /** A reply holding `keyword n1 ... nk`, with no earlier occurrence of the
      keyword's first character, is matched there and gives `nk`. */
  lemma {:induction false} SearchNumberOf(prefix: string, keyword: string, nums: seq<nat>, t: string)
    requires keyword != [] && keyword[0] !in prefix
    requires |nums| >= 1 && NoDigitFirst(t)
    ensures SearchNumber(prefix + keyword + Render(nums) + t, keyword, |nums|) == Some(nums[|nums| - 1])
    decreases |prefix|
  {
    var s := prefix + keyword + Render(nums) + t;
    if prefix == [] {
      assert s == keyword + (Render(nums) + t);
      assert StartsWith(s, keyword);
      assert s[|keyword|..] == Render(nums) + t;
      SpacedNumbersOf(nums, t);
    } else {
      assert s[0] == prefix[0] != keyword[0];
      assert MatchAt(s, keyword, |nums|).None?;
      assert s[1..] == prefix[1..] + keyword + Render(nums) + t;
      SearchNumberOf(prefix[1..], keyword, nums, t);
    }
  }

  // ---------------------------------------------------------------------
  // `_uidnext` and the UID of `append`
  // ---------------------------------------------------------------------

  /** `_uidnext` on the outcome of `STATUS mailbox (UIDNEXT)`: `None` stands
      for a reply that is not OK or carries no data. */
  function UidNextOf(reply: Option<string>): (r: Result<int, string>)
    ensures r.Ok? ==> r.value >= 0
    ensures reply.None? || reply == Some("") ==> r.Err?
  {
    if reply.None? || reply.value == "" then Err("STATUS UIDNEXT failed")
    else
      match SearchNumber(reply.value, "UIDNEXT", 1)
      case None => Err("Could not parse UIDNEXT from STATUS response")
      case Some(v) => Ok(v)
  }

  /** A STATUS reply `... UIDNEXT n ...` gives `n`. */
  lemma UidNextRoundTrip(prefix: string, n: nat, rest: string)
    requires 'U' !in prefix && NoDigitFirst(rest)
    ensures UidNextOf(Some(prefix + "UIDNEXT " + NatToString(n) + rest)) == Ok(n)
  {
    assert Render([n]) == " " + NatToString(n) + "";
    assert prefix + "UIDNEXT " + NatToString(n) + rest == prefix + "UIDNEXT" + Render([n]) + rest;
    SearchNumberOf(prefix, "UIDNEXT", [n], rest);
  }

  function SeqMax(s: seq<int>): (m: int)
    requires s != []
    ensures m in s && forall x :: x in s ==> x <= m
  {
    if |s| == 1 then s[0]
    else
      var m := SeqMax(s[1..]);
      assert forall x :: x in s ==> x == s[0] || x in s[1..];
      if s[0] >= m then s[0] else m
  }

  /** The UID `append` reports: the second number of an `APPENDUID` response
      code in the reply, else the largest UID of `UID SEARCH ALL` (`None` when
      that search fails or returns no data), else an error. */
  function AppendedUid(data: Option<string>, searchAll: Option<seq<int>>): (r: Result<int, string>)
    ensures r.Err? <==>
              (data.None? || data.value == "" || SearchNumber(data.value, "APPENDUID", 2).None?)
              && (searchAll.None? || searchAll.value == [])
    ensures r.Ok? && (data.None? || data.value == "" || SearchNumber(data.value, "APPENDUID", 2).None?) ==>
              r.value in searchAll.value && forall u :: u in searchAll.value ==> u <= r.value
  {
    var found := if data.Some? && data.value != "" then SearchNumber(data.value, "APPENDUID", 2) else None;
    if found.Some? then Ok(found.value)
    else if searchAll.Some? && searchAll.value != [] then Ok(SeqMax(searchAll.value))
    else Err("APPEND succeeded but could not determine UID")
  }

  /** An OK reply `[APPENDUID validity uid] ...` gives `uid`, whatever the
      fallback search would say. */
  lemma AppendedUidRoundTrip(prefix: string, validity: nat, uid: nat, rest: string, searchAll: Option<seq<int>>)
    requires 'A' !in prefix && NoDigitFirst(rest)
    ensures AppendedUid(Some(prefix + "APPENDUID " + NatToString(validity) + " " + NatToString(uid) + rest), searchAll) == Ok(uid)
  {
    var nv, nu := NatToString(validity), NatToString(uid);
    var line := prefix + "APPENDUID " + nv + " " + nu + rest;
    assert line == prefix + "APPENDUID" + Render([validity, uid]) + rest by {
      RenderTwo(validity, uid);
      AppendUidLine(prefix, nv, nu, rest);
    }
    SearchNumberOf(prefix, "APPENDUID", [validity, uid], rest);
  }

  lemma AppendUidLine(prefix: string, nv: string, nu: string, rest: string)
    ensures prefix + "APPENDUID " + nv + " " + nu + rest == prefix + "APPENDUID" + (" " + nv + " " + nu) + rest
  {
    assert "APPENDUID" + " " == "APPENDUID ";
  }

  lemma RenderTwo(a: nat, b: nat)
    ensures Render([a, b]) == " " + NatToString(a) + " " + NatToString(b)
  {
    assert [a, b][1..] == [b];
    assert Render([b]) == " " + NatToString(b) + Render([]);
  }

  // ---------------------------------------------------------------------
  // `mailbox_status`
  // ---------------------------------------------------------------------

  /** The dictionary key for an upper-cased attribute name. */
  function StatusKey(key: string): string {
    if key == "MESSAGES" then "messages"
    else if key == "UNSEEN" then "unseen"
    else if key == "UIDNEXT" then "uidnext"
    else if key == "UIDVALIDITY" then "uidvalidity"
    else if key == "HIGHESTMODSEQ" then "highestmodseq"
    else Lower(key)
  }

  lemma LowerUpper(t: string)
    ensures Lower(Upper(t)) == Lower(t)
  {
  }

  /** Every branch of the key mapping agrees with plain lower-casing: the
      key of attribute `t` is `t.lower()`. */
  lemma StatusKeyIsLower(t: string)
    ensures StatusKey(Upper(t)) == Lower(t)
  {
    LowerUpper(t);
    StatusNamesLower();
  }

  /** The five attribute names the key mapping spells out, lower-cased. */
  lemma StatusNamesLower()
    ensures Lower("MESSAGES") == "messages" && Lower("UNSEEN") == "unseen" && Lower("UIDNEXT") == "uidnext"
    ensures Lower("UIDVALIDITY") == "uidvalidity" && Lower("HIGHESTMODSEQ") == "highestmodseq"
  {
    assert Lower("MESSAGES") == "messages" by { LowerLiteral("MESSAGES", "messages"); }
    assert Lower("UNSEEN") == "unseen" by { LowerLiteral("UNSEEN", "unseen"); }
    assert Lower("UIDNEXT") == "uidnext" by { LowerLiteral("UIDNEXT", "uidnext"); }
    assert Lower("UIDVALIDITY") == "uidvalidity" by { LowerLiteral("UIDVALIDITY", "uidvalidity"); }
    assert Lower("HIGHESTMODSEQ") == "highestmodseq" by { LowerLiteral("HIGHESTMODSEQ", "highestmodseq"); }
  }

  lemma LowerLiteral(s: string, l: string)
    requires |s| == |l| && forall i :: 0 <= i < |s| ==> LowerChar(s[i]) == l[i]
    ensures Lower(s) == l
  {
  }

  /** One pair: a value that `int()` rejects is skipped. */
  function StatusStep(status: map<string, int>, key: string, value: string): map<string, int> {
    match ParseInt(value)
    case None => status
    case Some(v) => status[StatusKey(Upper(key)) := v]
  }

  /** The pairs `tokens[0..1], tokens[2..3], ...` in order; an odd token out is ignored. */
  function StatusFold(status: map<string, int>, tokens: seq<string>): map<string, int>
    decreases |tokens|
  {
    if |tokens| < 2 then status else StatusFold(StatusStep(status, tokens[0], tokens[1]), tokens[2..])
  }

  /** The STATUS reply, already decoded: `None` for a reply that is not OK. */
  function StatusOf(reply: Option<string>): Result<map<string, int>, string> {
    if reply.None? then Err("STATUS failed")
    else if reply.value == "" then Err("STATUS returned empty data")
    else
      var s := reply.value;
      var start := FindChar(s, '(', 0);
      var end := RFindChar(s, ')', |s|);
      if start == -1 || end == -1 || end <= start then Err("Unexpected STATUS response")
      else Ok(StatusFold(map[], Split(s[start + 1..end])))
  }

  /** `mailbox_status` after the STATUS command: cut the text between the
      first `(` and the last `)`, split it, and read it pair by pair. */
  method MailboxStatus(reply: Option<string>) returns (r: Result<map<string, int>, string>)
    ensures r == StatusOf(reply)
  {
    if reply.None? {
      return Err("STATUS failed");
    }
    if reply.value == "" {
      return Err("STATUS returned empty data");
    }
    var s := reply.value;
    var start := FindChar(s, '(', 0);
    var end := RFindChar(s, ')', |s|);
    if start == -1 || end == -1 || end <= start {
      return Err("Unexpected STATUS response");
    }
    var tokens := Split(s[start + 1..end]);
    var status: map<string, int> := map[];
    var i := 0;
    while i + 1 < |tokens|
      invariant 0 <= i <= |tokens|
      invariant StatusFold(status, tokens[i..]) == StatusFold(map[], tokens)
      decreases |tokens| - i
    {
      assert tokens[i..][2..] == tokens[i + 2..];
      var key := Upper(tokens[i]);
      var value := ParseInt(tokens[i + 1]);
      if value.Some? {
        status := status[StatusKey(key) := value.value];
      }
      i := i + 2;
    }
    r := Ok(status);
  }

  /** A parsable pair at an even position of the tokens. */
  predicate PairAt(tokens: seq<string>, i: int, k: string)
  {
    0 <= i < |tokens| - 1 && i % 2 == 0 && Lower(tokens[i]) == k && ParseInt(tokens[i + 1]).Some?
  }

  /** The last parsable pair naming `k`: no parsable pair after it names `k`. */
  ghost predicate LastPairAt(tokens: seq<string>, i: int, k: string)
  {
    PairAt(tokens, i, k) && forall j :: PairAt(tokens, j, k) ==> j <= i
  }

  /** Which keys the reply yields and with what value: a key is present
      exactly when some pair with a parsable value names it
      (case-insensitively), and then it holds the value of the last such
      pair, as the dictionary assignments in order leave it. */
  lemma StatusFoldKeys(tokens: seq<string>, k: string)
    ensures k in StatusFold(map[], tokens) <==> exists i :: PairAt(tokens, i, k)
    ensures forall i :: LastPairAt(tokens, i, k) ==>
              k in StatusFold(map[], tokens) && StatusFold(map[], tokens)[k] == ParseInt(tokens[i + 1]).value
  {
    StatusFoldMembers(map[], tokens, k);
    forall i | LastPairAt(tokens, i, k)
      ensures k in StatusFold(map[], tokens) && StatusFold(map[], tokens)[k] == ParseInt(tokens[i + 1]).value
    {
      StatusFoldValues(map[], tokens, k, i);
    }
  }

  /** A pair of the tail is a pair of the whole, two positions further on. */
  lemma PairShift(tokens: seq<string>, i: int, k: string)
    requires |tokens| >= 2
    ensures PairAt(tokens[2..], i, k) <==> i >= 0 && PairAt(tokens, i + 2, k)
  {
    if 0 <= i < |tokens| - 3 {
      assert tokens[2..][i] == tokens[i + 2] && tokens[2..][i + 1] == tokens[i + 3];
    }
  }

  lemma {:induction false} StatusFoldMembers(status: map<string, int>, tokens: seq<string>, k: string)
    ensures k in StatusFold(status, tokens) <==> k in status || exists i :: PairAt(tokens, i, k)
    decreases |tokens|
  {
    if |tokens| >= 2 {
      var next := StatusStep(status, tokens[0], tokens[1]);
      var t := tokens[2..];
      StatusKeyIsLower(tokens[0]);
      StatusFoldMembers(next, t, k);
      assert StatusFold(status, tokens) == StatusFold(next, t);
      if k in next && k !in status {
        assert PairAt(tokens, 0, k);
      }
      if exists i :: PairAt(t, i, k) {
        var i :| PairAt(t, i, k);
        PairShift(tokens, i, k);
      }
      if exists i :: PairAt(tokens, i, k) {
        var i :| PairAt(tokens, i, k);
        if i >= 2 {
          PairShift(tokens, i - 2, k);
        } else {
          assert i == 0 && k in next;
        }
      }
    }
  }

  /** Without a parsable pair naming `k`, the fold leaves `k` as it was. */
  lemma {:induction false} StatusFoldUnnamed(status: map<string, int>, tokens: seq<string>, k: string)
    requires forall j :: !PairAt(tokens, j, k)
    ensures k in StatusFold(status, tokens) <==> k in status
    ensures k in status ==> StatusFold(status, tokens)[k] == status[k]
    decreases |tokens|
  {
    if |tokens| >= 2 {
      var next := StatusStep(status, tokens[0], tokens[1]);
      var t := tokens[2..];
      StatusKeyIsLower(tokens[0]);
      assert !PairAt(tokens, 0, k);
      forall j ensures !PairAt(t, j, k) {
        PairShift(tokens, j, k);
      }
      StatusFoldUnnamed(next, t, k);
    }
  }

  /** The last parsable pair naming `k` gives its value. */
  lemma {:induction false} StatusFoldValues(status: map<string, int>, tokens: seq<string>, k: string, i: int)
    requires LastPairAt(tokens, i, k)
    ensures k in StatusFold(status, tokens) && StatusFold(status, tokens)[k] == ParseInt(tokens[i + 1]).value
    decreases |tokens|
  {
    var next := StatusStep(status, tokens[0], tokens[1]);
    var t := tokens[2..];
    StatusKeyIsLower(tokens[0]);
    assert StatusFold(status, tokens) == StatusFold(next, t);
    if i >= 2 {
      PairShift(tokens, i - 2, k);
      forall j | PairAt(t, j, k) ensures j <= i - 2 {
        PairShift(tokens, j, k);
      }
      assert t[i - 2 + 1] == tokens[i + 1];
      StatusFoldValues(next, t, k, i - 2);
    } else {
      forall j ensures !PairAt(t, j, k) {
        PairShift(tokens, j, k);
      }
      StatusFoldUnnamed(next, t, k);
    }
  }

}
