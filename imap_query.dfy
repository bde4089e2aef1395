/** The IMAP SEARCH criteria builder (`IMAPQuery`): a list of tokens that
    builder methods extend in place, quoted strings as in section 4.3 and the
    formal syntax of section 9 of RFC 3501, and `YYYY-MM-DD` dates rewritten
    to the `date-text` form `DD-Mon-YYYY` of the same section 9. */
module ImapQuery {
  import opened Wrappers
  import opened Text

  // ---------------------------------------------------------------------
  // Quoted strings
  // ---------------------------------------------------------------------

  /** `s.replace(target, repl)` for a one-character `target`. */
  function ReplaceChar(s: string, target: char, repl: string): string {
    if s == [] then []
    else (if s[0] == target then repl else [s[0]]) + ReplaceChar(s[1..], target, repl)
  }

  /** One character as it appears inside a quoted string. */
  function EscapeChar(c: char): string {
    if c == '\\' then "\\\\" else if c == '"' then "\\\"" else [c]
  }

  /** Backslash before every backslash and double quote. */
  function Escape(s: string): string {
    if s == [] then [] else EscapeChar(s[0]) + Escape(s[1..])
  }

  /** `_q(s)`: backslashes are doubled first, then quotes escaped, then the
      result is wrapped in double quotes. */
  function Quote(s: string): string {
    "\"" + ReplaceChar(ReplaceChar(s, '\\', "\\\\"), '"', "\\\"") + "\""
  }

  lemma {:induction false} ReplaceCharAppend(a: string, b: string, target: char, repl: string)
    ensures ReplaceChar(a + b, target, repl) == ReplaceChar(a, target, repl) + ReplaceChar(b, target, repl)
  {
    if a == [] {
      assert a + b == b;
    } else {
      assert (a + b)[1..] == a[1..] + b;
      ReplaceCharAppend(a[1..], b, target, repl);
    }
  }

  /** The two `replace` passes, in this order, escape each special character
      exactly once: the backslashes the second pass inserts are not doubled. */
  lemma {:induction false} QuoteEscapes(s: string)
    ensures Quote(s) == "\"" + Escape(s) + "\""
  {
    EscapeTwoPasses(s);
  }

  lemma {:induction false} EscapeTwoPasses(s: string)
    ensures ReplaceChar(ReplaceChar(s, '\\', "\\\\"), '"', "\\\"") == Escape(s)
  {
    if s != [] {
      var first := if s[0] == '\\' then "\\\\" else [s[0]];
      assert ReplaceChar(s, '\\', "\\\\") == first + ReplaceChar(s[1..], '\\', "\\\\");
      ReplaceCharAppend(first, ReplaceChar(s[1..], '\\', "\\\\"), '"', "\\\"");
      EscapeTwoPasses(s[1..]);
      if s[0] == '\\' {
        assert ReplaceChar("\\\\", '"', "\\\"") == "\\\\" by {
          assert "\\\\"[1..] == "\\";
          assert "\\"[1..] == [];
        }
      } else {
        assert ReplaceChar([s[0]], '"', "\\\"") == EscapeChar(s[0]) by {
          assert [s[0]][1..] == [];
        }
      }
    }
  }

  /** `TEXT-CHAR` of RFC 3501: a 7-bit character other than NUL, CR and LF. */
  predicate IsTextChar(c: char) {
    0x01 <= c as int <= 0x7F && c != '\r' && c != '\n'
  }

  /** The body of a quoted string after its opening quote, up to and including
      the closing quote, which must be the last character. */
  function UnquoteBody(t: string): Option<string> {
    if t == [] then None
    else if t[0] == '"' then (if |t| == 1 then Some("") else None)
    else if t[0] == '\\' then
      if |t| >= 2 && (t[1] == '\\' || t[1] == '"') then
        match UnquoteBody(t[2..])
        case Some(rest) => Some([t[1]] + rest)
        case None => None
      else None
    else if IsTextChar(t[0]) then
      match UnquoteBody(t[1..])
      case Some(rest) => Some([t[0]] + rest)
      case None => None
    else None
  }

  /** Reads an RFC 3501 `quoted` string: DQUOTE *QUOTED-CHAR DQUOTE. */
  function Unquote(q: string): Option<string> {
    if q != [] && q[0] == '"' then UnquoteBody(q[1..]) else None
  }

  lemma {:induction false} UnquoteEscaped(s: string)
    requires forall i :: 0 <= i < |s| ==> IsTextChar(s[i])
    ensures UnquoteBody(Escape(s) + "\"") == Some(s)
  {
    if s == [] {
      assert Escape(s) + "\"" == "\"";
    } else {
      UnquoteEscaped(s[1..]);
      var t := Escape(s) + "\"";
      assert t == EscapeChar(s[0]) + (Escape(s[1..]) + "\"");
      if s[0] == '\\' || s[0] == '"' {
        assert t[2..] == Escape(s[1..]) + "\"";
      } else {
        assert t[1..] == Escape(s[1..]) + "\"";
      }
      assert [s[0]] + s[1..] == s;
    }
  }

  /** A string of text characters survives quoting: reading the quoted form as
      an RFC 3501 quoted string gives it back. */
  lemma QuoteRoundTrip(s: string)
    requires forall i :: 0 <= i < |s| ==> IsTextChar(s[i])
    ensures Unquote(Quote(s)) == Some(s)
  {
    QuoteEscapes(s);
    UnquoteEscaped(s);
    assert Quote(s)[1..] == Escape(s) + "\"";
  }

  // ---------------------------------------------------------------------
  // Dates: `datetime.strptime(s, "%Y-%m-%d").strftime("%d-%b-%Y")`
  // ---------------------------------------------------------------------

  datatype Date = Date(year: int, month: int, day: int)

  predicate IsLeap(y: int) {
    y % 4 == 0 && (y % 100 != 0 || y % 400 == 0)
  }

  function DaysIn(y: int, m: int): int
    requires 1 <= m <= 12
  {
    if m == 2 then (if IsLeap(y) then 29 else 28)
    else if m == 4 || m == 6 || m == 9 || m == 11 then 30
    else 31
  }

  /** A date `datetime` accepts. */
  predicate ValidDate(d: Date) {
    1 <= d.year <= 9999 && 1 <= d.month <= 12 && 1 <= d.day <= DaysIn(d.year, d.month)
  }

  /** The `%m` directive: the first of `1[0-2]`, `0[1-9]`, `[1-9]` that matches,
      with the value and the number of characters used. */
  function MatchMonth(t: string): Option<(int, nat)> {
    if |t| >= 2 && t[0] == '1' && '0' <= t[1] <= '2' then Some((10 + DigitValue(t[1]), 2))
    else if |t| >= 2 && t[0] == '0' && '1' <= t[1] <= '9' then Some((DigitValue(t[1]), 2))
    else if |t| >= 1 && '1' <= t[0] <= '9' then Some((DigitValue(t[0]), 1))
    else None
  }

  /** The `%d` directive: the first of `3[01]`, `[12]\d`, `0[1-9]`, `[1-9]`,
      ` [1-9]` that matches. */
  function MatchDay(t: string): Option<(int, nat)> {
    if |t| >= 2 && t[0] == '3' && (t[1] == '0' || t[1] == '1') then Some((30 + DigitValue(t[1]), 2))
    else if |t| >= 2 && (t[0] == '1' || t[0] == '2') && IsDigit(t[1]) then
      Some((10 * DigitValue(t[0]) + DigitValue(t[1]), 2))
    else if |t| >= 2 && t[0] == '0' && '1' <= t[1] <= '9' then Some((DigitValue(t[1]), 2))
    else if |t| >= 1 && '1' <= t[0] <= '9' then Some((DigitValue(t[0]), 1))
    else if |t| >= 2 && t[0] == ' ' && '1' <= t[1] <= '9' then Some((DigitValue(t[1]), 2))
    else None
  }

  /** `datetime.strptime(s, "%Y-%m-%d")`: four digits, `-`, month, `-`, day,
      nothing after, and a real calendar date. */
  function ParseIso(s: string): Result<Date, string> {
    if |s| < 5 || !AllDigits(s[..4]) || s[4] != '-' then Err("does not match format '%Y-%m-%d'")
    else
      var year := DecimalValue(s[..4]);
      var t := s[5..];
      match MatchMonth(t)
      case None => Err("does not match format '%Y-%m-%d'")
      case Some((month, k)) =>
        if k >= |t| || t[k] != '-' then Err("does not match format '%Y-%m-%d'")
        else
          var u := t[k + 1..];
          match MatchDay(u)
          case None => Err("does not match format '%Y-%m-%d'")
          case Some((day, j)) =>
            if j < |u| then Err("unconverted data remains")
            else if !ValidDate(Date(year, month, day)) then Err("day is out of range for month")
            else Ok(Date(year, month, day))
  }

  function MonthAbbr(m: int): string
    requires 1 <= m <= 12
  {
    ["Jan", "Feb", "Mar", "Apr", "May", "Jun", "Jul", "Aug", "Sep", "Oct", "Nov", "Dec"][m - 1]
  }

  /** Zero-padded two-digit rendering (`%d`, `%m`). */
  function TwoDigits(n: int): string
    requires 0 <= n < 100
  {
    [DigitChar(n / 10), DigitChar(n % 10)]
  }

  /** `strftime("%d-%b-%Y")`; the year is printed as `str(year)`, so without
      padding below 1000, as the C library's `%Y` does. */
  function DateText(d: Date): string
    requires ValidDate(d)
  {
    TwoDigits(d.day) + "-" + MonthAbbr(d.month) + "-" + NatToString(d.year)
  }

  /** `_imap_date(s)`: a valid ISO date rewritten as `date-text`, any other input an error. */
  function ImapDate(s: string): (r: Result<string, string>)
    ensures r.Ok? <==> ParseIso(s).Ok?
  {
    match ParseIso(s)
    case Ok(d) => Ok(DateText(d))
    case Err(e) => Err(e)
  }

  /** `YYYY-MM-DD` with zero padding. */
  function IsoText(d: Date): string
    requires 1 <= d.year <= 9999 && 1 <= d.month <= 12 && 1 <= d.day <= 31
  {
    [DigitChar(d.year / 1000), DigitChar((d.year / 100) % 10), DigitChar((d.year / 10) % 10),
     DigitChar(d.year % 10)] + "-" + TwoDigits(d.month) + "-" + TwoDigits(d.day)
  }

  lemma FourDigitValue(s: string, y: int)
    requires 1 <= y <= 9999
    requires s == [DigitChar(y / 1000), DigitChar((y / 100) % 10), DigitChar((y / 10) % 10), DigitChar(y % 10)]
    ensures AllDigits(s) && DecimalValue(s) == y
  {
    var z := y / 10;
    var w := z / 10;
    assert y / 100 == w && y / 1000 == w / 10;
    assert s[..3][..2][..1][..0] == [];
    assert DecimalValue(s[..1]) == w / 10;
    assert DecimalValue(s[..2]) == (w / 10) * 10 + w % 10 == w;
    assert s[..3][..2] == s[..2] && s[..3][2] == DigitChar(z % 10);
    assert DecimalValue(s[..3]) == DecimalValue(s[..2]) * 10 + DigitValue(s[2]);
    assert DecimalValue(s[..3]) == w * 10 + z % 10 == z;
    assert s[..4][..3] == s[..3] && s == s[..4];
  }

  /** Any well-formed `YYYY-MM-DD` text is accepted exactly when it names a
      real calendar date, and then becomes that date's `date-text`. */
  lemma ImapDateOfIso(d: Date)
    requires 1 <= d.year <= 9999 && 1 <= d.month <= 12 && 1 <= d.day <= 31
    ensures ImapDate(IsoText(d)).Ok? <==> ValidDate(d)
    ensures ValidDate(d) ==> ImapDate(IsoText(d)) == Ok(DateText(d))
  {
    var s := IsoText(d);
    FourDigitValue(s[..4], d.year);
    var t := s[5..];
    assert t == TwoDigits(d.month) + "-" + TwoDigits(d.day);
    assert MatchMonth(t) == Some((d.month, 2));
    var u := t[3..];
    assert u == TwoDigits(d.day);
    assert MatchDay(u) == Some((d.day, 2));
  }

  /** Reads an RFC 3501 `date-text` with a four-digit year. */
  function ParseDateText(t: string): Option<Date> {
    if |t| != 11 || !AllDigits(t[..2]) || t[2] != '-' || t[6] != '-' || !AllDigits(t[7..]) then None
    else
      var m := MonthIndex(t[3..6], 1);
      if m.None? then None
      else Some(Date(DecimalValue(t[7..]), m.value, DecimalValue(t[..2])))
  }

  /** The month number, at least `from`, whose abbreviation is `s`. */
  function MonthIndex(s: string, from: int): (r: Option<int>)
    requires 1 <= from <= 13
    ensures r.Some? ==> from <= r.value <= 12 && MonthAbbr(r.value) == s
    decreases 13 - from
  {
    if from > 12 then None
    else if MonthAbbr(from) == s then Some(from)
    else MonthIndex(s, from + 1)
  }

  lemma MonthIndexFinds(m: int, from: int)
    requires 1 <= from <= m <= 12
    ensures MonthIndex(MonthAbbr(m), from) == Some(m)
    decreases m - from
  {
    if MonthAbbr(from) != MonthAbbr(m) {
      MonthIndexFinds(m, from + 1);
    }
  }

  lemma {:induction false} NatToStringFourDigits(y: int)
    requires 1000 <= y <= 9999
    ensures |NatToString(y)| == 4
  {
    assert |NatToString(y / 1000)| == 1;
    assert |NatToString(y / 100)| == 2;
    assert |NatToString(y / 10)| == 3;
  }

  /** For four-digit years the rewritten date is valid `date-text` that reads
      back as the same date. */
  lemma DateTextRoundTrip(d: Date)
    requires ValidDate(d) && 1000 <= d.year
    ensures ParseDateText(DateText(d)) == Some(d)
  {
    var t := DateText(d);
    NatToStringFourDigits(d.year);
    DecimalRoundTrip(d.year);
    assert t[7..] == NatToString(d.year);
    assert t[3..6] == MonthAbbr(d.month);
    MonthIndexFinds(d.month, 1);
    assert t[..2] == TwoDigits(d.day);
    assert t[..2][..1] == [DigitChar(d.day / 10)] && t[..2][1] == DigitChar(d.day % 10);
    assert DecimalValue(t[..2]) == DecimalValue(t[..2][..1]) * 10 + DigitValue(t[..2][1]);
    assert DecimalValue(t[..2]) == (d.day / 10) * 10 + d.day % 10 == d.day;
  }

  // ---------------------------------------------------------------------
  // The builder
  // ---------------------------------------------------------------------

  /** `from_`, `to`, `cc`, `bcc`, `subject`, `text`, `body`. */
  datatype FieldKey = From | To | Cc | Bcc | Subject | TextKey | BodyKey

  function FieldKeyword(k: FieldKey): string {
    match k
    case From => "FROM" case To => "TO" case Cc => "CC" case Bcc => "BCC"
    case Subject => "SUBJECT" case TextKey => "TEXT" case BodyKey => "BODY"
  }

  /** `since`, `before`, `on`. */
  datatype DateKey = Since | BeforeDate | On

  function DateKeyword(k: DateKey): string {
    match k case Since => "SINCE" case BeforeDate => "BEFORE" case On => "ON"
  }

  /** `seen`, `unseen`, `answered`, `flagged`, `all`. */
  datatype FlagKey = Seen | Unseen | Answered | Flagged | All

  function FlagKeyword(k: FlagKey): string {
    match k
    case Seen => "SEEN" case Unseen => "UNSEEN" case Answered => "ANSWERED"
    case Flagged => "FLAGGED" case All => "ALL"
  }

  /** `build()` over a token list: `ALL` for no tokens, else the tokens joined by single spaces. */
  function Build(parts: seq<string>): string {
    if parts == [] then "ALL" else Join(" ", parts)
  }

  /** `query.build() or "ALL"` */
  function CriteriaOf(parts: seq<string>): (c: string)
    ensures c != ""
    ensures parts == [] ==> c == "ALL"
  {
    var b := Build(parts);
    if b == "" then "ALL" else b
  }

  /** A criteria string splits back into its tokens when none of them holds
      whitespace; an empty query is the single token `ALL`. */
  lemma BuildSplits(parts: seq<string>)
    requires forall k :: 0 <= k < |parts| ==> IsWord(parts[k])
    ensures Split(Build(parts)) == if parts == [] then ["ALL"] else parts
  {
    if parts == [] {
      assert IsWord("ALL");
      SplitJoin(["ALL"]);
    } else {
      SplitJoin(parts);
    }
  }

  class Query {
    var parts: seq<string>

    constructor ()
      ensures parts == []
    {
      parts := [];
    }

    /** Appends `[KEY, _q(s)]` and returns the same query for chaining. */
    method AddField(k: FieldKey, s: string) returns (self: Query)
      modifies this
      ensures self == this
      ensures parts == old(parts) + [FieldKeyword(k), Quote(s)]
    {
      parts := parts + [FieldKeyword(k), Quote(s)];
      self := this;
    }

    /** Appends `[KEY, date-text]`; an invalid date raises before anything is appended. */
    method AddDate(k: DateKey, iso: string) returns (r: Result<Query, string>)
      modifies this
      ensures r.Ok? <==> ImapDate(iso).Ok?
      ensures r.Ok? ==> r.value == this && parts == old(parts) + [DateKeyword(k), ImapDate(iso).value]
      ensures r.Err? ==> parts == old(parts)
    {
      var text := ImapDate(iso);
      if text.Err? {
        return Err(text.error);
      }
      parts := parts + [DateKeyword(k), text.value];
      r := Ok(this);
    }

    /** Appends one keyword token. */
    method AddFlag(k: FlagKey) returns (self: Query)
      modifies this
      ensures self == this
      ensures parts == old(parts) + [FlagKeyword(k)]
    {
      parts := parts + [FlagKeyword(k)];
      self := this;
    }

    /** Appends the tokens verbatim, in order. */
    method Raw(tokens: seq<string>) returns (self: Query)
      modifies this
      ensures self == this
      ensures parts == old(parts) + tokens
    {
      parts := parts + tokens;
      self := this;
    }

    function BuildQuery(): string
      reads this
    {
      Build(parts)
    }
  }
}
