/**
 * The audit log viewer: the severity, event-type and free-text filters over
 * the engine's log, and the CSV export of what the filters keep. The export's
 * fields are double-quoted as RFC 4180 (section 2) describes, with records
 * separated by a line feed; `ParseRecords` reads that format back.
 */
module SecurityLogs {
  import opened Wrappers
  import opened Text
  import opened Types

  /** The filter value that lets every severity or every event type through. */
  const ALL := "ALL"
  /** The user cell of an entry without a (non-empty) username. */
  const NOT_AVAILABLE := "N/A"
  const QUOTE: char := '"'
  const COMMA := ","
  const NEWLINE := "\n"
  const HEADERS: seq<string> := ["Timestamp", "Severity", "Event Type", "User", "IP Address", "Details"]

  // ----- filtering -----

  predicate MatchesSeverity(log: SecurityLog, filterSeverity: string) {
    filterSeverity == ALL || log.severity.Name() == filterSeverity
  }

  predicate MatchesType(log: SecurityLog, filterType: string) {
    filterType == ALL || log.eventType.Name() == filterType
  }

  /**
   * The details (case-insensitively), the source address (case-sensitively)
   * or a non-empty username (case-insensitively) contains the search term.
   */
  predicate MatchesSearch(log: SecurityLog, term: string) {
    Contains(ToLower(log.details), ToLower(term))
    || Contains(log.sourceIp, term)
    || (log.username.Some? && log.username.value != "" && Contains(ToLower(log.username.value), ToLower(term)))
  }

  predicate Keep(log: SecurityLog, filterSeverity: string, filterType: string, term: string) {
    MatchesSeverity(log, filterSeverity) && MatchesType(log, filterType) && MatchesSearch(log, term)
  }

  /** `filteredLogs`: the entries the three filters keep, in their original order. */
  function FilteredLogs(logs: seq<SecurityLog>, filterSeverity: string, filterType: string, term: string)
    : (r: seq<SecurityLog>)
    ensures |r| <= |logs|
    decreases |logs|
  {
    if logs == [] then []
    else (if Keep(logs[0], filterSeverity, filterType, term) then [logs[0]] else [])
         + FilteredLogs(logs[1..], filterSeverity, filterType, term)
  }

  /** An entry is shown exactly when it is in the log and passes every filter. */
  lemma {:induction false} FilteredMembership(logs: seq<SecurityLog>, filterSeverity: string, filterType: string,
                                              term: string, x: SecurityLog)
    ensures x in FilteredLogs(logs, filterSeverity, filterType, term)
            <==> x in logs && Keep(x, filterSeverity, filterType, term)
    decreases |logs|
  {
    if logs != [] {
      FilteredMembership(logs[1..], filterSeverity, filterType, term, x);
      assert logs == [logs[0]] + logs[1..];
    }
  }

  /** `a` is `b` with some entries dropped and the rest in the same order. */
  predicate IsSubsequence<T(==)>(a: seq<T>, b: seq<T>)
    decreases |b|
  {
    if a == [] then true
    else if b == [] then false
    else (a[0] == b[0] && IsSubsequence(a[1..], b[1..])) || IsSubsequence(a, b[1..])
  }

  /** Filtering never reorders the log. */
  lemma {:induction false} FilteredIsSubsequence(logs: seq<SecurityLog>, filterSeverity: string, filterType: string,
                                                 term: string)
    ensures IsSubsequence(FilteredLogs(logs, filterSeverity, filterType, term), logs)
    decreases |logs|
  {
    if logs != [] {
      var rest := FilteredLogs(logs[1..], filterSeverity, filterType, term);
      FilteredIsSubsequence(logs[1..], filterSeverity, filterType, term);
      if Keep(logs[0], filterSeverity, filterType, term) {
        assert FilteredLogs(logs, filterSeverity, filterType, term) == [logs[0]] + rest;
        assert ([logs[0]] + rest)[1..] == rest;
      } else {
        assert FilteredLogs(logs, filterSeverity, filterType, term) == rest;
        SubsequenceOfTail(rest, logs);
      }
    }
  }

  lemma {:induction false} SubsequenceOfTail<T>(a: seq<T>, b: seq<T>)
    requires b != [] && IsSubsequence(a, b[1..])
    ensures IsSubsequence(a, b)
  {
  }

  /** Applying the same filters to what they already kept changes nothing. */
  lemma {:induction false} FilteredIdempotent(logs: seq<SecurityLog>, filterSeverity: string, filterType: string,
                                              term: string)
    ensures FilteredLogs(FilteredLogs(logs, filterSeverity, filterType, term), filterSeverity, filterType, term)
            == FilteredLogs(logs, filterSeverity, filterType, term)
    decreases |logs|
  {
    if logs != [] {
      var rest := FilteredLogs(logs[1..], filterSeverity, filterType, term);
      FilteredIdempotent(logs[1..], filterSeverity, filterType, term);
      if Keep(logs[0], filterSeverity, filterType, term) {
        var kept := [logs[0]] + rest;
        assert FilteredLogs(logs, filterSeverity, filterType, term) == kept;
        assert kept[0] == logs[0] && kept[1..] == rest;
      } else {
        assert FilteredLogs(logs, filterSeverity, filterType, term) == rest;
      }
    }
  }

  /** With both filters at "ALL" and an empty search box every entry is shown. */
  lemma {:induction false} NoFilterKeepsAll(logs: seq<SecurityLog>)
    ensures FilteredLogs(logs, ALL, ALL, "") == logs
    decreases |logs|
  {
    if logs != [] {
      assert ToLower("") == "";
      ContainsEmpty(ToLower(logs[0].details));
      assert Keep(logs[0], ALL, ALL, "");
      NoFilterKeepsAll(logs[1..]);
      assert logs == [logs[0]] + logs[1..];
    }
  }

  // ----- CSV export -----

  /** `"${s}"`. */
  function Quoted(s: string): string {
    [QUOTE] + s + [QUOTE]
  }

  /** `s.replace(/"/g, '""')`: every double quote doubled. */
  function EscapeQuotes(s: string): string
    decreases |s|
  {
    if s == [] then []
    else (if s[0] == QUOTE then [QUOTE, QUOTE] else [s[0]]) + EscapeQuotes(s[1..])
  }

  predicate NoQuote(s: string) {
    QUOTE !in s
  }

  /** A field without a double quote needs no escaping. */
  lemma {:induction false} EscapeQuotesIdentity(s: string)
    requires NoQuote(s)
    ensures EscapeQuotes(s) == s
    decreases |s|
  {
    if s != [] {
      assert s[0] in s;
      assert forall c :: c in s[1..] ==> c in s;
      EscapeQuotesIdentity(s[1..]);
      assert s == [s[0]] + s[1..];
    }
  }

  /** `log.username || 'N/A'`: a missing or empty username shows as N/A. */
  function UserCell(username: Option<string>): (r: string)
    ensures username.Some? && username.value != "" ==> r == username.value
    ensures username.None? || username.value == "" ==> r == NOT_AVAILABLE
  {
    if username.Some? && username.value != "" then username.value else NOT_AVAILABLE
  }

  /** The six values an entry contributes to its CSV record, in header order. */
  function CellsOf(log: SecurityLog): seq<string> {
    [log.timestamp, log.severity.Name(), log.eventType.Name(), UserCell(log.username), log.sourceIp, log.details]
  }

  /** Every value escaped and double-quoted. */
  function QuotedCells(cells: seq<string>): (r: seq<string>)
    ensures |r| == |cells|
    ensures forall i :: 0 <= i < |cells| ==> r[i] == Quoted(EscapeQuotes(cells[i]))
  {
    seq(|cells|, i requires 0 <= i < |cells| => Quoted(EscapeQuotes(cells[i])))
  }

  /**
   * One CSV record of an entry as the export writes it: every value quoted,
   * but only the details have their double quotes doubled.
   */
  function RowAsWritten(log: SecurityLog): string {
    Join([Quoted(log.timestamp), Quoted(log.severity.Name()), Quoted(log.eventType.Name()),
          Quoted(UserCell(log.username)), Quoted(log.sourceIp), Quoted(EscapeQuotes(log.details))], COMMA)
  }

  /** One CSV record of an entry with every value escaped. */
  function Row(log: SecurityLog): string {
    Join(QuotedCells(CellsOf(log)), COMMA)
  }

  /** The severity and event-type names hold no double quote. */
  lemma NamesHaveNoQuote(log: SecurityLog)
    ensures NoQuote(log.severity.Name()) && NoQuote(log.eventType.Name())
  {
    match log.severity {
      case Info => case Warning => case Critical =>
    }
    match log.eventType {
      case AuthSuccess => case AuthFailure => case Enrollment => case AttackDetected =>
      case SystemAlert => case ConfigChange => case RateLimitExceeded =>
    }
  }

  /** Where timestamp, user and address hold no double quote, the two records coincide. */
  lemma RowAgreesWithoutQuotes(log: SecurityLog)
    requires NoQuote(log.timestamp) && NoQuote(UserCell(log.username)) && NoQuote(log.sourceIp)
    ensures RowAsWritten(log) == Row(log)
  {
    NamesHaveNoQuote(log);
    EscapeQuotesIdentity(log.timestamp);
    EscapeQuotesIdentity(log.severity.Name());
    EscapeQuotesIdentity(log.eventType.Name());
    EscapeQuotesIdentity(UserCell(log.username));
    EscapeQuotesIdentity(log.sourceIp);
    var cells := CellsOf(log);
    var q := QuotedCells(cells);
    var parts := [Quoted(log.timestamp), Quoted(log.severity.Name()), Quoted(log.eventType.Name()),
                  Quoted(UserCell(log.username)), Quoted(log.sourceIp), Quoted(EscapeQuotes(log.details))];
    assert |q| == |parts| == 6;
    forall i | 0 <= i < 6
      ensures q[i] == parts[i]
    {
      assert q[i] == Quoted(EscapeQuotes(cells[i]));
    }
    assert q == parts;
  }

  function Rows(logs: seq<SecurityLog>): seq<string>
    decreases |logs|
  {
    if logs == [] then [] else [Row(logs[0])] + Rows(logs[1..])
  }

  /** The values of every entry, one record each. */
  function Records(logs: seq<SecurityLog>): seq<seq<string>>
    decreases |logs|
  {
    if logs == [] then [] else [CellsOf(logs[0])] + Records(logs[1..])
  }

  /** The header line followed by one record per entry, joined by line feeds. */
  function Csv(logs: seq<SecurityLog>): string {
    Join([Join(HEADERS, COMMA)] + Rows(logs), NEWLINE)
  }

  /** `handleExport`'s file contents: the CSV of what the filters keep. */
  function Export(logs: seq<SecurityLog>, filterSeverity: string, filterType: string, term: string): string {
    Csv(FilteredLogs(logs, filterSeverity, filterType, term))
  }

  // ----- reading the format back -----

  type Table = seq<seq<string>>

  /**
   * The inside of a quoted field: its value up to the closing quote (a
   * doubled quote stands for one) and what follows that quote.
   */
  function ScanQuoted(s: string): (r: Option<(string, string)>)
    ensures r.Some? ==> |r.value.1| < |s|
    decreases |s|
  {
    if s == [] then None
    else if s[0] == QUOTE then
      if |s| >= 2 && s[1] == QUOTE then
        match ScanQuoted(s[2..])
        case None => None
        case Some((v, rest)) => Some(([QUOTE] + v, rest))
      else Some(([], s[1..]))
    else
      match ScanQuoted(s[1..])
      case None => None
      case Some((v, rest)) => Some(([s[0]] + v, rest))
  }

  /** An unquoted field: up to the next comma or line feed; a double quote in it is an error. */
  function ScanPlain(s: string): (r: Option<(string, string)>)
    ensures r.Some? ==> |r.value.1| <= |s|
    decreases |s|
  {
    if s == [] || s[0] == ',' || s[0] == '\n' then Some(([], s))
    else if s[0] == QUOTE then None
    else
      match ScanPlain(s[1..])
      case None => None
      case Some((v, rest)) => Some(([s[0]] + v, rest))
  }

  /** One field, quoted or bare, and what follows it. */
  function ParseField(s: string): (r: Option<(string, string)>)
    ensures r.Some? ==> |r.value.1| <= |s|
  {
    if s != [] && s[0] == QUOTE then ScanQuoted(s[1..]) else ScanPlain(s)
  }

  /** `v` put in front of the first record of a parsed table. */
  function AddField(v: string, t: Option<Table>): Option<Table>
    requires t.Some? ==> |t.value| >= 1
  {
    match t
    case None => None
    case Some(rs) => Some([[v] + rs[0]] + rs[1..])
  }

  /** Record `f` put in front of a parsed table. */
  function AddRecord(f: seq<string>, t: Option<Table>): Option<Table> {
    match t
    case None => None
    case Some(rs) => Some([f] + rs)
  }

  /** Records of comma-separated fields, separated by line feeds. */
  function ParseRecords(s: string): (r: Option<Table>)
    ensures r.Some? ==> |r.value| >= 1
    decreases |s|
  {
    match ParseField(s)
    case None => None
    case Some((v, rest)) =>
      if rest == [] then Some([[v]])
      else if rest[0] == ',' then AddField(v, ParseRecords(rest[1..]))
      else if rest[0] == '\n' then AddRecord([v], ParseRecords(rest[1..]))
      else None
  }

  /** What a record `f` ending just before `t` reads as, together with what follows it. */
  function Then(f: seq<string>, t: string): Option<Table> {
    if t == [] then Some([f]) else AddRecord(f, ParseRecords(t[1..]))
  }

  /** An escaped value followed by the closing quote scans back to the value. */
  lemma {:induction false} ScanEscaped(v: string, t: string)
    requires t == [] || t[0] != QUOTE
    ensures ScanQuoted(EscapeQuotes(v) + [QUOTE] + t) == Some((v, t))
    decreases |v|
  {
    var s := EscapeQuotes(v) + [QUOTE] + t;
    if v == [] {
      assert s == [QUOTE] + t;
      assert s[1..] == t;
    } else {
      ScanEscaped(v[1..], t);
      var tail := EscapeQuotes(v[1..]) + [QUOTE] + t;
      if v[0] == QUOTE {
        assert s == [QUOTE, QUOTE] + tail;
        assert s[2..] == tail;
      } else {
        assert s == [v[0]] + tail;
        assert s[1..] == tail;
      }
      assert v == [v[0]] + v[1..];
    }
  }

  /** A quoted, escaped value reads back as the value. */
  lemma QuotedField(v: string, t: string)
    requires t == [] || t[0] != QUOTE
    ensures ParseField(Quoted(EscapeQuotes(v)) + t) == Some((v, t))
  {
    var body := EscapeQuotes(v) + [QUOTE] + t;
    var s := Quoted(EscapeQuotes(v)) + t;
    assert s == [QUOTE] + body;
    assert s[0] == QUOTE && s[1..] == body;
    ScanEscaped(v, t);
    assert ParseField(s) == ScanQuoted(body);
  }

  /** A value without comma, quote or line feed followed by a separator scans back to itself. */
  lemma {:induction false} BareField(v: string, t: string)
    requires ',' !in v && QUOTE !in v && '\n' !in v
    requires t == [] || t[0] == ',' || t[0] == '\n'
    ensures ParseField(v + t) == Some((v, t))
    decreases |v|
  {
    if v == [] {
      assert v + t == t;
    } else {
      assert v[0] in v;
      assert forall c :: c in v[1..] ==> c in v;
      BareField(v[1..], t);
      assert (v + t)[1..] == v[1..] + t;
      assert v == [v[0]] + v[1..];
    }
  }

  /** A field followed by a comma: the rest of the line continues its record. */
  lemma FieldThenComma(s: string, v: string, u: string)
    requires ParseField(s) == Some((v, COMMA + u))
    ensures ParseRecords(s) == AddField(v, ParseRecords(u))
  {
    assert (COMMA + u)[1..] == u;
  }

  /** The last field of a record, followed by the end or a line feed. */
  lemma FieldThenEnd(s: string, v: string, t: string)
    requires ParseField(s) == Some((v, t)) && (t == [] || t[0] == '\n')
    ensures ParseRecords(s) == Then([v], t)
  {
  }

  /** Another field in front of a record still followed by `t`. */
  lemma AddFieldThen(v: string, f: seq<string>, t: string)
    ensures AddField(v, Then(f, t)) == Then([v] + f, t)
  {
    if t == [] {
      assert [f][0] == f && [f][1..] == [];
      assert [[v] + f] + [] == [[v] + f];
      assert AddField(v, Some([f])) == Some([[v] + f]);
    } else {
      match ParseRecords(t[1..])
      case None =>
      case Some(rs) =>
        assert ([f] + rs)[0] == f && ([f] + rs)[1..] == rs;
    }
  }

  /** A record of quoted values followed by `t` parses to the values, then to what follows. */
  lemma {:induction false} QuotedRecordThen(f: seq<string>, t: string)
    requires |f| >= 1 && (t == [] || t[0] == '\n')
    ensures ParseRecords(Join(QuotedCells(f), COMMA) + t) == Then(f, t)
    decreases |f|
  {
    var cells := QuotedCells(f);
    if |f| == 1 {
      assert Join(cells, COMMA) + t == Quoted(EscapeQuotes(f[0])) + t;
      QuotedField(f[0], t);
      FieldThenEnd(Join(cells, COMMA) + t, f[0], t);
      assert [f[0]] == f;
    } else {
      assert cells[1..] == QuotedCells(f[1..]);
      var u := Join(QuotedCells(f[1..]), COMMA) + t;
      assert Join(cells, COMMA) + t == Quoted(EscapeQuotes(f[0])) + (COMMA + u);
      QuotedField(f[0], COMMA + u);
      FieldThenComma(Join(cells, COMMA) + t, f[0], u);
      QuotedRecordThen(f[1..], t);
      AddFieldThen(f[0], f[1..], t);
      assert [f[0]] + f[1..] == f;
    }
  }

  /** The same for a record of bare values that need no quoting. */
  lemma {:induction false} BareRecordThen(f: seq<string>, t: string)
    requires |f| >= 1 && (t == [] || t[0] == '\n')
    requires forall i :: 0 <= i < |f| ==> ',' !in f[i] && QUOTE !in f[i] && '\n' !in f[i]
    ensures ParseRecords(Join(f, COMMA) + t) == Then(f, t)
    decreases |f|
  {
    if |f| == 1 {
      BareField(f[0], t);
      FieldThenEnd(f[0] + t, f[0], t);
      assert [f[0]] == f;
    } else {
      var u := Join(f[1..], COMMA) + t;
      assert Join(f, COMMA) + t == f[0] + (COMMA + u);
      BareField(f[0], COMMA + u);
      FieldThenComma(f[0] + (COMMA + u), f[0], u);
      BareRecordThen(f[1..], t);
      AddFieldThen(f[0], f[1..], t);
      assert [f[0]] + f[1..] == f;
    }
  }

  /** The records of a non-empty log, joined by line feeds, parse back to the entries' values. */
  lemma {:induction false} RowsRoundTrip(logs: seq<SecurityLog>)
    requires logs != []
    ensures ParseRecords(Join(Rows(logs), NEWLINE)) == Some(Records(logs))
    decreases |logs|
  {
    var cells := CellsOf(logs[0]);
    assert Records(logs) == [cells] + Records(logs[1..]);
    if |logs| == 1 {
      assert Rows(logs) == [Row(logs[0])];
      assert Join(Rows(logs), NEWLINE) == Join(QuotedCells(cells), COMMA) + [];
      QuotedRecordThen(cells, []);
      assert Then(cells, []) == Some([cells]);
      assert Records(logs[1..]) == [];
      assert Records(logs) == [cells];
    } else {
      var t := NEWLINE + Join(Rows(logs[1..]), NEWLINE);
      assert Rows(logs)[1..] == Rows(logs[1..]);
      assert Join(Rows(logs), NEWLINE) == Row(logs[0]) + t;
      QuotedRecordThen(cells, t);
      assert t[1..] == Join(Rows(logs[1..]), NEWLINE);
      RowsRoundTrip(logs[1..]);
    }
  }

  /** No column name needs quoting. */
  lemma HeadersAreBare()
    ensures forall i :: 0 <= i < |HEADERS| ==> ',' !in HEADERS[i] && QUOTE !in HEADERS[i] && '\n' !in HEADERS[i]
  {
    forall i | 0 <= i < |HEADERS|
      ensures ',' !in HEADERS[i] && QUOTE !in HEADERS[i] && '\n' !in HEADERS[i]
    {
    }
  }

  /** The export reads back as the header followed by the values of every entry, in order. */
  lemma CsvRoundTrip(logs: seq<SecurityLog>)
    ensures ParseRecords(Csv(logs)) == Some([HEADERS] + Records(logs))
  {
    var header := Join(HEADERS, COMMA);
    HeadersAreBare();
    if logs == [] {
      assert Csv(logs) == header + [];
      BareRecordThen(HEADERS, []);
      assert [HEADERS] + Records(logs) == [HEADERS];
    } else {
      var t := NEWLINE + Join(Rows(logs), NEWLINE);
      assert ([header] + Rows(logs))[1..] == Rows(logs);
      assert Csv(logs) == header + t;
      BareRecordThen(HEADERS, t);
      assert t[1..] == Join(Rows(logs), NEWLINE);
      RowsRoundTrip(logs);
    }
  }

  // ----- the unescaped username -----

  /** A quoted field that closes after one character and is followed by neither separator is an error. */
  lemma LoneQuoteMisparses(x: char, y: char, w: string)
    requires x != QUOTE && y != QUOTE && y != ',' && y != '\n'
    ensures ParseRecords([QUOTE, x, QUOTE, y] + w) == None
  {
    var s := [QUOTE, x, QUOTE, y] + w;
    assert s[0] == QUOTE && s[1..] == [x] + ([QUOTE, y] + w);
    assert ([x] + ([QUOTE, y] + w))[1..] == [QUOTE, y] + w;
    assert ([QUOTE, y] + w)[1..] == [y] + w;
    assert ([QUOTE, y] + w)[0] == QUOTE && ([QUOTE, y] + w)[1] == y;
    assert ScanQuoted([QUOTE, y] + w) == Some(([], [y] + w));
    assert [x] + [] == [x];
    assert ParseField(s) == Some(([x], [y] + w));
  }

  /** A quoted value without double quotes, then a comma: the rest of the line continues its record. */
  lemma QuotedThenComma(x: string, u: string)
    requires NoQuote(x)
    ensures ParseRecords(Quoted(x) + (COMMA + u)) == AddField(x, ParseRecords(u))
  {
    EscapeQuotesIdentity(x);
    QuotedField(x, COMMA + u);
    FieldThenComma(Quoted(x) + (COMMA + u), x, u);
  }

  /** The record as written, taken apart after its fourth field. */
  lemma RowAsWrittenShape(log: SecurityLog)
    ensures RowAsWritten(log)
            == Quoted(log.timestamp) + (COMMA + (Quoted(log.severity.Name()) + (COMMA + (Quoted(log.eventType.Name())
               + (COMMA + (Quoted(UserCell(log.username))
               + (COMMA + Join([Quoted(log.sourceIp), Quoted(EscapeQuotes(log.details))], COMMA))))))))
  {
    var parts := [Quoted(log.timestamp), Quoted(log.severity.Name()), Quoted(log.eventType.Name()),
                  Quoted(UserCell(log.username)), Quoted(log.sourceIp), Quoted(EscapeQuotes(log.details))];
    assert parts[1..][1..] == parts[2..];
    assert parts[2..][1..] == parts[3..];
    assert parts[3..][1..] == parts[4..];
    assert parts[4..] == [Quoted(log.sourceIp), Quoted(EscapeQuotes(log.details))];
    JoinCons(parts, COMMA);
    JoinCons(parts[1..], COMMA);
    JoinCons(parts[2..], COMMA);
    JoinCons(parts[3..], COMMA);
  }

  lemma JoinCons(parts: seq<string>, sep: string)
    requires |parts| >= 2
    ensures Join(parts, sep) == parts[0] + (sep + Join(parts[1..], sep))
  {
  }

  /** The username `a"b` of the sample. */
  const SAMPLE_USERNAME := "a\"b"

  /**
   * A username holding a double quote makes the record as written unreadable
   * (its field closes after `a`), while the escaped record reads back.
   */
  lemma UnescapedUsernameBreaksRecord(log: SecurityLog)
    requires log.username == Some(SAMPLE_USERNAME) && NoQuote(log.timestamp)
    ensures ParseRecords(RowAsWritten(log)).None?
    ensures ParseRecords(Row(log)) == Some([CellsOf(log)])
  {
    var rest := COMMA + Join([Quoted(log.sourceIp), Quoted(EscapeQuotes(log.details))], COMMA);
    RowAsWrittenShape(log);
    assert UserCell(log.username) == ['a', QUOTE, 'b'];
    assert Quoted(UserCell(log.username)) + rest == [QUOTE, 'a', QUOTE, 'b'] + ([QUOTE] + rest);
    LoneQuoteMisparses('a', 'b', [QUOTE] + rest);
    NamesHaveNoQuote(log);
    var u3 := Quoted(log.eventType.Name()) + (COMMA + (Quoted(UserCell(log.username)) + rest));
    var u2 := Quoted(log.severity.Name()) + (COMMA + u3);
    QuotedThenComma(log.eventType.Name(), Quoted(UserCell(log.username)) + rest);
    QuotedThenComma(log.severity.Name(), u3);
    QuotedThenComma(log.timestamp, u2);
    RowRoundTrip(log);
  }

  /** Every entry's escaped record reads back as its six values. */
  lemma RowRoundTrip(log: SecurityLog)
    ensures ParseRecords(Row(log)) == Some([CellsOf(log)])
  {
    QuotedRecordThen(CellsOf(log), []);
    assert Row(log) + [] == Row(log);
  }
}
