// Product export and import: fields are escaped and quoted on the way out, and a
// byte-by-byte state machine reads them back. A string stands for its bytes.

module Csv {

  datatype Result<T> = Success(value: T) | TooManyRows

  // ---- writing ----

  predicate StartsFormula(s: string) {
    s != "" && (s[0] == '=' || s[0] == '+' || s[0] == '-' || s[0] == '@')
  }

  function Escape(s: string): string {
    if StartsFormula(s) then "'" + s else s
  }

  predicate NeedsQuotes(s: string) {
    ',' in s || '"' in s || '\n' in s
  }

  function Doubled(s: string): string {
    if s == "" then "" else (if s[0] == '"' then "\"\"" else [s[0]]) + Doubled(s[1..])
  }

  function Field(s: string): string {
    var e := Escape(s);
    if NeedsQuotes(e) then "\"" + Doubled(e) + "\"" else e
  }

  // The fields of a row, without a newline.
  function WriteFields(row: seq<string>): string {
    if row == [] then ""
    else if |row| == 1 then Field(row[0])
    else Field(row[0]) + "," + WriteFields(row[1..])
  }

  function WriteRow(row: seq<string>): string {
    WriteFields(row) + "\n"
  }

  function Write(table: seq<seq<string>>): string {
    if table == [] then "" else WriteRow(table[0]) + Write(table[1..])
  }

  // ---- reading ----

  // Not a blank line.
  predicate Solid(record: seq<string>) {
    |record| > 1 || (|record| == 1 && record[0] != "")
  }

  datatype Reader = Reader(records: seq<seq<string>>, record: seq<string>, field: string, inQuotes: bool) {
    function Add(ch: char): Reader {
      this.(field := field + [ch])
    }

    function FlushField(): Reader {
      this.(record := record + [field], field := "")
    }

    // A record that is one empty field is a blank line and is dropped.
    function FlushRecord(): Reader {
      var whole := record + [field];
      Reader(if Solid(whole) then records + [whole] else records, [], "", inQuotes)
    }
  }

  const FRESH := Reader([], [], "", false)

  // What the reader makes of the bytes still to come.
  function Scan(st: Reader, data: string, maxRows: nat): Result<seq<seq<string>>>
    decreases |data|
  {
    if data == "" then
      Success(if |st.field| > 0 || |st.record| > 0 then st.FlushRecord().records else st.records)
    else if st.inQuotes then
      if data[0] != '"' then Scan(st.Add(data[0]), data[1..], maxRows)
      else if |data| > 1 && data[1] == '"' then Scan(st.Add('"'), data[2..], maxRows)
      else Scan(st.(inQuotes := false), data[1..], maxRows)
    else if data[0] == '"' then Scan(st.(inQuotes := true), data[1..], maxRows)
    else if data[0] == ',' then Scan(st.FlushField(), data[1..], maxRows)
    else if data[0] == '\r' then Scan(st, data[1..], maxRows)
    else if data[0] == '\n' then
      if |st.FlushRecord().records| > maxRows then TooManyRows else Scan(st.FlushRecord(), data[1..], maxRows)
    else Scan(st.Add(data[0]), data[1..], maxRows)
  }

  method ReadCsv(data: string, maxRows: nat) returns (result: Result<seq<seq<string>>>)
    ensures result == Scan(FRESH, data, maxRows)
  {
    var records: seq<seq<string>> := [];
    var record: seq<string> := [];
    var field := "";
    var inQuotes := false;
    var lines := 0;
    var i := 0;
    assert data[0..] == data;
    while i < |data|
      invariant 0 <= i <= |data| && lines == |records|
      invariant Scan(FRESH, data, maxRows) == Scan(Reader(records, record, field, inQuotes), data[i..], maxRows)
    {
      var ch := data[i];
      assert data[i..][1..] == data[i + 1..];
      if inQuotes {
        if ch == '"' {
          if i + 1 < |data| && data[i + 1] == '"' {
            assert data[i..][2..] == data[i + 2..];
            field := field + ['"'];
            i := i + 1;
          } else {
            inQuotes := false;
          }
        } else {
          field := field + [ch];
        }
      } else if ch == '"' {
        inQuotes := true;
      } else if ch == ',' {
        record, field := record + [field], "";
      } else if ch == '\r' {
      } else if ch == '\n' {
        record, field := record + [field], "";
        if |record| > 1 || record[0] != "" {
          records, lines := records + [record], lines + 1;
        }
        record := [];
        if lines > maxRows {
          return TooManyRows;
        }
      } else {
        field := field + [ch];
      }
      i := i + 1;
    }
    assert data[i..] == "";
    if |field| > 0 || |record| > 0 {
      record := record + [field];
      if |record| > 1 || record[0] != "" {
        records := records + [record];
      }
    }
    result := Success(records);
  }

  // ---- reading what was written ----

  function WithoutCr(s: string): string {
    if s == "" then "" else (if s[0] == '\r' then "" else [s[0]]) + WithoutCr(s[1..])
  }

  // The field a reader gets for a field that was written.
  function Received(s: string): string {
    var e := Escape(s);
    if NeedsQuotes(e) then e else WithoutCr(e)
  }

  function ReceivedRow(row: seq<string>): seq<string> {
    seq(|row|, i requires 0 <= i < |row| => Received(row[i]))
  }

  // Rows that come back: all but blank lines.
  function Surviving(table: seq<seq<string>>): seq<seq<string>> {
    if table == [] then [] else Kept(ReceivedRow(table[0])) + Surviving(table[1..])
  }

  // Single bytes.
  lemma ScanChar(st: Reader, ch: char, rest: string, maxRows: nat)
    requires !st.inQuotes && ch != '"' && ch != ',' && ch != '\n'
    ensures Scan(st, [ch] + rest, maxRows) == Scan(if ch == '\r' then st else st.Add(ch), rest, maxRows)
  {
  }

  lemma ScanInside(st: Reader, ch: char, rest: string, maxRows: nat)
    requires st.inQuotes
    ensures Scan(st, (if ch == '"' then "\"\"" else [ch]) + rest, maxRows) == Scan(st.Add(ch), rest, maxRows)
  {
  }

  lemma ScanQuote(st: Reader, rest: string, maxRows: nat)
    requires st.inQuotes ==> rest == "" || rest[0] != '"'
    ensures Scan(st, "\"" + rest, maxRows) == Scan(st.(inQuotes := !st.inQuotes), rest, maxRows)
  {
  }

  lemma ScanComma(st: Reader, rest: string, maxRows: nat)
    requires !st.inQuotes
    ensures Scan(st, "," + rest, maxRows) == Scan(st.FlushField(), rest, maxRows)
  {
  }

  lemma ScanNewline(st: Reader, rest: string, maxRows: nat)
    requires !st.inQuotes
    ensures Scan(st, "\n" + rest, maxRows)
            == if |st.FlushRecord().records| > maxRows then TooManyRows else Scan(st.FlushRecord(), rest, maxRows)
  {
  }

  // The reader after unquoted text.
  function Absorbed(st: Reader, s: string): Reader {
    st.(field := st.field + WithoutCr(s))
  }

  lemma AbsorbedStep(st: Reader, s: string)
    requires s != ""
    ensures Absorbed(if s[0] == '\r' then st else st.Add(s[0]), s[1..]) == Absorbed(st, s)
  {
    assert st.field + [s[0]] + WithoutCr(s[1..]) == st.field + ([s[0]] + WithoutCr(s[1..]));
    assert "" + WithoutCr(s[1..]) == WithoutCr(s[1..]);
  }

  lemma NothingAbsorbed(st: Reader, rest: string)
    ensures Absorbed(st, "") == st && "" + rest == rest
  {
    assert st.field + "" == st.field;
  }

  lemma PlainTail(s: string, rest: string)
    requires s != "" && !NeedsQuotes(s)
    ensures !NeedsQuotes(s[1..]) && s[0] != '"' && s[0] != ',' && s[0] != '\n'
    ensures s + rest == [s[0]] + (s[1..] + rest)
  {
  }

  lemma {:induction false} ScanPlain(st: Reader, s: string, rest: string, maxRows: nat)
    requires !st.inQuotes && !NeedsQuotes(s)
    ensures Scan(st, s + rest, maxRows) == Scan(Absorbed(st, s), rest, maxRows)
    decreases |s|
  {
    if s == "" {
      NothingAbsorbed(st, rest);
    } else {
      AbsorbedStep(st, s);
      PlainTail(s, rest);
      ScanChar(st, s[0], s[1..] + rest, maxRows);
      ScanPlain(if s[0] == '\r' then st else st.Add(s[0]), s[1..], rest, maxRows);
    }
  }

  lemma DoubledStep(s: string, rest: string)
    requires s != ""
    ensures Doubled(s) + "\"" + rest == (if s[0] == '"' then "\"\"" else [s[0]]) + (Doubled(s[1..]) + "\"" + rest)
  {
  }

  // The written form of a quoted field, closing quote included.
  function Quoted(s: string, rest: string): string {
    if s == "" then "\"" + rest else (if s[0] == '"' then "\"\"" else [s[0]]) + Quoted(s[1..], rest)
  }

  lemma {:induction false} QuotedIsDoubled(s: string, rest: string)
    ensures Quoted(s, rest) == Doubled(s) + "\"" + rest
  {
    if s != "" {
      QuotedIsDoubled(s[1..], rest);
      DoubledStep(s, rest);
    } else {
      assert Doubled(s) + "\"" + rest == "\"" + rest;
    }
  }

  function Closed(st: Reader, s: string): Reader {
    st.(field := st.field + s, inQuotes := false)
  }

  lemma ScanQuotedEnd(st: Reader, rest: string, maxRows: nat)
    requires st.inQuotes && (rest == "" || rest[0] != '"')
    ensures Scan(st, Quoted("", rest), maxRows) == Scan(Closed(st, ""), rest, maxRows)
  {
    ScanQuote(st, rest, maxRows);
    assert Closed(st, "") == st.(inQuotes := false);
  }

  lemma ClosedStep(st: Reader, s: string)
    requires s != ""
    ensures Closed(st.Add(s[0]), s[1..]) == Closed(st, s)
  {
  }

  lemma {:induction false} ScanQuoted(st: Reader, s: string, rest: string, maxRows: nat)
    requires st.inQuotes && (rest == "" || rest[0] != '"')
    ensures Scan(st, Quoted(s, rest), maxRows) == Scan(Closed(st, s), rest, maxRows)
    decreases |s|
  {
    if s == "" {
      ScanQuotedEnd(st, rest, maxRows);
    } else {
      ClosedStep(st, s);
      ScanInside(st, s[0], Quoted(s[1..], rest), maxRows);
      ScanQuoted(st.Add(s[0]), s[1..], rest, maxRows);
    }
  }

  // One field, up to the separator that follows it.
  lemma ScanField(st: Reader, s: string, rest: string, maxRows: nat)
    requires AtField(st) && (rest == "" || rest[0] != '"')
    ensures Scan(st, Field(s) + rest, maxRows) == Scan(st.(field := Received(s)), rest, maxRows)
  {
    var e := Escape(s);
    if NeedsQuotes(e) {
      assert Field(s) + rest == "\"" + (Doubled(e) + "\"" + rest);
      ScanQuote(st, Doubled(e) + "\"" + rest, maxRows);
      QuotedIsDoubled(e, rest);
      ScanQuoted(st.(inQuotes := true), e, rest, maxRows);
    } else {
      ScanPlain(st, e, rest, maxRows);
    }
    assert st.field + Received(s) == Received(s);
  }

  predicate AtField(st: Reader) {
    !st.inQuotes && st.field == ""
  }

  // The reader after the fields of a row, its last field still open.
  function RowOpen(st: Reader, row: seq<string>): Reader
    requires row != []
  {
    st.(record := st.record + ReceivedRow(row[..|row| - 1]), field := Received(row[|row| - 1]))
  }

  lemma RowOpenStep(st: Reader, row: seq<string>)
    requires AtField(st) && |row| > 1
    ensures RowOpen(st.(field := Received(row[0])).FlushField(), row[1..]) == RowOpen(st, row)
  {
    RecordStep(st.record, row);
    assert row[1..][|row| - 2] == row[|row| - 1];
  }

  lemma RecordStep(record: seq<string>, row: seq<string>)
    requires |row| > 1
    ensures record + [Received(row[0])] + ReceivedRow(row[1..][..|row| - 2]) == record + ReceivedRow(row[..|row| - 1])
  {
    var head := row[..|row| - 1];
    assert head[1..] == row[1..][..|row| - 2];
    ReceivedFirst(head);
    assert record + [Received(row[0])] + ReceivedRow(head[1..]) == record + ([Received(row[0])] + ReceivedRow(head[1..]));
  }

  lemma ReceivedFirst(row: seq<string>)
    requires row != []
    ensures ReceivedRow(row) == [Received(row[0])] + ReceivedRow(row[1..])
  {
  }

  lemma WriteFieldsStep(row: seq<string>, rest: string)
    requires |row| > 1
    ensures WriteFields(row) + rest == Field(row[0]) + ("," + (WriteFields(row[1..]) + rest))
  {
    Associates(Field(row[0]), ",", WriteFields(row[1..]), rest);
  }

  lemma Associates(a: string, b: string, c: string, d: string)
    ensures a + b + c + d == a + (b + (c + d))
  {
  }

  lemma {:induction false} ScanFields(st: Reader, row: seq<string>, rest: string, maxRows: nat)
    requires AtField(st) && row != [] && (rest == "" || rest[0] != '"')
    ensures Scan(st, WriteFields(row) + rest, maxRows) == Scan(RowOpen(st, row), rest, maxRows)
    decreases |row|
  {
    if |row| == 1 {
      ScanField(st, row[0], rest, maxRows);
      assert st.record + ReceivedRow(row[..0]) == st.record;
    } else {
      WriteFieldsStep(row, rest);
      var tail := WriteFields(row[1..]) + rest;
      ScanField(st, row[0], "," + tail, maxRows);
      ScanComma(st.(field := Received(row[0])), tail, maxRows);
      RowOpenStep(st, row);
      ScanFields(st.(field := Received(row[0])).FlushField(), row[1..], rest, maxRows);
    }
  }

  // What one row adds.
  function Kept(row: seq<string>): seq<seq<string>> {
    if Solid(row) then [row] else []
  }

  lemma RowClosed(records: seq<seq<string>>, row: seq<string>)
    requires row != []
    ensures RowOpen(FRESH.(records := records), row).FlushRecord() == FRESH.(records := records + Kept(ReceivedRow(row)))
  {
    assert [] + ReceivedRow(row[..|row| - 1]) + [Received(row[|row| - 1])] == ReceivedRow(row);
    assert records + [] == records;
  }

  lemma BlankRow(records: seq<seq<string>>)
    ensures FRESH.(records := records).FlushRecord() == FRESH.(records := records + Kept(ReceivedRow([])))
  {
    assert [] + [""] == [""] && records + [] == records;
  }

  lemma FreshRow(records: seq<seq<string>>, row: seq<string>, rest: string, maxRows: nat)
    requires |records| <= maxRows
    ensures var now := records + Kept(ReceivedRow(row));
            Scan(FRESH.(records := records), WriteRow(row) + rest, maxRows)
            == if |now| > maxRows then TooManyRows else Scan(FRESH.(records := now), rest, maxRows)
  {
    var st := FRESH.(records := records);
    assert WriteRow(row) + rest == WriteFields(row) + ("\n" + rest);
    if row == [] {
      assert WriteFields(row) + ("\n" + rest) == "\n" + rest;
      ScanNewline(st, rest, maxRows);
      BlankRow(records);
    } else {
      ScanFields(st, row, "\n" + rest, maxRows);
      ScanNewline(RowOpen(st, row), rest, maxRows);
      RowClosed(records, row);
    }
  }

  lemma ScanEnd(records: seq<seq<string>>, maxRows: nat)
    ensures Scan(FRESH.(records := records), "", maxRows) == Success(records)
  {
  }

  // records followed by whatever is left, unless that is too many.
  function Limited(all: seq<seq<string>>, maxRows: nat): Result<seq<seq<string>>> {
    if |all| > maxRows then TooManyRows else Success(all)
  }

  lemma Regrouped(a: seq<seq<string>>, b: seq<seq<string>>, c: seq<seq<string>>)
    ensures (a + b) + c == a + (b + c) && |a + b| <= |a + (b + c)|
  {
  }

  lemma {:induction false} ScanTable(records: seq<seq<string>>, table: seq<seq<string>>, rest: string, maxRows: nat)
    requires |records| <= maxRows
    ensures var all := records + Surviving(table);
            Scan(FRESH.(records := records), Write(table) + rest, maxRows)
            == if |all| > maxRows then TooManyRows else Scan(FRESH.(records := all), rest, maxRows)
    decreases |table|
  {
    if table == [] {
      assert Write(table) + rest == rest;
      assert records + Surviving(table) == records;
    } else {
      var kept, later := Kept(ReceivedRow(table[0])), Surviving(table[1..]);
      Regrouped(records, kept, later);
      assert Write(table) + rest == WriteRow(table[0]) + (Write(table[1..]) + rest);
      FreshRow(records, table[0], Write(table[1..]) + rest, maxRows);
      if |records + kept| <= maxRows {
        ScanTable(records + kept, table[1..], rest, maxRows);
      }
    }
  }

  // Reading back any table: every field as Received, blank lines gone, and refused
  // exactly when more rows than the limit are left.
  lemma ReadWritten(table: seq<seq<string>>, maxRows: nat)
    ensures Scan(FRESH, Write(table), maxRows) == Limited(Surviving(table), maxRows)
  {
    ScanTable([], table, "", maxRows);
    assert Write(table) + "" == Write(table);
    assert [] + Surviving(table) == Surviving(table);
    ScanEnd(Surviving(table), maxRows);
  }

  // A last row without its newline: it is read like any other, but not counted.
  lemma ReadUnterminated(table: seq<seq<string>>, last: seq<string>, maxRows: nat)
    requires last != []
    ensures Scan(FRESH, Write(table) + WriteFields(last), maxRows)
            == if |Surviving(table)| > maxRows then TooManyRows else Success(Surviving(table) + Kept(ReceivedRow(last)))
  {
    ScanTable([], table, WriteFields(last), maxRows);
    assert [] + Surviving(table) == Surviving(table);
    if |Surviving(table)| <= maxRows {
      ScanLast(Surviving(table), last, maxRows);
    }
  }

  lemma ScanLast(records: seq<seq<string>>, last: seq<string>, maxRows: nat)
    requires last != []
    ensures Scan(FRESH.(records := records), WriteFields(last), maxRows) == Success(records + Kept(ReceivedRow(last)))
  {
    var st := FRESH.(records := records);
    ScanFields(st, last, "", maxRows);
    assert WriteFields(last) + "" == WriteFields(last);
    RowClosed(records, last);
    EndOfFields(RowOpen(st, last), maxRows);
  }

  // At the end of the bytes an open record is flushed; one that is empty adds nothing.
  lemma EndOfFields(st: Reader, maxRows: nat)
    ensures Scan(st, "", maxRows) == Success(st.FlushRecord().records)
  {
  }

  // Exactly when one row more than the limit comes out.
  lemma ExtraRowIff(table: seq<seq<string>>, last: seq<string>, maxRows: nat)
    requires last != []
    ensures var result := Scan(FRESH, Write(table) + WriteFields(last), maxRows);
            && (result.Success? <==> |Surviving(table)| <= maxRows)
            && (result.Success? && |result.value| > maxRows
                <==> |Surviving(table)| == maxRows && Solid(ReceivedRow(last)))
            && (result.Success? ==> |result.value| <= maxRows + 1)
  {
    ReadUnterminated(table, last, maxRows);
  }

  lemma {:induction false} SurvivingAppended(table: seq<seq<string>>, last: seq<string>)
    ensures Surviving(table + [last]) == Surviving(table) + Kept(ReceivedRow(last))
  {
    if table == [] {
      assert table + [last] == [last];
    } else {
      assert (table + [last])[1..] == table[1..] + [last];
      SurvivingAppended(table[1..], last);
    }
  }

  // A table one row over the limit is refused, and goes through without its last newline.
  lemma LastLineUncounted(table: seq<seq<string>>, last: seq<string>)
    requires Solid(ReceivedRow(last))
    ensures var maxRows := |Surviving(table)|;
            && Scan(FRESH, Write(table + [last]), maxRows) == TooManyRows
            && Scan(FRESH, Write(table) + WriteFields(last), maxRows) == Success(Surviving(table + [last]))
  {
    var maxRows := |Surviving(table)|;
    SurvivingAppended(table, last);
    ReadWritten(table + [last], maxRows);
    ReadUnterminated(table, last, maxRows);
  }

  lemma {:induction false} CrFree(s: string)
    ensures WithoutCr(s) == s <==> '\r' !in s
    ensures |WithoutCr(s)| <= |s|
    ensures |WithoutCr(s)| == |s| <==> '\r' !in s
    decreases |s|
  {
    if s != "" {
      CrFree(s[1..]);
      assert s == [s[0]] + s[1..];
    }
  }

  // A field survives the trip unchanged exactly when it does not start like a
  // formula and its carriage returns, if any, are inside quotes.
  lemma ReceivedIntactIff(s: string)
    ensures Received(s) == s <==> !StartsFormula(s) && ('\r' in s ==> NeedsQuotes(s))
  {
    CrFree(Escape(s));
    CrFree(s);
    if StartsFormula(s) && !NeedsQuotes(Escape(s)) {
      assert WithoutCr("'" + s)[0] == '\'';
    }
  }

  // Without carriage returns the only change is one apostrophe before a formula.
  lemma ReceivedEscaped(s: string)
    requires '\r' !in s
    ensures Received(s) == if StartsFormula(s) then "'" + s else s
  {
    CrFree(Escape(s));
  }

  lemma {:induction false} WideTablesSurvive(table: seq<seq<string>>)
    requires forall row :: row in table ==> |row| >= 2
    ensures Surviving(table) == seq(|table|, i requires 0 <= i < |table| => ReceivedRow(table[i]))
  {
    if table != [] {
      WideTablesSurvive(table[1..]);
    }
  }

  function EscapedTable(table: seq<seq<string>>): seq<seq<string>> {
    seq(|table|, i requires 0 <= i < |table| => seq(|table[i]|, j requires 0 <= j < |table[i]| => Escape(table[i][j])))
  }

  // Tables of at least two columns, free of carriage returns and within the limit,
  // come back whole, with formulas neutralised.
  lemma RoundTrip(table: seq<seq<string>>, maxRows: nat)
    requires |table| <= maxRows
    requires forall row :: row in table ==> |row| >= 2 && forall s :: s in row ==> '\r' !in s
    ensures Scan(FRESH, Write(table), maxRows) == Success(EscapedTable(table))
  {
    ReadWritten(table, maxRows);
    WideTablesSurvive(table);
    forall i | 0 <= i < |table|
      ensures ReceivedRow(table[i]) == EscapedTable(table)[i]
    {
      assert table[i] in table;
      forall j | 0 <= j < |table[i]|
        ensures Received(table[i][j]) == Escape(table[i][j])
      {
        assert table[i][j] in table[i];
        ReceivedEscaped(table[i][j]);
      }
    }
    assert Surviving(table) == EscapedTable(table);
  }

  // ---- any input ----

  // Whatever the bytes, blank records never come out, and the limit can be passed
  // by one: a last line without a newline is not counted.
  lemma {:induction false} ScanShape(st: Reader, data: string, maxRows: nat)
    requires |st.records| <= maxRows && forall r :: r in st.records ==> Solid(r)
    ensures var result := Scan(st, data, maxRows);
            result.Success? ==> |result.value| <= maxRows + 1 && forall r :: r in result.value ==> Solid(r)
    decreases |data|
  {
    if data != "" {
      if st.inQuotes {
        if data[0] != '"' {
          ScanShape(st.Add(data[0]), data[1..], maxRows);
        } else if |data| > 1 && data[1] == '"' {
          ScanShape(st.Add('"'), data[2..], maxRows);
        } else {
          ScanShape(st.(inQuotes := false), data[1..], maxRows);
        }
      } else if data[0] == '"' {
        ScanShape(st.(inQuotes := true), data[1..], maxRows);
      } else if data[0] == ',' {
        ScanShape(st.FlushField(), data[1..], maxRows);
      } else if data[0] == '\r' {
        ScanShape(st, data[1..], maxRows);
      } else if data[0] == '\n' {
        if |st.FlushRecord().records| <= maxRows {
          ScanShape(st.FlushRecord(), data[1..], maxRows);
        }
      } else {
        ScanShape(st.Add(data[0]), data[1..], maxRows);
      }
    }
  }

}
