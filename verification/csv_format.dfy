/**
 * The record format Python's `csv.writer` produces with its default `excel`
 * dialect, which follows section 2 of RFC 4180: fields separated by the
 * delimiter, records ended by CRLF, `"` as the quote character, a field
 * quoted only when it holds the delimiter, a quote, CR or LF (QUOTE_MINIMAL),
 * and every quote inside a quoted field doubled.  A record that is a single
 * empty field is written as `""`, so that it is not read back as an empty
 * record.
 *
 * The reader below is the writer's partner: it reads the same format back,
 * and the round-trip lemmas at the end prove that it recovers every record
 * the writer encodes.
 */
module CsvFormat {

  import opened Wrappers

  const Quote: char := '"'
  const CR: char := '\r'
  const LF: char := '\n'
  const Terminator: string := "\r\n"

  /** A character that makes the writer quote the field holding it. */
  predicate IsSpecial(c: char, delim: char) {
    c == delim || c == Quote || c == CR || c == LF
  }

  predicate NeedsQuoting(field: string, delim: char) {
    exists i :: 0 <= i < |field| && IsSpecial(field[i], delim)
  }

  /** A delimiter the format can be read back with: not the quote character
      and not part of the record terminator. */
  predicate ReadableDelimiter(delim: char) {
    delim != Quote && delim != CR && delim != LF
  }

  // ---------------------------------------------------------------- writer

  /** Doubles every quote character. */
  function Escape(field: string): string {
    if field == [] then []
    else (if field[0] == Quote then [Quote, Quote] else [field[0]]) + Escape(field[1..])
  }

  function EncodeField(field: string, delim: char): string {
    if NeedsQuoting(field, delim) then [Quote] + Escape(field) + [Quote] else field
  }

  function JoinFields(fields: seq<string>, delim: char): string {
    if fields == [] then []
    else if |fields| == 1 then EncodeField(fields[0], delim)
    else EncodeField(fields[0], delim) + [delim] + JoinFields(fields[1..], delim)
  }

  /** `writer.writerow(fields)`: one record with its terminator. */
  function EncodeRecord(fields: seq<string>, delim: char): string {
    (if fields == [""] then [Quote, Quote] else JoinFields(fields, delim)) + Terminator
  }

  /** Every record ends with CRLF; the empty record is CRLF alone, and a record
      that is a single empty field is written `""`. */
  lemma EncodeRecordShape(fields: seq<string>, delim: char)
    ensures var r := EncodeRecord(fields, delim);
      && |r| >= 2 && r[|r| - 2..] == Terminator
      && (fields == [] <==> r == Terminator)
      && (fields == [""] ==> r == [Quote, Quote] + Terminator)
  {
    if fields != [] && fields != [""] {
      assert |JoinFields(fields, delim)| > 0;
    }
  }

  /** Several `writerow` calls in a row, written to one buffer. */
  function EncodeRecords(records: seq<seq<string>>, delim: char): string {
    if records == [] then []
    else EncodeRecord(records[0], delim) + EncodeRecords(records[1..], delim)
  }

  // ---------------------------------------------------------------- reader

  predicate StartsWithTerminator(s: string) {
    |s| >= 2 && s[0] == CR && s[1] == LF
  }

  /** Reads an unquoted field: the longest prefix free of the delimiter and CR. */
  function ReadPlain(s: string, delim: char): (r: (string, string))
    ensures r.0 + r.1 == s
    ensures forall i :: 0 <= i < |r.0| ==> r.0[i] != delim && r.0[i] != CR
    ensures r.1 == [] || r.1[0] == delim || r.1[0] == CR
  {
    if s == [] || s[0] == delim || s[0] == CR then ([], s)
    else
      var (f, t) := ReadPlain(s[1..], delim);
      var field := [s[0]] + f;
      assert forall i :: 1 <= i < |field| ==> field[i] == f[i - 1];
      assert field + t == [s[0]] + s[1..] == s;
      (field, t)
  }

  /** Reads the rest of a quoted field after its opening quote, turning each
      doubled quote back into one; fails when the closing quote is missing. */
  function ReadQuoted(s: string): (r: Option<(string, string)>)
    ensures r.Some? ==> |r.value.1| < |s|
  {
    if s == [] then None
    else if s[0] == Quote then
      if |s| >= 2 && s[1] == Quote then
        match ReadQuoted(s[2..])
        case None => None
        case Some((f, t)) => Some(([Quote] + f, t))
      else Some(([], s[1..]))
    else
      match ReadQuoted(s[1..])
      case None => None
      case Some((f, t)) => Some(([s[0]] + f, t))
  }

  function ReadField(s: string, delim: char): (r: Option<(string, string)>)
    ensures r.Some? ==> |r.value.1| <= |s|
  {
    if s != [] && s[0] == Quote then ReadQuoted(s[1..]) else Some(ReadPlain(s, delim))
  }

  /** Reads one or more fields up to and including the record terminator. */
  function ReadFields(s: string, delim: char): (r: Option<(seq<string>, string)>)
    ensures r.Some? ==> |r.value.1| < |s| && r.value.0 != []
    decreases |s|
  {
    match ReadField(s, delim)
    case None => None
    case Some((f, t)) =>
      if StartsWithTerminator(t) then Some(([f], t[2..]))
      else if t != [] && t[0] == delim then
        match ReadFields(t[1..], delim)
        case None => None
        case Some((fs, u)) => Some(([f] + fs, u))
      else None
  }

  /** Reads one record; a bare terminator is the empty record. */
  function ReadRecord(s: string, delim: char): (r: Option<(seq<string>, string)>)
    ensures r.Some? ==> |r.value.1| < |s|
  {
    if StartsWithTerminator(s) then Some(([], s[2..])) else ReadFields(s, delim)
  }

  /** Reads records until the text is used up. */
  function ReadRecords(s: string, delim: char): Option<seq<seq<string>>>
    decreases |s|
  {
    if s == [] then Some([])
    else
      match ReadRecord(s, delim)
      case None => None
      case Some((fs, t)) =>
        match ReadRecords(t, delim)
        case None => None
        case Some(rs) => Some([fs] + rs)
  }

  // ---------------------------------------------------------------- round trip

  lemma {:induction false} ReadPlainOfUnquoted(f: string, t: string, delim: char)
    requires !NeedsQuoting(f, delim)
    requires t == [] || t[0] == delim || t[0] == CR
    ensures ReadPlain(f + t, delim) == (f, t)
  {
    if f == [] {
      assert f + t == t;
    } else {
      var s := f + t;
      assert s[0] == f[0] && !IsSpecial(f[0], delim);
      assert s[1..] == f[1..] + t;
      assert !NeedsQuoting(f[1..], delim) by {
        forall i | 0 <= i < |f[1..]| ensures !IsSpecial(f[1..][i], delim) {
          assert f[1..][i] == f[i + 1];
        }
      }
      ReadPlainOfUnquoted(f[1..], t, delim);
      assert ReadPlain(s, delim) == ([s[0]] + f[1..], t);
      assert [f[0]] + f[1..] == f;
    }
  }

  lemma {:induction false} ReadQuotedOfEscaped(f: string, t: string)
    requires t == [] || t[0] != Quote
    ensures ReadQuoted(Escape(f) + [Quote] + t) == Some((f, t))
  {
    var s := Escape(f) + [Quote] + t;
    if f == [] {
      assert s == [Quote] + t;
      assert s[1..] == t;
    } else {
      ReadQuotedOfEscaped(f[1..], t);
      var rest := Escape(f[1..]) + [Quote] + t;
      if f[0] == Quote {
        assert s == [Quote, Quote] + rest;
        assert s[2..] == rest;
      } else {
        assert s == [f[0]] + rest;
        assert s[1..] == rest;
      }
      assert [f[0]] + f[1..] == f;
    }
  }

  lemma ReadFieldOfEncoded(f: string, t: string, delim: char)
    requires ReadableDelimiter(delim)
    requires t != [] && (t[0] == delim || t[0] == CR)
    ensures ReadField(EncodeField(f, delim) + t, delim) == Some((f, t))
  {
    if NeedsQuoting(f, delim) {
      var s := [Quote] + Escape(f) + [Quote] + t;
      assert s[1..] == Escape(f) + [Quote] + t;
      ReadQuotedOfEscaped(f, t);
    } else {
      ReadPlainOfUnquoted(f, t, delim);
      if f != [] {
        assert !IsSpecial(f[0], delim);
      }
    }
  }

  lemma ReadFieldsAtTerminator(s: string, delim: char, f: string, t: string)
    requires ReadField(s, delim) == Some((f, Terminator + t))
    ensures ReadFields(s, delim) == Some(([f], t))
  {
    assert StartsWithTerminator(Terminator + t) && (Terminator + t)[2..] == t;
  }

  lemma ReadFieldsAtDelimiter(s: string, delim: char, f: string, rest: string, fs: seq<string>, u: string)
    requires ReadableDelimiter(delim)
    requires ReadField(s, delim) == Some((f, [delim] + rest))
    requires ReadFields(rest, delim) == Some((fs, u))
    ensures ReadFields(s, delim) == Some(([f] + fs, u))
  {
    assert !StartsWithTerminator([delim] + rest);
    assert ([delim] + rest)[1..] == rest;
  }

  lemma ReadFieldsOfOne(f: string, t: string, delim: char)
    requires ReadableDelimiter(delim)
    ensures ReadFields(EncodeField(f, delim) + (Terminator + t), delim) == Some(([f], t))
  {
    var s := EncodeField(f, delim) + (Terminator + t);
    ReadFieldOfEncoded(f, Terminator + t, delim);
    ReadFieldsAtTerminator(s, delim, f, t);
  }

  lemma ReadFieldsOfMore(f: string, rest: string, delim: char, fs: seq<string>, t: string)
    requires ReadableDelimiter(delim)
    requires ReadFields(rest, delim) == Some((fs, t))
    ensures ReadFields(EncodeField(f, delim) + ([delim] + rest), delim) == Some(([f] + fs, t))
  {
    var s := EncodeField(f, delim) + ([delim] + rest);
    ReadFieldOfEncoded(f, [delim] + rest, delim);
    ReadFieldsAtDelimiter(s, delim, f, rest, fs, t);
  }

  lemma {:induction false} ReadFieldsOfJoined(fields: seq<string>, t: string, delim: char)
    requires ReadableDelimiter(delim) && fields != []
    ensures ReadFields(JoinFields(fields, delim) + Terminator + t, delim) == Some((fields, t))
  {
    var e := EncodeField(fields[0], delim);
    if |fields| == 1 {
      assert JoinFields(fields, delim) + Terminator + t == e + (Terminator + t);
      ReadFieldsOfOne(fields[0], t, delim);
      assert [fields[0]] == fields;
    } else {
      var rest := JoinFields(fields[1..], delim) + Terminator + t;
      assert JoinFields(fields, delim) + Terminator + t == e + ([delim] + rest);
      ReadFieldsOfJoined(fields[1..], t, delim);
      ReadFieldsOfMore(fields[0], rest, delim, fields[1..], t);
      assert [fields[0]] + fields[1..] == fields;
    }
  }

  /** Reading back one encoded record gives its fields and leaves what follows. */
  lemma ReadRecordOfEncoded(fields: seq<string>, t: string, delim: char)
    requires ReadableDelimiter(delim)
    ensures ReadRecord(EncodeRecord(fields, delim) + t, delim) == Some((fields, t))
  {
    var s := EncodeRecord(fields, delim) + t;
    if fields == [] {
      assert s == Terminator + t;
      assert s[2..] == t;
    } else if fields == [""] {
      assert s == [Quote] + ([Quote] + Terminator + t);
      assert s[1..] == Escape("") + [Quote] + (Terminator + t);
      ReadQuotedOfEscaped("", Terminator + t);
      assert (Terminator + t)[2..] == t;
    } else {
      var j := JoinFields(fields, delim);
      assert s == j + Terminator + t;
      var e := EncodeField(fields[0], delim);
      if e == [] {
        assert !NeedsQuoting(fields[0], delim) && fields[0] == [];
        assert j[0] == delim;
      } else if !NeedsQuoting(fields[0], delim) {
        assert !IsSpecial(fields[0][0], delim);
        assert j[0] == e[0];
      } else {
        assert j[0] == e[0];
      }
      ReadFieldsOfJoined(fields, t, delim);
    }
  }

  /** Round trip: the reader recovers exactly the records the writer wrote,
      in order, including empty records and fields holding the delimiter,
      quotes or line breaks. */
  lemma {:induction false} ReadRecordsOfEncoded(records: seq<seq<string>>, delim: char)
    requires ReadableDelimiter(delim)
    ensures ReadRecords(EncodeRecords(records, delim), delim) == Some(records)
  {
    if records != [] {
      var rest := EncodeRecords(records[1..], delim);
      ReadRecordOfEncoded(records[0], rest, delim);
      ReadRecordsOfEncoded(records[1..], delim);
      assert [records[0]] + records[1..] == records;
    }
  }

  /** Writing one more record appends its encoding. */
  lemma {:induction false} EncodeRecordsAppend(records: seq<seq<string>>, last: seq<string>, delim: char)
    ensures EncodeRecords(records + [last], delim) == EncodeRecords(records, delim) + EncodeRecord(last, delim)
  {
    var all := records + [last];
    if records == [] {
      assert all == [last] && all[1..] == [];
      assert EncodeRecords(all, delim) == EncodeRecord(last, delim) + [];
    } else {
      assert all[0] == records[0] && all[1..] == records[1..] + [last];
      EncodeRecordsAppend(records[1..], last, delim);
      var head := EncodeRecord(records[0], delim);
      var middle := EncodeRecords(records[1..], delim);
      var tail := EncodeRecord(last, delim);
      assert EncodeRecords(all, delim) == head + (middle + tail);
      assert head + (middle + tail) == (head + middle) + tail;
    }
  }
}
