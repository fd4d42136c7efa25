/** Python's `csv.writer` with the default `excel` dialect, restricted to
    what the contact form uses: `,` between fields, `"` as the quote
    character, QUOTE_MINIMAL (a field is quoted only when it holds the
    delimiter, the quote character or a line-break character, and a quote
    inside a quoted field is doubled) and `\r\n` after every record. These
    are the field rules of section 2 of RFC 4180. A reader for the same
    format is given beside the writer so that the round trip can be stated. */
module Csv {
  import opened Wrappers

  const Delimiter: char := ','
  const Quote: char := '"'
  const LineTerminator: string := "\r\n"

  /** QUOTE_MINIMAL: the characters that force a field into quotes. */
  predicate NeedsQuoting(f: string) {
    Delimiter in f || Quote in f || '\r' in f || '\n' in f
  }

  /** `f` with every quote character doubled. */
  function Escape(f: string): (r: string)
    ensures |r| >= |f|
  {
    if f == [] then []
    else (if f[0] == Quote then [Quote, Quote] else [f[0]]) + Escape(f[1..])
  }

  function FormatField(f: string): string {
    if NeedsQuoting(f) then [Quote] + Escape(f) + [Quote] else f
  }

  /** The fields, each formatted, with a delimiter between two neighbours. */
  function FormatFields(fs: seq<string>): string {
    if |fs| == 0 then []
    else if |fs| == 1 then FormatField(fs[0])
    else FormatField(fs[0]) + [Delimiter] + FormatFields(fs[1..])
  }

  /** `writer.writerow(fs)`: the formatted fields and the line terminator.
      A record made of one empty field is written as `""`, so that it is
      not read back as a blank line. */
  function FormatRecord(fs: seq<string>): string {
    (if fs == [[]] then [Quote, Quote] else FormatFields(fs)) + LineTerminator
  }

  /** Records written one after another. */
  function FormatTable(rows: seq<seq<string>>): string {
    if rows == [] then [] else FormatRecord(rows[0]) + FormatTable(rows[1..])
  }

  /** The buffer a `csv.writer` writes into (`io.StringIO`). */
  class Writer {
    var text: string

    constructor()
      ensures text == []
    {
      text := [];
    }

    /** `writer.writerow(fs)` appends one formatted record to the buffer. */
    method WriteRow(fs: seq<string>)
      modifies this
      ensures text == old(text) + FormatRecord(fs)
    {
      text := text + FormatRecord(fs);
    }
  }

  // ---------------------------------------------------------------------
  // Reading

  /** A value read from the front of a text, and the text still unread. */
  datatype Cut<T> = Cut(value: T, rest: string)

  function PrependChar(c: char, r: Option<Cut<string>>): Option<Cut<string>> {
    match r
    case None => None
    case Some(cut) => Some(Cut([c] + cut.value, cut.rest))
  }

  /** The inside of a quoted field, `s` starting just after the opening
      quote: `""` stands for one quote and a lone `"` closes the field.
      A text that ends before the closing quote is malformed. */
  function ParseQuoted(s: string): (r: Option<Cut<string>>)
    ensures r.Some? ==> |r.value.rest| < |s|
  {
    if s == [] then None
    else if s[0] == Quote then
      if |s| >= 2 && s[1] == Quote then PrependChar(Quote, ParseQuoted(s[2..]))
      else Some(Cut([], s[1..]))
    else PrependChar(s[0], ParseQuoted(s[1..]))
  }

  /** An unquoted field runs up to the next delimiter or line break. */
  function ParseBare(s: string): (r: Cut<string>)
    ensures |r.rest| <= |s|
    ensures r.value + r.rest == s
  {
    if s == [] || s[0] == Delimiter || s[0] == '\r' || s[0] == '\n' then Cut([], s)
    else
      var cut := ParseBare(s[1..]);
      Cut([s[0]] + cut.value, cut.rest)
  }

  function ParseField(s: string): (r: Option<Cut<string>>)
    ensures r.Some? ==> |r.value.rest| <= |s|
  {
    if s != [] && s[0] == Quote then ParseQuoted(s[1..]) else Some(ParseBare(s))
  }

  /** Fields separated by delimiters, up to the end of the record. */
  function ParseFields(s: string): (r: Option<Cut<seq<string>>>)
    ensures r.Some? ==> |r.value.value| >= 1 && |r.value.rest| <= |s|
    decreases |s|
  {
    match ParseField(s)
    case None => None
    case Some(field) =>
      if field.rest != [] && field.rest[0] == Delimiter then
        match ParseFields(field.rest[1..])
        case None => None
        case Some(more) => Some(Cut([field.value] + more.value, more.rest))
      else Some(Cut([field.value], field.rest))
  }

  /** One record: its fields and then `\r\n`, or the end of the text. */
  function ParseRecord(s: string): (r: Option<Cut<seq<string>>>)
    ensures r.Some? && s != [] ==> |r.value.rest| < |s|
  {
    match ParseFields(s)
    case None => None
    case Some(cut) =>
      if cut.rest == [] then Some(cut)
      else if |cut.rest| >= 2 && cut.rest[..2] == LineTerminator then Some(Cut(cut.value, cut.rest[2..]))
      else None
  }

  /** The records of a whole text, or `None` when it is malformed. */
  function Parse(s: string): Option<seq<seq<string>>>
    decreases |s|
  {
    if s == [] then Some([])
    else
      match ParseRecord(s)
      case None => None
      case Some(cut) =>
        match Parse(cut.rest)
        case None => None
        case Some(rows) => Some([cut.value] + rows)
  }

  // ---------------------------------------------------------------------
  // Round trip

  /** A field needing no quotes is read back as it stands, whatever
      delimiter or line break follows it. */
  lemma {:induction false} BareRoundTrip(f: string, t: string)
    requires !NeedsQuoting(f)
    requires t == [] || t[0] == Delimiter || t[0] == '\r'
    ensures ParseBare(f + t) == Cut(f, t)
  {
    if f != [] {
      var s := f + t;
      assert s[0] == f[0] && f[0] in f;
      assert s[1..] == f[1..] + t;
      assert !NeedsQuoting(f[1..]) by {
        forall c | c in f[1..] ensures c in f {
        }
      }
      BareRoundTrip(f[1..], t);
      assert [f[0]] + f[1..] == f;
    }
  }

  /** Reading an escaped field up to its closing quote undoes `Escape`. */
  lemma {:induction false} QuotedRoundTrip(f: string, t: string)
    requires t == [] || t[0] != Quote
    ensures ParseQuoted(Escape(f) + [Quote] + t) == Some(Cut(f, t))
  {
    if f == [] {
      assert Escape(f) + [Quote] + t == [Quote] + t;
    } else {
      QuotedRoundTrip(f[1..], t);
      EscapeFront(f, t);
      var u := Escape(f[1..]) + [Quote] + t;
      if f[0] == Quote {
        ReadDoubledQuote(u);
      } else {
        ReadPlainChar(f[0], u);
      }
      Unsplit(f);
    }
  }

  /** Escaping works character by character, from the front. */
  lemma EscapeFront(f: string, t: string)
    requires f != []
    ensures Escape(f) + [Quote] + t == (if f[0] == Quote then [Quote, Quote] else [f[0]]) + (Escape(f[1..]) + [Quote] + t)
  {
  }

  lemma Unsplit<T>(s: seq<T>)
    requires s != []
    ensures [s[0]] + s[1..] == s
  {
  }

  /** Inside quotes, `""` is read as one quote character. */
  lemma ReadDoubledQuote(u: string)
    ensures ParseQuoted([Quote, Quote] + u) == PrependChar(Quote, ParseQuoted(u))
  {
    assert ([Quote, Quote] + u)[2..] == u;
  }

  /** Inside quotes, any other character is read as itself. */
  lemma ReadPlainChar(c: char, u: string)
    requires c != Quote
    ensures ParseQuoted([c] + u) == PrependChar(c, ParseQuoted(u))
  {
    assert ([c] + u)[1..] == u;
  }

  lemma FieldRoundTrip(f: string, t: string)
    requires t == [] || t[0] == Delimiter || t[0] == '\r'
    ensures ParseField(FormatField(f) + t) == Some(Cut(f, t))
  {
    if NeedsQuoting(f) {
      QuotedFieldRoundTrip(f, t);
    } else {
      BareFieldRoundTrip(f, t);
    }
  }

  lemma QuotedFieldRoundTrip(f: string, t: string)
    requires NeedsQuoting(f)
    requires t == [] || t[0] != Quote
    ensures ParseField(FormatField(f) + t) == Some(Cut(f, t))
  {
    var s := [Quote] + (Escape(f) + [Quote] + t);
    assert FormatField(f) + t == s;
    assert s[1..] == Escape(f) + [Quote] + t;
    QuotedRoundTrip(f, t);
  }

  lemma BareFieldRoundTrip(f: string, t: string)
    requires !NeedsQuoting(f)
    requires t == [] || t[0] == Delimiter || t[0] == '\r'
    ensures ParseField(FormatField(f) + t) == Some(Cut(f, t))
  {
    BareRoundTrip(f, t);
    assert FormatField(f) == f;
    if f != [] {
      assert (f + t)[0] == f[0] && f[0] in f;
    }
  }

  /** The fields of a record are read back in order and the reader stops
      at the line break that follows them. */
  lemma {:induction false} FieldsRoundTrip(fs: seq<string>, t: string)
    requires |fs| >= 1
    requires t == [] || t[0] == '\r'
    ensures ParseFields(FormatFields(fs) + t) == Some(Cut(fs, t))
  {
    if |fs| == 1 {
      FieldRoundTrip(fs[0], t);
      assert FormatFields(fs) == FormatField(fs[0]) && fs == [fs[0]];
    } else {
      var tail := FormatFields(fs[1..]) + t;
      var s := FormatFields(fs) + t;
      assert s == FormatField(fs[0]) + ([Delimiter] + tail);
      FieldRoundTrip(fs[0], [Delimiter] + tail);
      FieldsRoundTrip(fs[1..], t);
      ParseFieldsCons(s, fs[0], tail, fs[1..], t);
      assert [fs[0]] + fs[1..] == fs;
    }
  }

  lemma ParseFieldsCons(s: string, f: string, tail: string, fs: seq<string>, t: string)
    requires ParseField(s) == Some(Cut(f, [Delimiter] + tail))
    requires ParseFields(tail) == Some(Cut(fs, t))
    ensures ParseFields(s) == Some(Cut([f] + fs, t))
  {
    assert ([Delimiter] + tail)[1..] == tail;
  }

  /** A written record is read back as the same fields, and reading then
      carries on just after its line terminator. */
  lemma RecordRoundTrip(fs: seq<string>, t: string)
    requires |fs| >= 1
    ensures ParseRecord(FormatRecord(fs) + t) == Some(Cut(fs, t))
  {
    var s := FormatRecord(fs) + t;
    var lt := LineTerminator + t;
    assert lt[..2] == LineTerminator && lt[2..] == t;
    if fs == [[]] {
      assert s == [Quote] + ([Quote] + lt);
      assert s[1..] == [] + [Quote] + lt;
      QuotedRoundTrip([], lt);
      assert ParseField(s) == Some(Cut([], lt));
    } else {
      assert s == FormatFields(fs) + lt;
      FieldsRoundTrip(fs, lt);
    }
  }

  /** Reading a written table gives back every record, field for field,
      for records of at least one field (`writerow([])` writes a blank
      line, which reads back as one empty field). */
  lemma {:induction false} TableRoundTrip(rows: seq<seq<string>>)
    requires forall k :: 0 <= k < |rows| ==> |rows[k]| >= 1
    ensures Parse(FormatTable(rows)) == Some(rows)
  {
    if rows != [] {
      var rest := FormatTable(rows[1..]);
      var s := FormatRecord(rows[0]) + rest;
      RecordRoundTrip(rows[0], rest);
      TableRoundTrip(rows[1..]);
      assert FormatTable(rows) == s;
      ParseCons(s, rows[0], rest, rows[1..]);
      Unsplit(rows);
    }
  }

  /** A record read from the front of a text, followed by the records of the rest. */
  lemma ParseCons(s: string, fs: seq<string>, rest: string, more: seq<seq<string>>)
    requires s != []
    requires ParseRecord(s) == Some(Cut(fs, rest))
    requires Parse(rest) == Some(more)
    ensures Parse(s) == Some([fs] + more)
  {
  }
}
