/** The quoting the export pages apply to a CSV field: the value between double quotes, each
    quote inside it doubled, which is the `escaped` field form of section 2 of RFC 4180. */
module Csv {
  /** `s.replaceAll('"', '""')`. */
  function DoubleQuotes(s: string): string
  {
    if s == [] then [] else (if s[0] == '"' then "\"\"" else [s[0]]) + DoubleQuotes(s[1..])
  }

  /** `"${s.replaceAll('"', '""')}"`. */
  function EscapeCell(s: string): string
  {
    "\"" + DoubleQuotes(s) + "\""
  }

  /** The inside of an escaped field: a quote occurs only as half of a doubled pair. */
  predicate PairedQuotes(b: string)
    decreases |b|
  {
    b == []
    || (b[0] != '"' && PairedQuotes(b[1..]))
    || (|b| >= 2 && b[0] == '"' && b[1] == '"' && PairedQuotes(b[2..]))
  }

  /** A field a reader of RFC 4180 reads as one quoted field. */
  predicate WellQuoted(cell: string)
  {
    |cell| >= 2 && cell[0] == '"' && cell[|cell| - 1] == '"' && PairedQuotes(cell[1..|cell| - 1])
  }

  /** The value a reader recovers from the inside of a quoted field. */
  function Undouble(b: string): string
    requires PairedQuotes(b)
    decreases |b|
  {
    if b == [] then []
    else if b[0] != '"' then [b[0]] + Undouble(b[1..])
    else ['"'] + Undouble(b[2..])
  }

  /** The value a reader recovers from a quoted field. */
  function Unquote(cell: string): string
    requires WellQuoted(cell)
  {
    Undouble(cell[1..|cell| - 1])
  }

  lemma {:induction false} DoubleQuotesPaired(s: string)
    ensures PairedQuotes(DoubleQuotes(s)) && Undouble(DoubleQuotes(s)) == s
  {
    if s != [] {
      DoubleQuotesPaired(s[1..]);
      var b := DoubleQuotes(s);
      if s[0] == '"' {
        assert b[2..] == DoubleQuotes(s[1..]);
      } else {
        assert b[1..] == DoubleQuotes(s[1..]);
      }
    }
  }

  /** Every escaped value reads back as one field holding exactly that value. */
  lemma EscapeRoundTrip(s: string)
    ensures WellQuoted(EscapeCell(s))
    ensures Unquote(EscapeCell(s)) == s
  {
    var c := EscapeCell(s);
    assert c[1..|c| - 1] == DoubleQuotes(s);
    DoubleQuotesPaired(s);
  }

  /** Wrapping a value in quotes without doubling the quotes inside it does not give a well
      quoted field once the value holds a quote: `"O"Brien"`. */
  lemma BareQuoteBreaks()
    ensures !WellQuoted("\"" + "O\"Brien" + "\"")
  {
    var c := "\"" + "O\"Brien" + "\"";
    var b := c[1..|c| - 1];
    assert b == "O\"Brien";
    assert b[1..] == "\"Brien";
    assert !PairedQuotes(b[1..]) by {
      assert b[1..][1] == 'B';
    }
  }

  /** Reading an escaped inside back shortens it by one character per doubled quote. */
  lemma {:induction false} UndoubleShorter(b: string)
    requires PairedQuotes(b)
    ensures |Undouble(b)| <= |b|
    ensures '"' in b ==> |Undouble(b)| < |b|
    decreases |b|
  {
    if b != [] {
      if b[0] != '"' {
        UndoubleShorter(b[1..]);
        assert '"' in b ==> '"' in b[1..];
      } else {
        UndoubleShorter(b[2..]);
      }
    }
  }

  /** Whatever value holds a quote, putting it between quotes without doubling them never
      gives a field that reads back as that value: either the field is not well quoted, or a
      reader recovers a shorter value. */
  lemma BareWrapLoses(v: string)
    requires '"' in v
    ensures var q := "\"" + v + "\""; !WellQuoted(q) || Unquote(q) != v
  {
    var q := "\"" + v + "\"";
    assert q[1..|q| - 1] == v;
    if WellQuoted(q) {
      UndoubleShorter(v);
    }
  }

  /** A value without quotes is escaped just by the surrounding quotes. */
  lemma {:induction false} NoQuotesUnchanged(s: string)
    requires forall i :: 0 <= i < |s| ==> s[i] != '"'
    ensures DoubleQuotes(s) == s
  {
    if s != [] {
      NoQuotesUnchanged(s[1..]);
    }
  }
}
