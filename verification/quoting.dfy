/** The three low-level writers of the serializer: `writeQuoted` for strings
    and `toString` texts, `write` for numbers and booleans, `writeRaw` for
    separators and unquoted values. Each returns the text it appends. */
module Quoting {
  import opened Wrappers
  import opened Text

  const Quote: string := "\""
  const NullText: string := "null"
  /** Written before a quoted field in Excel mode so that Excel keeps leading
      zeros and long digit strings as text. */
  const ZeroPreserver: string := "="

  /** `writeQuoted(text)`: `null` for a missing text; otherwise the text in
      double quotes with inner quotes doubled, preceded by `=` in Excel mode
      unless the text contains a comma (Excel would split on it). */
  function WriteQuoted(excel: bool, text: Option<string>): (r: string)
    ensures text.None? ==> r == NullText
    ensures text.Some? ==> |r| >= 2 && r[|r| - 1] == '"'
    ensures text.Some? ==> (r[0] == '=' <==> excel && ',' !in text.value)
    ensures text.Some? ==> |r| == |text.value| + Count(text.value, '"') + 2 + (if excel && ',' !in text.value then 1 else 0)
  {
    match text
    case None => NullText
    case Some(t) =>
      (if excel && ',' !in t then ZeroPreserver else "") + Quote + Escape(t) + Quote
  }

  /** `write(text)`: quoted (and `=`-prefixed) in Excel mode, quoted when the
      text holds a double quote, raw otherwise. Unlike `writeQuoted` the `=`
      is added even when the text contains a comma. */
  function Write(excel: bool, text: Option<string>): (r: string)
    ensures text.None? ==> r == NullText
    ensures text.Some? && !excel && '"' !in text.value ==> r == text.value
    ensures text.Some? && (excel || '"' in text.value) ==>
              && |r| >= 2 && r[|r| - 1] == '"'
              && (r[0] == '=' <==> excel)
    // quoted, it is `writeQuoted`'s text, with the `=` added in front when
    // Excel mode is on and the text holds a comma
    ensures text.Some? && (excel || '"' in text.value) ==>
              r == (if excel && ',' in text.value then ZeroPreserver else "") + WriteQuoted(excel, text)
  {
    match text
    case None => NullText
    case Some(t) =>
      if excel || '"' in t then
        QuotedByWriteQuoted(excel, t);
        (if excel then ZeroPreserver else "") + Quote + Escape(t) + Quote
      else t
  }

  /** The quoted form `write` builds is `writeQuoted`'s, with the `=` put
      back in front when Excel mode is on and the text holds a comma. */
  lemma QuotedByWriteQuoted(excel: bool, t: string)
    ensures (if excel then ZeroPreserver else "") + Quote + Escape(t) + Quote
            == (if excel && ',' in t then ZeroPreserver else "") + WriteQuoted(excel, Some(t))
  {
    var q := Quote + Escape(t) + Quote;
    assert WriteQuoted(excel, Some(t)) == (if excel && ',' !in t then ZeroPreserver else "") + q;
    assert ZeroPreserver + Quote + Escape(t) + Quote == ZeroPreserver + q;
  }

  /** `writeRaw(text)`: the text itself; a missing text writes nothing. */
  function WriteRaw(text: Option<string>): (r: string)
    ensures text.None? ==> |r| == 0
    ensures text.Some? ==> r == text.value
  {
    match text
    case None => ""
    case Some(t) => t
  }

  /** How a spreadsheet reads one field back: a field starting with `=` or a
      quote is a quoted field whose inner doubled quotes stand for one quote;
      anything else is taken literally. */
  function ReadField(s: string): (r: Option<string>)
    ensures |s| == 0 || (s[0] != '=' && s[0] != '"') ==> r == Some(s)
  {
    if |s| > 0 && (s[0] == '=' || s[0] == '"') then
      var body := if s[0] == '=' then s[1..] else s;
      if |body| >= 2 && body[0] == '"' && body[|body| - 1] == '"' then Unescape(body[1..|body| - 1])
      else None
    else Some(s)
  }

  /** The quoted part of a field reads back as the text. */
  lemma ReadQuoted(prefix: string, t: string)
    requires prefix == "" || prefix == ZeroPreserver
    ensures ReadField(prefix + Quote + Escape(t) + Quote) == Some(t)
  {
    var s := prefix + Quote + Escape(t) + Quote;
    var body := Quote + Escape(t) + Quote;
    if prefix == "" {
      assert s == body;
    } else {
      assert s[1..] == body;
    }
    assert body[1..|body| - 1] == Escape(t);
    UnescapeEscape(t);
  }

  /** Every text written by `writeQuoted` reads back as itself, in both modes. */
  lemma WriteQuotedReadsBack(excel: bool, t: string)
    ensures ReadField(WriteQuoted(excel, Some(t))) == Some(t)
  {
    ReadQuoted(if excel && ',' !in t then ZeroPreserver else "", t);
  }

  /** Every text written by `write` reads back as itself, except a raw text
      that itself starts with `=` (written unquoted outside Excel mode). */
  lemma WriteReadsBack(excel: bool, t: string)
    ensures excel || |t| == 0 || t[0] != '=' ==> ReadField(Write(excel, Some(t))) == Some(t)
  {
    if excel || '"' in t {
      ReadQuoted(if excel then ZeroPreserver else "", t);
    } else if |t| > 0 {
      assert t[0] != '"' by { assert t[0] in t; }
    }
  }

  /** In Excel mode the two writers differ exactly on texts with a comma:
      `write` then adds an `=` that `writeQuoted` leaves out. */
  lemma ExcelWritersDifferOnComma(t: string)
    ensures Write(true, Some(t)) == if ',' in t then ZeroPreserver + WriteQuoted(true, Some(t)) else WriteQuoted(true, Some(t))
  {
  }

  /** A null value prints as `null` through the quoting writers and as nothing
      through `writeRaw`. */
  lemma NullWrites(excel: bool)
    ensures WriteQuoted(excel, None) == Write(excel, None) == NullText
    ensures WriteRaw(None) == ""
  {
  }
}
