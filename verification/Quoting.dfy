/** SQL quoting: each quoted form is undone by the scanner of quoted tokens, whatever text follows it. */
module Quoting {
  import opened Text

  /** `replace(quote, doubled quote)`. */
  function Doubled(s: string, quote: char): string {
    if s == "" then ""
    else (if s[0] == quote then [quote, quote] else [s[0]]) + Doubled(s[1..], quote)
  }

  function Quoted(s: string, quote: char): string {
    [quote] + Doubled(s, quote) + [quote]
  }

  function SqlLiteral(s: string): string {
    Quoted(s, '\'')
  }

  function SqlIdent(s: string): string {
    Quoted(s, '"')
  }

  /** After the opening quote: a doubled quote stands for one, a single quote ends the token. */
  function ScanBody(text: string, quote: char): Option<(string, string)> {
    if text == "" then None
    else if text[0] != quote then
      match ScanBody(text[1..], quote)
      case None => None
      case Some((value, rest)) => Some(([text[0]] + value, rest))
    else if |text| >= 2 && text[1] == quote then
      match ScanBody(text[2..], quote)
      case None => None
      case Some((value, rest)) => Some(([quote] + value, rest))
    else Some(("", text[1..]))
  }

  /** The token's value and the text after it. */
  function Scan(text: string, quote: char): Option<(string, string)> {
    if text != "" && text[0] == quote then ScanBody(text[1..], quote) else None
  }

  lemma {:induction false} ScanDoubled(s: string, quote: char, rest: string)
    requires rest == "" || rest[0] != quote
    ensures ScanBody(Doubled(s, quote) + [quote] + rest, quote) == Some((s, rest))
  {
    var text := Doubled(s, quote) + [quote] + rest;
    if s == "" {
      assert text[1..] == rest;
    } else {
      var tail := Doubled(s[1..], quote) + [quote] + rest;
      ScanDoubled(s[1..], quote, rest);
      assert [s[0]] + s[1..] == s;
      if s[0] == quote {
        assert text == [quote, quote] + tail && text[2..] == tail;
      } else {
        assert text == [s[0]] + tail && text[1..] == tail;
      }
    }
  }

  /** Scanning the quoted form gives the string back and leaves exactly the following text. */
  lemma QuotedScans(s: string, quote: char, rest: string)
    requires rest == "" || rest[0] != quote
    ensures Scan(Quoted(s, quote) + rest, quote) == Some((s, rest))
  {
    ScanDoubled(s, quote, rest);
    assert (Quoted(s, quote) + rest)[1..] == Doubled(s, quote) + [quote] + rest;
  }

  /** The condition is exact: before text that starts with the quote the token does not end where it should. */
  lemma QuotedScansIff(s: string, quote: char, rest: string)
    ensures Scan(Quoted(s, quote) + rest, quote) == Some((s, rest)) <==> rest == "" || rest[0] != quote
  {
    if rest == "" || rest[0] != quote {
      QuotedScans(s, quote, rest);
    } else {
      ScanRunsOn(s, quote, rest);
      assert (Quoted(s, quote) + rest)[1..] == Doubled(s, quote) + [quote] + rest;
    }
  }

  /** The scanner never returns more text than it was given after the closing quote. */
  lemma {:induction false} ScanRest(text: string, quote: char)
    ensures ScanBody(text, quote).Some? ==> |ScanBody(text, quote).value.1| < |text|
  {
    if text != "" {
      if text[0] != quote {
        ScanRest(text[1..], quote);
      } else if |text| >= 2 && text[1] == quote {
        ScanRest(text[2..], quote);
      }
    }
  }

  lemma {:induction false} ScanRunsOn(s: string, quote: char, rest: string)
    requires rest != "" && rest[0] == quote
    ensures var r := ScanBody(Doubled(s, quote) + [quote] + rest, quote); r.Some? ==> |r.value.1| < |rest|
  {
    var text := Doubled(s, quote) + [quote] + rest;
    if s == "" {
      assert text[2..] == rest[1..];
      ScanRest(rest[1..], quote);
    } else {
      var tail := Doubled(s[1..], quote) + [quote] + rest;
      ScanRunsOn(s[1..], quote, rest);
      if s[0] == quote {
        assert text == [quote, quote] + tail && text[2..] == tail;
      } else {
        assert text == [s[0]] + tail && text[1..] == tail;
      }
    }
  }

  /** Literals and identifiers are read back as the string they were made from. */
  lemma LiteralAndIdentScan(s: string, rest: string)
    ensures (rest == "" || rest[0] != '\'') <==> Scan(SqlLiteral(s) + rest, '\'') == Some((s, rest))
    ensures (rest == "" || rest[0] != '"') <==> Scan(SqlIdent(s) + rest, '"') == Some((s, rest))
  {
    QuotedScansIff(s, '\'', rest);
    QuotedScansIff(s, '"', rest);
  }
}
