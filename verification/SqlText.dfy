/** SQL text of the rollback: `sqlLiteral` against a lexer for SQLite literals, and the
    whole VALUES list read back. */
module SqlText {
  import opened Common

  // The value kinds of the three tables; reals and blobs are not part of this model.
  datatype SqlValue = Null | Integer(n: int) | Text(s: string)

  // `s.replace(/'/g, "''")`
  function Doubled(s: string): string {
    if s == "" then ""
    else (if s[0] == '\'' then "''" else [s[0]]) + Doubled(s[1..])
  }

  predicate IsDigit(c: char) { '0' <= c <= '9' }

  function DigitValue(c: char): nat
    requires IsDigit(c)
  {
    c as int - '0' as int
  }

  function Digit(d: nat): (c: char)
    requires d < 10
    ensures IsDigit(c) && DigitValue(c) == d
  {
    '0' + d as char
  }

  function Digits(n: nat): (r: string)
    ensures r != "" && forall i :: 0 <= i < |r| ==> IsDigit(r[i])
  {
    if n < 10 then [Digit(n)] else Digits(n / 10) + [Digit(n % 10)]
  }

  /** Decimal as JavaScript writes it: no leading zero. */
  lemma {:induction false} NoLeadingZero(n: nat)
    ensures |Digits(n)| > 1 ==> Digits(n)[0] != '0'
    ensures n > 0 ==> Digits(n)[0] != '0'
  {
    if n >= 10 { NoLeadingZero(n / 10); }
  }

  function SqlLiteral(v: SqlValue): string {
    match v
    case Null => "NULL"
    case Integer(n) => if n < 0 then "-" + Digits(-n) else Digits(n)
    case Text(s) => "'" + Doubled(s) + "'"
  }

  // ----- reading literals back

  // After the opening quote: a doubled quote is one quote, a single one ends the string.
  function ScanString(text: string): (r: Option<(string, string)>)
    ensures r.Some? ==> |r.value.1| < |text|
  {
    if text == "" then None
    else if text[0] != '\'' then
      (match ScanString(text[1..])
       case None => None
       case Some((s, rest)) => Some(([text[0]] + s, rest)))
    else if |text| > 1 && text[1] == '\'' then
      (match ScanString(text[2..])
       case None => None
       case Some((s, rest)) => Some((['\''] + s, rest)))
    else Some(("", text[1..]))
  }

  function ScanDigits(text: string, value: nat): (r: (nat, string))
    ensures |r.1| <= |text|
    ensures text != "" && IsDigit(text[0]) ==> |r.1| < |text|
    decreases |text|
  {
    if text == "" || !IsDigit(text[0]) then (value, text)
    else ScanDigits(text[1..], value * 10 + DigitValue(text[0]))
  }

  function ScanValue(text: string): (r: Option<(SqlValue, string)>)
    ensures r.Some? ==> |r.value.1| < |text|
  {
    if text == "" then None
    else if text[0] == '\'' then
      (match ScanString(text[1..])
       case None => None
       case Some((s, rest)) => Some((Text(s), rest)))
    else if text[0] == '-' then
      var scanned := ScanDigits(text[1..], 0);
      var magnitude: int := scanned.0;
      Some((Integer(-magnitude), scanned.1))
    else if IsDigit(text[0]) then
      var scanned := ScanDigits(text, 0); Some((Integer(scanned.0), scanned.1))
    else if "NULL" <= text then Some((Null, text[4..]))
    else None
  }

  // One character of the text, then the rest of the string.
  lemma ScanStringStep(c: char, s: string, tail: string, rest: string)
    requires ScanString(tail) == Some((s, rest))
    ensures ScanString((if c == '\'' then "''" else [c]) + tail) == Some(([c] + s, rest))
  {
  }

  /** Parsing the quoted form of any string yields the string. */
  lemma {:induction false} ScanDoubled(s: string, rest: string)
    requires rest == "" || rest[0] != '\''
    ensures ScanString(Doubled(s) + "'" + rest) == Some((s, rest))
  {
    if s == "" {
      assert Doubled(s) + "'" + rest == "'" + rest;
    } else {
      var tail := Doubled(s[1..]) + "'" + rest;
      assert Doubled(s) + "'" + rest == (if s[0] == '\'' then "''" else [s[0]]) + tail;
      ScanDoubled(s[1..], rest);
      ScanStringStep(s[0], s[1..], tail, rest);
      assert s == [s[0]] + s[1..];
    }
  }

  // The text is the quoted form of `s` without its opening quote, and then `rest`.
  ghost predicate Quotes(text: string, s: string, rest: string) {
    (rest == "" || rest[0] != '\'') && text == Doubled(s) + "'" + rest
  }

  /** And nothing else reads as a string: what the lexer takes for one is its quoted form, ended by a
      quote that no other follows, and it takes every such text. */
  lemma {:induction false} ScannedWasQuoted(text: string)
    ensures match ScanString(text)
            case Some((s, rest)) => Quotes(text, s, rest)
            case None => forall s, rest :: !Quotes(text, s, rest)
    decreases |text|
  {
    match ScanString(text)
    case None =>
      forall s, rest ensures !Quotes(text, s, rest) {
        if Quotes(text, s, rest) { ScanDoubled(s, rest); }
      }
    case Some((s, rest)) =>
      if text[0] != '\'' {
        ScannedWasQuoted(text[1..]);
        assert text == [text[0]] + text[1..];
      } else if |text| > 1 && text[1] == '\'' {
        ScannedWasQuoted(text[2..]);
        assert text == "''" + text[2..];
      } else {
        assert text == "'" + text[1..];
      }
  }

  lemma {:induction false} ScanAppend(a: string, b: string, value: nat)
    requires forall i :: 0 <= i < |a| ==> IsDigit(a[i])
    ensures ScanDigits(a + b, value) == ScanDigits(b, ScanDigits(a, value).0)
    decreases |a|
  {
    if a == "" {
      assert a + b == b;
    } else {
      assert (a + b)[1..] == a[1..] + b;
      ScanAppend(a[1..], b, value * 10 + DigitValue(a[0]));
    }
  }

  lemma {:induction false} ScanDigitsOf(n: nat)
    ensures ScanDigits(Digits(n), 0) == (n, "")
  {
    if n >= 10 {
      ScanDigitsOf(n / 10);
      ScanAppend(Digits(n / 10), [Digit(n % 10)], 0);
      assert ScanDigits([Digit(n % 10)], n / 10) == ScanDigits("", n / 10 * 10 + n % 10);
    } else {
      assert ScanDigits([Digit(n)], 0) == ScanDigits("", n);
    }
  }

  // What may follow a literal: neither a quote nor a digit.
  predicate EndsLiteral(rest: string) {
    rest == "" || (rest[0] != '\'' && !IsDigit(rest[0]))
  }

  lemma IntegerReadsBack(n: int, rest: string)
    requires EndsLiteral(rest)
    ensures ScanValue(SqlLiteral(Integer(n)) + rest) == Some((Integer(n), rest))
  {
    hide Digits, ScanString, Doubled;
    var magnitude: nat := if n < 0 then -n else n;
    var digits := Digits(magnitude);
    ScanDigitsOf(magnitude);
    ScanAppend(digits, rest, 0);
    if n < 0 {
      assert ("-" + digits + rest)[1..] == digits + rest;
    }
  }

  lemma TextReadsBack(s: string, rest: string)
    requires EndsLiteral(rest)
    ensures ScanValue(SqlLiteral(Text(s)) + rest) == Some((Text(s), rest))
  {
    hide ScanString, ScanDigits, Doubled;
    var text := SqlLiteral(Text(s)) + rest;
    assert text[1..] == Doubled(s) + "'" + rest;
    ScanDoubled(s, rest);
  }

  /** Every literal reads back as its value, and leaves what follows. */
  lemma LiteralReadsBack(v: SqlValue, rest: string)
    requires EndsLiteral(rest)
    ensures ScanValue(SqlLiteral(v) + rest) == Some((v, rest))
  {
    hide ScanString, ScanDigits, Doubled, Digits;
    match v
    case Null => assert ("NULL" + rest)[4..] == rest;
    case Integer(n) => IntegerReadsBack(n, rest);
    case Text(s) => TextReadsBack(s, rest);
  }

  // `vals.join(',')` inside `VALUES (…)`
  function ValueList(vals: seq<SqlValue>): string
    requires vals != []
  {
    if |vals| == 1 then SqlLiteral(vals[0]) else SqlLiteral(vals[0]) + "," + ValueList(vals[1..])
  }

  function ScanList(text: string): Option<(seq<SqlValue>, string)>
    decreases |text|
  {
    match ScanValue(text)
    case None => None
    case Some((v, rest)) =>
      if rest != "" && rest[0] == ',' then
        (match ScanList(rest[1..])
         case None => None
         case Some((vs, end)) => Some(([v] + vs, end)))
      else Some(([v], rest))
  }

  // One value, a comma, and the rest of the list.
  lemma ScanStep(text: string, v: SqlValue, more: string, vs: seq<SqlValue>, end: string)
    requires ScanValue(text) == Some((v, "," + more))
    requires ScanList(more) == Some((vs, end))
    ensures ScanList(text) == Some(([v] + vs, end))
  {
  }

  /** The VALUES list of a rollback INSERT reads back as exactly the row's values, whatever
      quotes, commas and parentheses the texts hold. */
  lemma {:induction false} ValuesReadBack(vals: seq<SqlValue>)
    requires vals != []
    ensures ScanList(ValueList(vals) + ");") == Some((vals, ");"))
  {
    hide SqlLiteral, ScanValue, ScanString, ScanDigits;
    if |vals| == 1 {
      LiteralReadsBack(vals[0], ");");
      assert vals == [vals[0]];
    } else {
      var more := ValueList(vals[1..]) + ");";
      assert ValueList(vals) + ");" == SqlLiteral(vals[0]) + ("," + more);
      LiteralReadsBack(vals[0], "," + more);
      ValuesReadBack(vals[1..]);
      ScanStep(SqlLiteral(vals[0]) + ("," + more), vals[0], more, vals[1..], ");");
      assert vals == [vals[0]] + vals[1..];
    }
  }
}
