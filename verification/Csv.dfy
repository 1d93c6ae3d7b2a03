/** CSV quoting, and a reader of one record as section 2 of RFC 4180 lays it down. */
module Csv {
  predicate Special(c: char) {
    c == ',' || c == '"' || c == '\r' || c == '\n'
  }

  predicate NeedsQuotes(value: string) {
    exists i | 0 <= i < |value| :: Special(value[i])
  }

  /** Every quote doubled. */
  function Doubled(value: string): string {
    if value == "" then ""
    else (if value[0] == '"' then ['"', '"'] else [value[0]]) + Doubled(value[1..])
  }

  function Escaped(value: string): string {
    if NeedsQuotes(value) then ['"'] + Doubled(value) + ['"'] else value
  }

  lemma {:induction false} DoubledSnoc(value: string, c: char)
    ensures Doubled(value + [c]) == Doubled(value) + (if c == '"' then ['"', '"'] else [c])
  {
    if value != "" {
      assert (value + [c])[1..] == value[1..] + [c];
      DoubledSnoc(value[1..], c);
    }
  }

  /** A field is left as it is if and only if nothing in it needs quoting. */
  lemma QuotedDiffers(value: string)
    ensures NeedsQuotes(value) <==> ',' in value || '"' in value || '\r' in value || '\n' in value
    ensures NeedsQuotes(value) ==> Escaped(value) != value
  {
    DoubledIsLonger(value);
    assert |Escaped(value)| > |value| || !NeedsQuotes(value);
  }

  lemma {:induction false} DoubledIsLonger(value: string)
    ensures |Doubled(value)| >= |value|
  {
    if value != "" {
      DoubledIsLonger(value[1..]);
    }
  }

  method CsvEscape(value: string) returns (escaped: string)
    ensures escaped == Escaped(value)
    ensures ',' !in value && '"' !in value && '\r' !in value && '\n' !in value <==> escaped == value
  {
    QuotedDiffers(value);
    if !NeedsQuotes(value) {
      return value;
    }
    escaped := "\"";
    for i := 0 to |value|
      invariant escaped == ['"'] + Doubled(value[..i])
    {
      var character := value[i];
      DoubledSnoc(value[..i], character);
      assert value[..i + 1] == value[..i] + [character];
      if character == '"' {
        escaped := escaped + "\"";
      }
      escaped := escaped + [character];
    }
    assert value[..|value|] == value;
    escaped := escaped + "\"";
  }

  /** Fields joined by commas, as a row is printed. */
  function Row(fields: seq<string>): string
    requires fields != []
  {
    if |fields| == 1 then Escaped(fields[0]) else Escaped(fields[0]) + [','] + Row(fields[1..])
  }

  // ---------------------------------------------------------------- the reader

  datatype Reading<T> = Bad | Good(value: T, rest: string)

  /** A quoted field after its opening quote: two quotes stand for one, a single quote closes. */
  function ReadQuoted(s: string): Reading<string>
    decreases |s|
  {
    if s == "" then Bad
    else if s[0] != '"' then
      match ReadQuoted(s[1..]) case Bad => Bad case Good(v, rest) => Good([s[0]] + v, rest)
    else if |s| > 1 && s[1] == '"' then
      match ReadQuoted(s[2..]) case Bad => Bad case Good(v, rest) => Good(['"'] + v, rest)
    else Good("", s[1..])
  }

  /** A field without quotes: up to the next comma or the end, with nothing special in it. */
  function ReadPlain(s: string): Reading<string>
    decreases |s|
  {
    if s == "" || s[0] == ',' then Good("", s)
    else if Special(s[0]) then Bad
    else match ReadPlain(s[1..]) case Bad => Bad case Good(v, rest) => Good([s[0]] + v, rest)
  }

  function ReadField(s: string): (r: Reading<string>)
    ensures r.Good? ==> |r.rest| <= |s|
  {
    ReadingShrinks(s);
    if s != "" && s[0] == '"' then ReadingShrinks(s[1..]); ReadQuoted(s[1..]) else ReadPlain(s)
  }

  lemma ReadingShrinks(s: string)
    ensures ReadQuoted(s).Good? ==> |ReadQuoted(s).rest| < |s|
    ensures ReadPlain(s).Good? ==> |ReadPlain(s).rest| <= |s|
    decreases |s|
  {
    if s != "" {
      ReadingShrinks(s[1..]);
      if |s| > 1 {
        ReadingShrinks(s[2..]);
      }
    }
  }

  datatype Fields = NotARow | Fields(values: seq<string>)

  function ReadRow(s: string): Fields
    decreases |s|
  {
    match ReadField(s)
    case Bad => NotARow
    case Good(v, rest) =>
      if rest == "" then Fields([v])
      else if rest[0] != ',' then NotARow
      else match ReadRow(rest[1..]) case NotARow => NotARow case Fields(vs) => Fields([v] + vs)
  }

  lemma {:induction false} QuotedReadsBack(value: string, rest: string)
    requires rest == "" || rest[0] != '"'
    ensures ReadQuoted(Doubled(value) + ['"'] + rest) == Good(value, rest)
    decreases |value|
  {
    var s := Doubled(value) + ['"'] + rest;
    if value == "" {
      assert s[1..] == rest;
    } else {
      QuotedReadsBack(value[1..], rest);
      var tail := Doubled(value[1..]) + ['"'] + rest;
      if value[0] == '"' {
        assert s[2..] == tail;
      } else {
        assert s[1..] == tail;
      }
      assert value == [value[0]] + value[1..];
    }
  }

  lemma {:induction false} PlainReadsBack(value: string, rest: string)
    requires !NeedsQuotes(value) && (rest == "" || rest[0] == ',')
    ensures ReadPlain(value + rest) == Good(value, rest)
    decreases |value|
  {
    if value == "" {
      assert value + rest == rest;
    } else {
      assert !NeedsQuotes(value[1..]) by {
        assert forall i | 0 <= i < |value[1..]| :: value[1..][i] == value[i + 1];
      }
      PlainReadsBack(value[1..], rest);
      assert (value + rest)[1..] == value[1..] + rest;
      assert value == [value[0]] + value[1..];
    }
  }

  lemma ReadFieldCases(s: string)
    ensures ReadField(s) == if s != "" && s[0] == '"' then ReadQuoted(s[1..]) else ReadPlain(s)
  {
  }

  lemma FieldReadsBack(value: string, rest: string)
    requires rest == "" || rest[0] == ','
    ensures ReadField(Escaped(value) + rest) == Good(value, rest)
  {
    var s := Escaped(value) + rest;
    ReadFieldCases(s);
    if NeedsQuotes(value) {
      QuotedReadsBack(value, rest);
      assert Escaped(value) == ['"'] + (Doubled(value) + ['"']);
      AfterFirst('"', Doubled(value) + ['"'], rest);
    } else {
      PlainReadsBack(value, rest);
      if value != "" {
        assert !Special(value[0]);
        assert s[0] == value[0];
      } else {
        assert s == rest;
      }
    }
  }

  lemma AfterFirst(c: char, a: string, b: string)
    ensures ([c] + a + b)[0] == c && ([c] + a + b)[1..] == a + b
  {
  }

  lemma ReadRowStep(s: string, value: string, rest: string)
    requires ReadField(s) == Good(value, rest)
    ensures rest == "" ==> ReadRow(s) == Fields([value])
    ensures rest != "" && rest[0] == ',' && ReadRow(rest[1..]).Fields? ==>
              ReadRow(s) == Fields([value] + ReadRow(rest[1..]).values)
  {
  }

  /** Whatever the fields contain, a reader gets back exactly them. */
  lemma {:induction false} RowReadsBack(fields: seq<string>)
    requires fields != []
    ensures ReadRow(Row(fields)) == Fields(fields)
  {
    var first := fields[0];
    if |fields| == 1 {
      FieldReadsBack(first, "");
      assert Row(fields) == Escaped(first) + "";
      ReadRowStep(Row(fields), first, "");
      assert fields == [first];
    } else {
      var tail := Row(fields[1..]);
      FieldReadsBack(first, [','] + tail);
      Joined(fields);
      RowReadsBack(fields[1..]);
      assert ([','] + tail)[1..] == tail;
      ReadRowStep(Row(fields), first, [','] + tail);
      assert fields == [first] + fields[1..];
    }
  }

  lemma Joined(fields: seq<string>)
    requires |fields| > 1
    ensures Row(fields) == Escaped(fields[0]) + ([','] + Row(fields[1..]))
  {
  }
}
