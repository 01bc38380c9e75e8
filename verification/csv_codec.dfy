/** The semicolon-separated CSV codec: the value escaper and the quote-aware
    line parser. */
module CsvCodec {
  import opened Results
  import Text

  /** A value must be quoted when it holds the separator, a quote or a line break. */
  predicate NeedsQuoting(s: string) {
    ';' in s || '"' in s || '\n' in s
  }

  /** Every '"' doubled (`replace(/"/g, '""')`). */
  function DoubleQuotes(s: string): (r: string)
    ensures |r| == |s| + Text.Count(s, '"')
  {
    if |s| == 0 then [] else (if s[0] == '"' then ['"', '"'] else [s[0]]) + DoubleQuotes(s[1..])
  }

  /** `escapeValue`: `null`/`undefined` (None) become the empty string; a value
      needing quotes is wrapped in quotes with its quotes doubled; any other
      value is written as is. */
  function Escape(v: Option<string>): (r: string)
    ensures v.None? ==> r == []
    ensures v.Some? && !NeedsQuoting(v.value) ==> r == v.value
    ensures v.Some? && NeedsQuoting(v.value) ==> |r| >= 2 && r[0] == '"' && r[|r| - 1] == '"'
  {
    match v
    case None => []
    case Some(s) => if NeedsQuoting(s) then ['"'] + DoubleQuotes(s) + ['"'] else s
  }

  function EscapeAll(vs: seq<Option<string>>): (r: seq<string>)
    ensures |r| == |vs| && forall k | 0 <= k < |vs| :: r[k] == Escape(vs[k])
  {
    seq(|vs|, k requires 0 <= k < |vs| => Escape(vs[k]))
  }

  /** The text a value reads back as: the value itself, or '' for None. */
  function Plain(vs: seq<Option<string>>): (r: seq<string>)
    ensures |r| == |vs| && forall k | 0 <= k < |vs| :: r[k] == vs[k].GetOr([])
  {
    seq(|vs|, k requires 0 <= k < |vs| => vs[k].GetOr([]))
  }

  /** The parser's scan of the rest of a line, from the state (`values`
      finished, `current` field so far, inside quotes or not). */
  function ParseFrom(rest: string, values: seq<string>, current: string, inQuotes: bool): seq<string>
    decreases |rest|
  {
    if |rest| == 0 then values + [current]
    else if rest[0] == '"' then
      if inQuotes && |rest| > 1 && rest[1] == '"' then ParseFrom(rest[2..], values, current + ['"'], inQuotes)
      else ParseFrom(rest[1..], values, current, !inQuotes)
    else if rest[0] == ';' && !inQuotes then ParseFrom(rest[1..], values + [current], [], inQuotes)
    else ParseFrom(rest[1..], values, current + [rest[0]], inQuotes)
  }

  /** The fields of one line. */
  function ParseLine(line: string): seq<string> {
    ParseFrom(line, [], [], false)
  }

  /** `parseCsvLine`, as the index loop of the source. */
  method ParseCsvLine(line: string) returns (values: seq<string>)
    ensures values == ParseLine(line)
    ensures |values| >= 1
  {
    values := [];
    var current: string := [];
    var inQuotes := false;
    var i := 0;
    while i < |line|
      invariant 0 <= i <= |line|
      invariant ParseFrom(line[i..], values, current, inQuotes) == ParseLine(line)
    {
      var rest := line[i..];
      assert rest[0] == line[i] && rest[1..] == line[i + 1..];
      if line[i] == '"' {
        if inQuotes && i + 1 < |line| && line[i + 1] == '"' {
          assert rest[1] == line[i + 1] && rest[2..] == line[i + 2..];
          current := current + ['"'];
          i := i + 1;
        } else {
          inQuotes := !inQuotes;
        }
      } else if line[i] == ';' && !inQuotes {
        values := values + [current];
        current := [];
      } else {
        current := current + [line[i]];
      }
      i := i + 1;
    }
    values := values + [current];
  }

  /** Characters other than quotes (and, outside quotes, separators) are copied. */
  lemma {:induction false} PlainText(f: string, rest: string, values: seq<string>, current: string)
    requires !NeedsQuoting(f)
    ensures ParseFrom(f + rest, values, current, false) == ParseFrom(rest, values, current + f, false)
    decreases |f|
  {
    if |f| > 0 {
      assert (f + rest)[0] == f[0] && (f + rest)[1..] == f[1..] + rest;
      assert f[0] in f;
      assert !NeedsQuoting(f[1..]) by {
        assert forall c | c in f[1..] :: c in f;
      }
      PlainText(f[1..], rest, values, current + [f[0]]);
      assert current + [f[0]] + f[1..] == current + f;
    } else {
      assert f + rest == rest && current + f == current;
    }
  }

  /** Inside quotes, the doubled-quote body of `f` and the closing quote read back as `f`. */
  lemma {:induction false} QuotedText(f: string, rest: string, values: seq<string>, current: string)
    requires |rest| == 0 || rest[0] != '"'
    ensures ParseFrom(DoubleQuotes(f) + ['"'] + rest, values, current, true) == ParseFrom(rest, values, current + f, false)
    decreases |f|
  {
    var s := DoubleQuotes(f) + ['"'] + rest;
    if |f| == 0 {
      assert s == ['"'] + rest;
      assert s[1..] == rest;
      assert current + f == current;
    } else if f[0] == '"' {
      assert s == ['"', '"'] + (DoubleQuotes(f[1..]) + ['"'] + rest);
      assert s[2..] == DoubleQuotes(f[1..]) + ['"'] + rest;
      QuotedText(f[1..], rest, values, current + ['"']);
      assert current + ['"'] + f[1..] == current + f;
    } else {
      assert s == [f[0]] + (DoubleQuotes(f[1..]) + ['"'] + rest);
      assert s[1..] == DoubleQuotes(f[1..]) + ['"'] + rest;
      QuotedText(f[1..], rest, values, current + [f[0]]);
      assert current + [f[0]] + f[1..] == current + f;
    }
  }

  /** An escaped value, followed by a separator or the end of the line, reads back as its text. */
  lemma EscapedValue(v: Option<string>, rest: string, values: seq<string>, current: string)
    requires |rest| == 0 || rest[0] == ';'
    ensures ParseFrom(Escape(v) + rest, values, current, false) == ParseFrom(rest, values, current + v.GetOr([]), false)
  {
    match v
    case None =>
      assert Escape(v) + rest == rest && current + [] == current;
    case Some(f) =>
      if NeedsQuoting(f) {
        var s := Escape(v) + rest;
        assert s == ['"'] + (DoubleQuotes(f) + ['"'] + rest);
        assert s[1..] == DoubleQuotes(f) + ['"'] + rest;
        QuotedText(f, rest, values, current);
      } else {
        PlainText(f, rest, values, current);
      }
  }

  /** The ';'-join of escaped values, scanned from the start of a field, adds
      the values' text to the finished fields. */
  lemma {:induction false} JoinRoundTrip(vs: seq<Option<string>>, values: seq<string>)
    requires |vs| >= 1
    ensures ParseFrom(Text.Join(EscapeAll(vs), ';'), values, [], false) == values + Plain(vs)
    decreases |vs|
  {
    var first := vs[0].GetOr([]);
    if |vs| == 1 {
      JoinSingle(vs, values);
    } else {
      JoinStep(vs, values);
      JoinRoundTrip(vs[1..], values + [first]);
      PlainCons(vs, values);
    }
  }

  /** The text of a row is its first value's text followed by the rest's. */
  lemma PlainCons(vs: seq<Option<string>>, values: seq<string>)
    requires |vs| >= 1
    ensures values + [vs[0].GetOr([])] + Plain(vs[1..]) == values + Plain(vs)
  {
    PlainHead(vs);
    assert values + [vs[0].GetOr([])] + Plain(vs[1..]) == values + ([vs[0].GetOr([])] + Plain(vs[1..]));
  }

  lemma PlainHead(vs: seq<Option<string>>)
    requires |vs| >= 1
    ensures [vs[0].GetOr([])] + Plain(vs[1..]) == Plain(vs)
  {
    var a := [vs[0].GetOr([])] + Plain(vs[1..]);
    forall k | 0 <= k < |a| ensures a[k] == Plain(vs)[k] {
      if k > 0 {
        assert a[k] == Plain(vs[1..])[k - 1];
      }
    }
  }

  /** A single escaped value reads back as its text. */
  lemma JoinSingle(vs: seq<Option<string>>, values: seq<string>)
    requires |vs| == 1
    ensures ParseFrom(Text.Join(EscapeAll(vs), ';'), values, [], false) == values + Plain(vs)
  {
    var e := Escape(vs[0]);
    assert Text.Join(EscapeAll(vs), ';') == e + [];
    EscapedValue(vs[0], [], values, []);
    assert [] + vs[0].GetOr([]) == vs[0].GetOr([]);
    assert Plain(vs) == [vs[0].GetOr([])];
  }

  /** The first escaped value of a join of two or more reads back, and the scan resumes after the separator. */
  lemma JoinStep(vs: seq<Option<string>>, values: seq<string>)
    requires |vs| >= 2
    ensures ParseFrom(Text.Join(EscapeAll(vs), ';'), values, [], false)
      == ParseFrom(Text.Join(EscapeAll(vs[1..]), ';'), values + [vs[0].GetOr([])], [], false)
  {
    var es := EscapeAll(vs);
    assert EscapeAll(vs[1..]) == es[1..];
    var tail := Text.Join(es[1..], ';');
    var rest := [';'] + tail;
    assert Text.Join(es, ';') == es[0] + rest;
    EscapedValue(vs[0], rest, values, []);
    assert rest[0] == ';' && rest[1..] == tail;
    assert [] + vs[0].GetOr([]) == vs[0].GetOr([]);
  }

  /** Parsing the ';'-join of escaped values gives back the values' text. */
  lemma ParseEscapedRow(vs: seq<Option<string>>)
    requires |vs| >= 1
    ensures ParseLine(Text.Join(EscapeAll(vs), ';')) == Plain(vs)
  {
    JoinRoundTrip(vs, []);
    assert [] + Plain(vs) == Plain(vs);
  }

  /** Outside quotes, a quote-free rest of a line is split on ';': the first
      piece completes the current field and the others follow as fields. */
  lemma {:induction false} QuoteFreeScan(s: string, values: seq<string>, current: string)
    requires '"' !in s
    ensures ParseFrom(s, values, current, false) == values + [current + Text.Split(s, ';')[0]] + Text.Split(s, ';')[1..]
    decreases |s|
  {
    if |s| == 0 {
      assert current + [] == current;
    } else {
      assert '"' !in s[1..] by {
        assert forall c | c in s[1..] :: c in s;
      }
      if s[0] == ';' {
        QuoteFreeScan(s[1..], values + [current], []);
        SplitAtSeparator(s, values, current);
      } else {
        QuoteFreeScan(s[1..], values, current + [s[0]]);
        assert current + [s[0]] + Text.Split(s[1..], ';')[0] == current + ([s[0]] + Text.Split(s[1..], ';')[0]);
      }
    }
  }

  /** The bookkeeping of one separator in `QuoteFreeScan`. */
  lemma SplitAtSeparator(s: string, values: seq<string>, current: string)
    requires |s| > 0 && s[0] == ';'
    ensures values + [current] + [[] + Text.Split(s[1..], ';')[0]] + Text.Split(s[1..], ';')[1..]
         == values + [current + Text.Split(s, ';')[0]] + Text.Split(s, ';')[1..]
  {
    var rest := Text.Split(s[1..], ';');
    var whole := Text.Split(s, ';');
    assert whole == [[]] + rest;
    assert whole[0] == [] && whole[1..] == rest;
    var head: string := [] + rest[0];
    assert head == rest[0];
    calc {
      values + [current] + [head] + rest[1..];
      values + [current] + ([rest[0]] + rest[1..]);
      { assert [rest[0]] + rest[1..] == rest; }
      values + [current] + rest;
      { assert current + whole[0] == current; }
      values + [current + whole[0]] + whole[1..];
    }
  }

  /** Without quotes the parser is a plain split on ';', so a quote-free line
      has one field more than it has separators. */
  lemma QuoteFreeLineIsSplit(line: string)
    requires '"' !in line
    ensures ParseLine(line) == Text.Split(line, ';')
    ensures |ParseLine(line)| == Text.Count(line, ';') + 1
  {
    QuoteFreeScan(line, [], []);
    var r := Text.Split(line, ';');
    assert [] + r[0] == r[0];
    assert [] + [r[0]] + r[1..] == r;
  }
}
