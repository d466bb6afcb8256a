/** Rendering a bound statement to SQL with numbered markers
    (crates/cdk-sql-common/src/stmt.rs:199-261), and reading such SQL back. */
module SqlRender {
  import opened Wrappers
  import opened SqlParser

  // ----- Trimming -----

  /** The Unicode White_Space characters, which `str::trim` removes. */
  predicate IsSpace(c: char) {
    var n := c as int;
    || 9 <= n <= 13 || n == 0x20 || n == 0x85 || n == 0xA0 || n == 0x1680 || 0x2000 <= n <= 0x200A
    || n == 0x2028 || n == 0x2029 || n == 0x202F || n == 0x205F || n == 0x3000
  }

  function TrimStart(s: string): string {
    if s != [] && IsSpace(s[0]) then TrimStart(s[1..]) else s
  }

  function TrimEnd(s: string): string {
    if s != [] && IsSpace(s[|s| - 1]) then TrimEnd(s[..|s| - 1]) else s
  }

  function Trim(s: string): string {
    TrimEnd(TrimStart(s))
  }

  // ----- Markers -----

  predicate IsDigit(c: char) {
    '0' <= c <= '9'
  }

  function Decimal(n: nat): (s: string)
    ensures s != [] && forall i :: 0 <= i < |s| ==> IsDigit(s[i])
  {
    if n < 10 then [(48 + n) as char] else Decimal(n / 10) + [(48 + n % 10) as char]
  }

  function DigitValue(c: char): nat
    requires IsDigit(c)
  {
    c as int - 48
  }

  function ParseDecimal(s: string): nat
    requires forall i :: 0 <= i < |s| ==> IsDigit(s[i])
  {
    if s == [] then 0 else 10 * ParseDecimal(s[..|s| - 1]) + DigitValue(s[|s| - 1])
  }

  lemma {:induction false} ParseAfterDecimal(n: nat)
    ensures ParseDecimal(Decimal(n)) == n
  {
    if n >= 10 {
      var s := Decimal(n);
      assert s[..|s| - 1] == Decimal(n / 10);
      ParseAfterDecimal(n / 10);
    } else {
      assert Decimal(n)[..0] == [];
    }
  }

  function Marker(n: nat): string {
    ['$'] + Decimal(n)
  }

  /** `count` markers from number `first` on, separated by commas. */
  function Markers(first: nat, count: nat): string
    decreases count
  {
    if count == 0 then []
    else if count == 1 then Marker(first)
    else Marker(first) + ", " + Markers(first + 1, count - 1)
  }

  // ----- Rendering -----

  datatype Rendered = Rendered(segments: seq<string>, values: seq<Value>)

  function ValuesOf(b: Bound): seq<Value> {
    match b
    case Scalar(v) => [v]
    case Many(vs) => vs
  }

  /** The text of a bound placeholder when `k` values precede it. */
  function Segment(b: Bound, k: nat): string {
    match b
    case Scalar(_) => Marker(k + 1)
    case Many(vs) => Markers(k + 1, |vs|)
  }

  /** The segments and values of `parts` after `k` values, or the first name without a value. */
  function Render(parts: seq<Part>, k: nat): Result<Rendered, string> {
    if parts == [] then Ok(Rendered([], []))
    else match parts[0]
      case Raw(text) => AddSegment(Trim(text), [], Render(parts[1..], k))
      case Placeholder(name, None) => Err(name)
      case Placeholder(_, Some(b)) =>
        AddSegment(Segment(b, k), ValuesOf(b), Render(parts[1..], k + |ValuesOf(b)|))
  }

  function AddSegment(segment: string, values: seq<Value>, r: Result<Rendered, string>): Result<Rendered, string> {
    match r
    case Ok(rest) => Ok(Rendered([segment] + rest.segments, values + rest.values))
    case Err(name) => Err(name)
  }

  function Join(segments: seq<string>): string {
    if segments == [] then []
    else if |segments| == 1 then segments[0]
    else segments[0] + [' '] + Join(segments[1..])
  }

  /** The SQL text and its values, or the name of a placeholder without a value. */
  type Output = Result<(string, seq<Value>), string>

  /** `to_sql` without a cached text. */
  function UncachedSql(parts: seq<Part>): Output {
    match Render(parts, 0)
    case Ok(r) => Ok((Join(r.segments), r.values))
    case Err(name) => Err(name)
  }

  // ----- Reading SQL back -----

  /** What a database sees: characters (marked when inside a literal), parameters, and gaps, which are
      the whitespace outside literals. */
  datatype Token = Ch(c: char, quoted: bool) | Param(n: nat) | Val(v: Value) | Gap

  /** The number of tokens before the first gap. */
  function WordLength(xs: seq<Token>): (n: nat)
    ensures n <= |xs|
    ensures forall i :: 0 <= i < n ==> !xs[i].Gap?
    ensures n < |xs| ==> xs[n].Gap?
  {
    if xs == [] || xs[0].Gap? then 0 else 1 + WordLength(xs[1..])
  }

  /** The runs of tokens between gaps.  How much whitespace is in a gap does not matter, but whether
      there is any does. */
  function Words(xs: seq<Token>): seq<seq<Token>>
    decreases |xs|
  {
    if xs == [] then []
    else if xs[0].Gap? then Words(xs[1..])
    else [xs[..WordLength(xs)]] + Words(xs[WordLength(xs)..])
  }

  lemma {:induction false} WordLengthBeforeGap(xs: seq<Token>, ys: seq<Token>)
    requires ys != [] ==> ys[0].Gap?
    ensures WordLength(xs + ys) == WordLength(xs)
  {
    if xs == [] {
      assert xs + ys == ys;
    } else {
      assert (xs + ys)[1..] == xs[1..] + ys;
      WordLengthBeforeGap(xs[1..], ys);
    }
  }

  /** A gap separates words. */
  lemma {:induction false} WordsGap(xs: seq<Token>, ys: seq<Token>)
    ensures Words(xs + ([Gap] + ys)) == Words(xs) + Words(ys)
    decreases |xs|
  {
    var gap := [Gap] + ys;
    assert gap[1..] == ys;
    if xs == [] {
      assert xs + gap == gap;
    } else if xs[0].Gap? {
      assert (xs + gap)[1..] == xs[1..] + gap;
      WordsGap(xs[1..], ys);
    } else {
      var n := WordLength(xs);
      WordLengthBeforeGap(xs, gap);
      ConcatDrop(xs, gap, n);
      assert (xs + gap)[..n] == xs[..n];
      WordsGap(xs[n..], ys);
      Assoc([xs[..n]], Words(xs[n..]), Words(ys));
    }
  }

  lemma WordsTrailingGap(xs: seq<Token>)
    ensures Words(xs + [Gap]) == Words(xs)
  {
    WordsGap(xs, []);
    assert [Gap] + [] == [Gap] && Words(xs) + [] == Words(xs);
  }

  function DigitsLength(s: string): (n: nat)
    ensures n <= |s|
    ensures forall i :: 0 <= i < n ==> IsDigit(s[i])
    ensures n < |s| ==> !IsDigit(s[n])
  {
    if s != [] && IsDigit(s[0]) then 1 + DigitsLength(s[1..]) else 0
  }

  predicate StartsMarker(s: string) {
    |s| > 1 && s[0] == '$' && IsDigit(s[1])
  }

  /** The next piece of the input: its tokens, its length, and the quote open after it. */
  datatype Lexeme = Lexeme(tokens: seq<Token>, length: nat, open: Option<char>)

  function Lex(s: string, open: Option<char>): (l: Lexeme)
    requires s != []
    ensures 1 <= l.length <= |s|
  {
    if open.Some? || IsQuote(s[0]) then Lexeme([Ch(s[0], true)], 1, NextOpen(open, s[0]))
    else if IsSpace(s[0]) then Lexeme([Gap], 1, None)
    else if StartsMarker(s) then
      var n := DigitsLength(s[1..]);
      Lexeme([Param(ParseDecimal(s[1..][..n]))], 1 + n, None)
    else Lexeme([Ch(s[0], false)], 1, None)
  }

  function Read(s: string, open: Option<char>): seq<Token>
    decreases |s|
  {
    if s == [] then []
    else
      var l := Lex(s, open);
      l.tokens + Read(s[l.length..], l.open)
  }

  function OpenAfter(s: string, open: Option<char>): Option<char> {
    if s == [] then open else OpenAfter(s[1..], NextOpen(open, s[0]))
  }

  lemma {:induction false} OpenAfterConcat(s: string, t: string, open: Option<char>)
    ensures OpenAfter(s + t, open) == OpenAfter(t, OpenAfter(s, open))
  {
    if s == [] {
      assert s + t == t;
    } else {
      assert (s + t)[1..] == s[1..] + t;
      OpenAfterConcat(s[1..], t, NextOpen(open, s[0]));
    }
  }

  lemma {:induction false} OpenAfterPlain(s: string)
    requires forall i :: 0 <= i < |s| ==> !IsQuote(s[i])
    ensures OpenAfter(s, None) == None
  {
    if s != [] {
      OpenAfterPlain(s[1..]);
    }
  }

  lemma {:induction false} DigitsLengthConcat(s: string, t: string)
    requires t == [] || !IsDigit(t[0])
    ensures DigitsLength(s + t) == DigitsLength(s)
  {
    if s == [] {
      assert s + t == t;
    } else {
      assert (s + t)[1..] == s[1..] + t;
      DigitsLengthConcat(s[1..], t);
    }
  }

  lemma Assoc<T>(a: seq<T>, b: seq<T>, c: seq<T>)
    ensures a + b + c == a + (b + c)
  {
  }

  lemma ConcatDrop<T>(s: seq<T>, t: seq<T>, n: nat)
    requires n <= |s|
    ensures (s + t)[n..] == s[n..] + t
  {
  }

  /** Text can be read piece by piece where no digit follows. */
  lemma {:induction false} ReadConcat(s: string, t: string, open: Option<char>)
    requires t == [] || !IsDigit(t[0])
    ensures Read(s + t, open) == Read(s, open) + Read(t, OpenAfter(s, open))
    decreases |s|
  {
    if s == [] {
      assert s + t == t;
    } else {
      var l := Lex(s, open);
      LexConcat(s, t, open);
      ConcatDrop(s, t, l.length);
      ReadConcat(s[l.length..], t, l.open);
      Assoc(l.tokens, Read(s[l.length..], l.open), Read(t, OpenAfter(s, open)));
    }
  }

  lemma LexConcat(s: string, t: string, open: Option<char>)
    requires s != []
    requires t == [] || !IsDigit(t[0])
    ensures Lex(s + t, open) == Lex(s, open)
    ensures OpenAfter(s, open) == OpenAfter(s[Lex(s, open).length..], Lex(s, open).open)
  {
    if open.None? && StartsMarker(s) {
      LexMarkerConcat(s, t);
    }
  }

  lemma LexMarkerConcat(s: string, t: string)
    requires StartsMarker(s)
    requires t == [] || !IsDigit(t[0])
    ensures Lex(s + t, None) == Lex(s, None)
    ensures OpenAfter(s, None) == OpenAfter(s[Lex(s, None).length..], None)
  {
    var n := DigitsLength(s[1..]);
    assert (s + t)[0] == s[0] && (s + t)[1] == s[1];
    ConcatDrop(s, t, 1);
    DigitsLengthConcat(s[1..], t);
    assert (s[1..] + t)[..n] == s[1..][..n];
    OpenAfterMarker(s, 1 + n);
  }

  lemma OpenAfterMarker(s: string, n: nat)
    requires n <= |s| && forall i :: 0 <= i < n ==> !IsQuote(s[i])
    ensures OpenAfter(s, None) == OpenAfter(s[n..], None)
  {
    assert s == s[..n] + s[n..];
    OpenAfterConcat(s[..n], s[n..], None);
    OpenAfterPlain(s[..n]);
  }

  lemma {:induction false} ReadTrimStart(s: string)
    ensures Words(Read(TrimStart(s), None)) == Words(Read(s, None))
    ensures OpenAfter(TrimStart(s), None) == OpenAfter(s, None)
  {
    if s != [] && IsSpace(s[0]) {
      ReadTrimStart(s[1..]);
      assert Read(s, None)[1..] == Read(s[1..], None);
    }
  }

  lemma {:induction false} OpenAfterIsQuote(s: string, open: Option<char>)
    requires open.Some? ==> IsQuote(open.value)
    ensures OpenAfter(s, open).Some? ==> IsQuote(OpenAfter(s, open).value)
  {
    if s != [] {
      OpenAfterIsQuote(s[1..], NextOpen(open, s[0]));
    }
  }

  lemma {:induction false} ReadTrimEnd(s: string)
    requires OpenAfter(s, None) == None
    ensures Words(Read(TrimEnd(s), None)) == Words(Read(s, None))
    ensures OpenAfter(TrimEnd(s), None) == None
  {
    if s != [] && IsSpace(s[|s| - 1]) {
      var front, last := s[..|s| - 1], [s[|s| - 1]];
      assert s == front + last;
      OpenAfterConcat(front, last, None);
      OpenAfterIsQuote(front, None);
      assert OpenAfter(last, OpenAfter(front, None)) == NextOpen(OpenAfter(front, None), last[0]);
      ReadConcat(front, last, None);
      assert Read(last, None) == [Gap];
      WordsTrailingGap(Read(front, None));
      ReadTrimEnd(front);
    }
  }

  /** Trimming a text whose literals are closed changes none of its words. */
  lemma ReadTrim(s: string)
    requires OpenAfter(s, None) == None
    ensures Words(Read(Trim(s), None)) == Words(Read(s, None))
    ensures OpenAfter(Trim(s), None) == None
  {
    ReadTrimStart(s);
    ReadTrimEnd(TrimStart(s));
  }

  lemma ReadMarker(n: nat)
    ensures Read(Marker(n), None) == [Param(n)] && OpenAfter(Marker(n), None) == None
  {
    var s := Marker(n);
    assert s[1..] == Decimal(n);
    AllDigitsLength(Decimal(n));
    assert s[1..][..|Decimal(n)|] == Decimal(n);
    ParseAfterDecimal(n);
    OpenAfterPlain(s);
    assert s[1 + |Decimal(n)|..] == [];
  }

  lemma {:induction false} AllDigitsLength(s: string)
    requires forall i :: 0 <= i < |s| ==> IsDigit(s[i])
    ensures DigitsLength(s) == |s|
  {
    if s != [] {
      AllDigitsLength(s[1..]);
    }
  }

  /** `count` parameters from number `first` on, separated by commas. */
  function Params(first: nat, count: nat): seq<Token>
    decreases count
  {
    if count == 0 then []
    else if count == 1 then [Param(first)]
    else [Param(first), Ch(',', false), Gap] + Params(first + 1, count - 1)
  }

  lemma ReadComma(rest: string)
    ensures Read(", " + rest, None) == [Ch(',', false), Gap] + Read(rest, None)
    ensures OpenAfter(", " + rest, None) == OpenAfter(rest, None)
  {
    var s := [' '] + rest;
    ReadSpace(rest);
    var t := ", " + rest;
    assert t[0] == ',' && t[1..] == s;
    Assoc([Ch(',', false)], [Gap], Read(rest, None));
    assert [Ch(',', false)] + [Gap] == [Ch(',', false), Gap];
  }

  lemma ReadSpace(rest: string)
    ensures Read([' '] + rest, None) == [Gap] + Read(rest, None)
    ensures OpenAfter([' '] + rest, None) == OpenAfter(rest, None)
  {
    assert ([' '] + rest)[1..] == rest;
  }

  lemma ReadListHead(n: nat, rest: string)
    ensures Read(Marker(n) + ", " + rest, None) == [Param(n), Ch(',', false), Gap] + Read(rest, None)
    ensures OpenAfter(Marker(n) + ", " + rest, None) == OpenAfter(rest, None)
  {
    ReadMarker(n);
    Assoc(Marker(n), ", ", rest);
    ReadConcat(Marker(n), ", " + rest, None);
    OpenAfterConcat(Marker(n), ", " + rest, None);
    ReadComma(rest);
    assert [Param(n)] + [Ch(',', false), Gap] == [Param(n), Ch(',', false), Gap];
    Assoc([Param(n)], [Ch(',', false), Gap], Read(rest, None));
  }

  lemma {:induction false} ReadMarkers(first: nat, count: nat)
    ensures Read(Markers(first, count), None) == Params(first, count)
    ensures OpenAfter(Markers(first, count), None) == None
    decreases count
  {
    if count == 1 {
      ReadMarker(first);
    } else if count > 1 {
      ReadMarkers(first + 1, count - 1);
      ReadListHead(first, Markers(first + 1, count - 1));
    }
  }

  function BoundParams(b: Bound, k: nat): seq<Token> {
    if b.Scalar? then [Param(k + 1)] else Params(k + 1, |b.values|)
  }

  lemma ReadSegment(b: Bound, k: nat)
    ensures Read(Segment(b, k), None) == BoundParams(b, k)
    ensures OpenAfter(Segment(b, k), None) == None
  {
    if b.Scalar? {
      ReadMarker(k + 1);
    } else {
      ReadMarkers(k + 1, |b.values|);
    }
  }

  /** The words of the rendered text of `parts`, when `k` values precede it: those of each part. */
  function Numbered(parts: seq<Part>, k: nat): seq<seq<Token>>
    requires FullyBound(parts)
  {
    if parts == [] then []
    else match parts[0]
      case Raw(text) => Words(Read(text, None)) + Numbered(parts[1..], k)
      case Placeholder(_, Some(b)) =>
        Words(BoundParams(b, k)) + Numbered(parts[1..], k + |ValuesOf(b)|)
  }

  predicate FullyBound(parts: seq<Part>) {
    forall i :: 0 <= i < |parts| ==> parts[i].Placeholder? ==> parts[i].value.Some?
  }

  /** Every literal of a raw part is closed, as in every parsed statement. */
  predicate Closed(parts: seq<Part>) {
    forall i :: 0 <= i < |parts| ==> parts[i].Raw? ==> OpenAfter(parts[i].text, None) == None
  }

  lemma {:induction false} RunsIsOpenAfter(text: string, open: Option<char>, end: Option<char>)
    requires Runs(text, open, end)
    ensures OpenAfter(text, open) == end
  {
    if text != [] {
      RunsIsOpenAfter(text[1..], NextOpen(open, text[0]), end);
    }
  }

  lemma {:induction false} ReadJoin(segment: string, segments: seq<string>)
    requires OpenAfter(segment, None) == None
    ensures Words(Read(Join([segment] + segments), None))
            == Words(Read(segment, None)) + Words(Read(Join(segments), None))
  {
    var all := [segment] + segments;
    assert all[1..] == segments;
    if segments == [] {
      assert Words(Read(segment, None)) + [] == Words(Read(segment, None));
    } else {
      Assoc(segment, [' '], Join(segments));
      ReadConcat(segment, [' '] + Join(segments), None);
      ReadSpace(Join(segments));
      WordsGap(Read(segment, None), Read(Join(segments), None));
    }
  }

  /** `parts` renders to a text with its numbered words. */
  ghost predicate ReadsAsNumbered(parts: seq<Part>, k: nat)
    requires FullyBound(parts)
  {
    && Render(parts, k).Ok?
    && Words(Read(Join(Render(parts, k).value.segments), None)) == Numbered(parts, k)
  }

  lemma ReadRaw(parts: seq<Part>, k: nat)
    requires FullyBound(parts) && Closed(parts)
    requires parts != [] && parts[0].Raw? && ReadsAsNumbered(parts[1..], k)
    ensures ReadsAsNumbered(parts, k)
  {
    ReadTrim(parts[0].text);
    ReadJoin(Trim(parts[0].text), Render(parts[1..], k).value.segments);
  }

  lemma ReadPlaceholder(parts: seq<Part>, k: nat)
    requires FullyBound(parts)
    requires parts != [] && parts[0].Placeholder?
    requires ReadsAsNumbered(parts[1..], k + |ValuesOf(parts[0].value.value)|)
    ensures ReadsAsNumbered(parts, k)
  {
    var b := parts[0].value.value;
    var rest := Render(parts[1..], k + |ValuesOf(b)|).value;
    UnfoldPlaceholder(parts, k, b);
    ReadSegment(b, k);
    ReadJoin(Segment(b, k), rest.segments);
  }

  lemma UnfoldPlaceholder(parts: seq<Part>, k: nat, b: Bound)
    requires FullyBound(parts)
    requires parts != [] && parts[0].Placeholder? && parts[0].value == Some(b)
    ensures Render(parts, k) == AddSegment(Segment(b, k), ValuesOf(b), Render(parts[1..], k + |ValuesOf(b)|))
    ensures Numbered(parts, k) == Words(BoundParams(b, k)) + Numbered(parts[1..], k + |ValuesOf(b)|)
  {
    UnfoldRender(parts, k, b);
    UnfoldNumbered(parts, k, b);
  }

  lemma UnfoldRender(parts: seq<Part>, k: nat, b: Bound)
    requires parts != [] && parts[0].Placeholder? && parts[0].value == Some(b)
    ensures Render(parts, k) == AddSegment(Segment(b, k), ValuesOf(b), Render(parts[1..], k + |ValuesOf(b)|))
  {
  }

  lemma UnfoldNumbered(parts: seq<Part>, k: nat, b: Bound)
    requires FullyBound(parts)
    requires parts != [] && parts[0].Placeholder? && parts[0].value == Some(b)
    ensures Numbered(parts, k) == Words(BoundParams(b, k)) + Numbered(parts[1..], k + |ValuesOf(b)|)
  {
    var p := parts[0];
    assert p == Placeholder(p.name, Some(b));
  }

  /** The rendered text has the words of the parts, with their parameters numbered in order. */
  lemma {:induction false} ReadRendered(parts: seq<Part>, k: nat)
    requires FullyBound(parts) && Closed(parts)
    ensures ReadsAsNumbered(parts, k)
  {
    if parts != [] {
      var tail := parts[1..];
      assert FullyBound(tail) && Closed(tail);
      if parts[0].Raw? {
        ReadRendered(tail, k);
        ReadRaw(parts, k);
      } else {
        ReadRendered(tail, k + |ValuesOf(parts[0].value.value)|);
        ReadPlaceholder(parts, k);
      }
    }
  }
}
