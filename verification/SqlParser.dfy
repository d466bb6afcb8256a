/** The placeholder parser of crates/cdk-sql-common/src/stmt.rs.

    Which characters are alphanumeric is the Unicode table of the host language, so it is a
    parameter `alnum` everywhere. */
module SqlParser {
  import opened Wrappers

  /** A column value (crates/cdk-sql-common/src/value.rs). */
  datatype Value = Null | Integer(i: int) | Real(r: real) | Text(s: string) | Blob(b: seq<bv8>)

  datatype Bound = Scalar(value: Value) | Many(values: seq<Value>)

  datatype Part = Raw(text: string) | Placeholder(name: string, value: Option<Bound>)

  datatype ParseError = UnterminatedStringLiteral | InvalidPlaceholder

  type Parsed = Result<seq<Part>, ParseError>

  predicate IsQuote(c: char) {
    c == '\'' || c == '"'
  }

  predicate IsNameChar(c: char, alnum: char -> bool) {
    alnum(c) || c == '_'
  }

  /** The length of the longest name at the start of `s`. */
  function NameLength(s: string, alnum: char -> bool): (n: nat)
    ensures n <= |s|
    ensures forall i :: 0 <= i < n ==> IsNameChar(s[i], alnum)
    ensures n < |s| ==> !IsNameChar(s[n], alnum)
  {
    if s != [] && IsNameChar(s[0], alnum) then 1 + NameLength(s[1..], alnum) else 0
  }

  function Flush(current: string): seq<Part> {
    if current == [] then [] else [Raw(current)]
  }

  /** The reference scanner: one character at a time, without lookahead, remembering only which
      quote is open.  A doubled quote closes the literal and opens it again. */
  function Scan(s: string, open: Option<char>, current: string, alnum: char -> bool): Parsed
    decreases |s|
  {
    if s == [] then
      if open.Some? then Err(UnterminatedStringLiteral) else Ok(Flush(current))
    else if open.Some? then
      Scan(s[1..], if s[0] == open.value then None else open, current + [s[0]], alnum)
    else if IsQuote(s[0]) then
      Scan(s[1..], Some(s[0]), current + [s[0]], alnum)
    else if s[0] == ':' then
      var n := NameLength(s[1..], alnum);
      if n == 0 then Err(InvalidPlaceholder)
      else Prepend(Flush(current) + [Placeholder(s[1..1 + n], None)], Scan(s[1 + n..], None, [], alnum))
    else
      Scan(s[1..], None, current + [s[0]], alnum)
  }

  /** `split_sql_parts`, with its lookahead for escaped quotes: it accepts the same inputs as the
      reference scanner, with the same parts and the same errors. */
  method SplitSqlParts(input: string, alnum: char -> bool) returns (r: Parsed)
    ensures r == Scan(input, None, [], alnum)
  {
    var parts: seq<Part> := [];
    var current: string := [];
    var i := 0;
    assert input[0..] == input;
    PrependTwice([], [], Scan(input, None, [], alnum));
    while i < |input|
      invariant 0 <= i <= |input|
      invariant Scan(input, None, [], alnum) == Prepend(parts, Scan(input[i..], None, current, alnum))
    {
      var c := input[i];
      if IsQuote(c) {
        var closed;
        i, current, closed := SkipLiteral(input, i, current, alnum);
        if !closed {
          return Err(UnterminatedStringLiteral);
        }
      } else if c == ':' {
        ghost var done := parts + Flush(current);
        PrependTwice(parts, Flush(current), Scan(input[i..], None, [], alnum));
        ScanFlush(input[i..], current, alnum);
        if current != [] {
          parts := parts + [Raw(current)];
          current := [];
        }
        assert parts == done && current == [];
        var name;
        i, name := TakeName(input, i, alnum);
        if name == [] {
          return Err(InvalidPlaceholder);
        }
        PrependTwice(parts, [Placeholder(name, None)], Scan(input[i..], None, [], alnum));
        parts := parts + [Placeholder(name, None)];
      } else {
        assert input[i..][1..] == input[i + 1..];
        current := current + [c];
        i := i + 1;
      }
    }
    assert input[i..] == [] && parts + [] == parts;
    if current != [] {
      parts := parts + [Raw(current)];
    }
    r := Ok(parts);
  }

  /** The placeholder after a ':' (crates/cdk-sql-common/src/stmt.rs:114-129). */
  method TakeName(input: string, start: nat, alnum: char -> bool) returns (i: nat, name: string)
    requires start < |input| && input[start] == ':'
    ensures start < i <= |input|
    ensures Scan(input[start..], None, [], alnum)
            == if name == [] then Err(InvalidPlaceholder)
               else Prepend([Placeholder(name, None)], Scan(input[i..], None, [], alnum))
  {
    i := start + 1;
    while i < |input| && IsNameChar(input[i], alnum)
      invariant start < i <= |input|
      invariant NameLength(input[start + 1..], alnum) == i - start - 1 + NameLength(input[i..], alnum)
    {
      assert input[i..][1..] == input[i + 1..];
      i := i + 1;
    }
    name := input[start + 1..i];
    SliceOfSlice(input, start, i);
    assert Flush([]) + [Placeholder(name, None)] == [Placeholder(name, None)];
  }

  lemma SliceOfSlice(s: string, start: nat, end: nat)
    requires start < end <= |s|
    ensures s[start..][1..] == s[start + 1..]
    ensures s[start..][end - start..] == s[end..]
    ensures s[start..][1..end - start] == s[start + 1..end]
  {
  }

  /** The loop over a string literal (crates/cdk-sql-common/src/stmt.rs:84-104). */
  method SkipLiteral(input: string, start: nat, before: string, alnum: char -> bool)
    returns (i: nat, current: string, closed: bool)
    requires start < |input| && IsQuote(input[start])
    ensures start < i <= |input|
    ensures closed ==> Scan(input[start..], None, before, alnum) == Scan(input[i..], None, current, alnum)
    ensures !closed ==> Scan(input[start..], None, before, alnum) == Err(UnterminatedStringLiteral)
  {
    var quote := input[start];
    i, current, closed := start + 1, before + [quote], false;
    assert input[start..][1..] == input[i..];
    while i < |input|
      invariant start < i <= |input|
      invariant Scan(input[start..], None, before, alnum) == Scan(input[i..], Some(quote), current, alnum)
    {
      var next := input[i];
      assert input[i..][1..] == input[i + 1..];
      current := current + [next];
      i := i + 1;
      if next == quote {
        if i < |input| && input[i] == quote {
          assert input[i..][1..] == input[i + 1..];
          current := current + [quote];
          i := i + 1;
        } else {
          closed := true;
          return;
        }
      }
    }
  }

  // ----- Printing -----

  /** The SQL text that a list of parts stands for. */
  function Print(parts: seq<Part>): string {
    if parts == [] then []
    else (match parts[0] case Raw(text) => text case Placeholder(name, _) => ":" + name) + Print(parts[1..])
  }

  lemma {:induction false} PrintConcat(xs: seq<Part>, ys: seq<Part>)
    ensures Print(xs + ys) == Print(xs) + Print(ys)
  {
    if xs == [] {
      assert xs + ys == ys;
    } else {
      assert (xs + ys)[1..] == xs[1..] + ys;
      PrintConcat(xs[1..], ys);
    }
  }

  /** Printing what was parsed gives back the input. */
  lemma {:induction false} PrintAfterScan(s: string, open: Option<char>, current: string, alnum: char -> bool)
    requires Scan(s, open, current, alnum).Ok?
    ensures Print(Scan(s, open, current, alnum).value) == current + s
    decreases |s|
  {
    if s == [] {
      assert Print([]) == [];
    } else if open.None? && s[0] == ':' {
      var n := NameLength(s[1..], alnum);
      PrintAfterScan(s[1 + n..], None, [], alnum);
      PrintColon(s, n, current, Scan(s[1 + n..], None, [], alnum).value);
    } else {
      PrintAfterScan(s[1..], NextOpen(open, s[0]), current + [s[0]], alnum);
      assert current + [s[0]] + s[1..] == current + s;
    }
  }

  lemma PrintColon(s: string, n: nat, current: string, tail: seq<Part>)
    requires n < |s| && s[0] == ':'
    requires Print(tail) == [] + s[1 + n..]
    ensures Print(Flush(current) + [Placeholder(s[1..1 + n], None)] + tail) == current + s
  {
    ColonSlices(s, n);
    PrintFlush(current, s[1..1 + n], tail);
  }

  lemma ColonSlices(s: string, n: nat)
    requires n < |s| && s[0] == ':'
    ensures s == [':'] + s[1..1 + n] + ([] + s[1 + n..])
  {
  }

  lemma PrintFlush(current: string, name: string, tail: seq<Part>)
    ensures Print(Flush(current) + [Placeholder(name, None)] + tail) == current + ([':'] + name + Print(tail))
  {
    var p := Placeholder(name, None);
    PrintConcat(Flush(current) + [p], tail);
    PrintConcat(Flush(current), [p]);
    assert Print([p]) == ":" + name + Print([]);
    assert current != [] ==> Print([Raw(current)]) == current + Print([]);
  }

  // ----- Canonical part lists -----

  /** Which quote is open after a character that is not a bare ':'. */
  function NextOpen(open: Option<char>, c: char): Option<char> {
    if open.Some? then (if c == open.value then None else open)
    else if IsQuote(c) then Some(c)
    else None
  }

  /** Reading `text` from `open` meets no ':' outside a literal and ends with `end` open. */
  predicate Runs(text: string, open: Option<char>, end: Option<char>) {
    if text == [] then open == end
    else (open.Some? || text[0] != ':') && Runs(text[1..], NextOpen(open, text[0]), end)
  }

  predicate PartOk(p: Part, alnum: char -> bool) {
    match p
    case Raw(text) => text != [] && Runs(text, None, None)
    case Placeholder(name, value) =>
      name != [] && value.None? && forall i :: 0 <= i < |name| ==> IsNameChar(name[i], alnum)
  }

  /** Two raw parts are never adjacent, and a name is not continued by the text after it. */
  predicate Adjacent(p: Part, next: Part, alnum: char -> bool) {
    && (p.Raw? ==> next.Placeholder?)
    && (p.Placeholder? && next.Raw? ==> next.text == [] || !IsNameChar(next.text[0], alnum))
  }

  predicate Canonical(parts: seq<Part>, alnum: char -> bool) {
    && (forall i :: 0 <= i < |parts| ==> PartOk(parts[i], alnum))
    && (forall i :: 0 <= i < |parts| - 1 ==> Adjacent(parts[i], parts[i + 1], alnum))
  }

  lemma {:induction false} RunsAppend(text: string, open: Option<char>, mid: Option<char>, c: char)
    requires Runs(text, open, mid)
    requires mid.Some? || c != ':'
    ensures Runs(text + [c], open, NextOpen(mid, c))
  {
    if text == [] {
      assert text + [c] == [c];
      assert [c][1..] == [];
    } else {
      assert (text + [c])[1..] == text[1..] + [c];
      RunsAppend(text[1..], NextOpen(open, text[0]), mid, c);
    }
  }

  /** The parser only produces canonical lists; the first part takes up the pending text. */
  lemma {:induction false} ScanIsCanonical(s: string, open: Option<char>, current: string, alnum: char -> bool)
    requires Runs(current, None, open)
    requires Scan(s, open, current, alnum).Ok?
    ensures Canonical(Scan(s, open, current, alnum).value, alnum)
    decreases |s|
  {
    if s != [] {
      if open.None? && s[0] == ':' {
        var n := NameLength(s[1..], alnum);
        ScanIsCanonical(s[1 + n..], None, [], alnum);
        PrintAfterScan(s[1 + n..], None, [], alnum);
        CanonicalColon(current, s[1..1 + n], Scan(s[1 + n..], None, [], alnum).value, alnum);
      } else {
        RunsAppend(current, None, open, s[0]);
        ScanIsCanonical(s[1..], NextOpen(open, s[0]), current + [s[0]], alnum);
      }
    }
  }

  lemma CanonicalColon(current: string, name: string, tail: seq<Part>, alnum: char -> bool)
    requires Runs(current, None, None)
    requires PartOk(Placeholder(name, None), alnum)
    requires Canonical(tail, alnum)
    requires Print(tail) == [] || !IsNameChar(Print(tail)[0], alnum)
    ensures Canonical(Flush(current) + [Placeholder(name, None)] + tail, alnum)
  {
    var p := Placeholder(name, None);
    PrintStart(tail, alnum);
    CanonicalCons(p, tail, alnum);
    if current == [] {
      assert Flush(current) + [p] + tail == [p] + tail;
    } else {
      CanonicalCons(Raw(current), [p] + tail, alnum);
      assert [Raw(current)] + ([p] + tail) == Flush(current) + [p] + tail;
    }
  }

  lemma CanonicalCons(p: Part, tail: seq<Part>, alnum: char -> bool)
    requires PartOk(p, alnum) && Canonical(tail, alnum)
    requires tail != [] ==> Adjacent(p, tail[0], alnum)
    ensures Canonical([p] + tail, alnum)
  {
    var parts := [p] + tail;
    forall i | 0 <= i < |parts| - 1 ensures Adjacent(parts[i], parts[i + 1], alnum) {
      if i > 0 {
        assert Adjacent(tail[i - 1], tail[i], alnum);
      }
    }
  }

  lemma CanonicalTail(parts: seq<Part>, alnum: char -> bool)
    requires Canonical(parts, alnum) && parts != []
    ensures Canonical(parts[1..], alnum)
    ensures PartOk(parts[0], alnum)
    ensures |parts| > 1 ==> Adjacent(parts[0], parts[1], alnum)
  {
    var tail := parts[1..];
    forall i | 0 <= i < |tail| - 1 ensures Adjacent(tail[i], tail[i + 1], alnum) {
      assert Adjacent(parts[i + 1], parts[i + 2], alnum);
    }
  }

  /** Raw text is passed over into the pending text. */
  lemma {:induction false} ScanRaw(text: string, rest: string, open: Option<char>, end: Option<char>,
                                   current: string, alnum: char -> bool)
    requires Runs(text, open, end)
    ensures Scan(text + rest, open, current, alnum) == Scan(rest, end, current + text, alnum)
  {
    if text == [] {
      assert text + rest == rest && current + text == current;
    } else {
      assert (text + rest)[1..] == text[1..] + rest;
      ScanRaw(text[1..], rest, NextOpen(open, text[0]), end, current + [text[0]], alnum);
      assert current + [text[0]] + text[1..] == current + text;
    }
  }

  /** Pending text is flushed at the end or before a placeholder. */
  lemma ScanFlush(rest: string, current: string, alnum: char -> bool)
    requires rest == [] || rest[0] == ':'
    ensures Scan(rest, None, current, alnum) == Prepend(Flush(current), Scan(rest, None, [], alnum))
  {
    if rest == [] {
      assert Flush(current) + Flush([]) == Flush(current);
    } else {
      var n := NameLength(rest[1..], alnum);
      var p := Placeholder(rest[1..1 + n], None);
      assert Flush([]) + [p] == [p];
      PrependTwice(Flush(current), [p], Scan(rest[1 + n..], None, [], alnum));
    }
  }

  /** A placeholder at the start of the input, up to text that does not continue its name. */
  lemma ScanPlaceholder(name: string, rest: string, alnum: char -> bool)
    requires name != [] && forall i :: 0 <= i < |name| ==> IsNameChar(name[i], alnum)
    requires rest == [] || !IsNameChar(rest[0], alnum)
    ensures Scan([':'] + name + rest, None, [], alnum)
            == Prepend([Placeholder(name, None)], Scan(rest, None, [], alnum))
  {
    var s := [':'] + name + rest;
    assert s[1..] == name + rest;
    NameLengthOf(name, rest, alnum);
    assert s[1..1 + |name|] == name && s[1 + |name|..] == rest;
    assert Flush([]) + [Placeholder(name, None)] == [Placeholder(name, None)];
  }

  lemma {:induction false} NameLengthOf(name: string, rest: string, alnum: char -> bool)
    requires forall i :: 0 <= i < |name| ==> IsNameChar(name[i], alnum)
    requires rest == [] || !IsNameChar(rest[0], alnum)
    ensures NameLength(name + rest, alnum) == |name|
  {
    if name == [] {
      assert name + rest == rest;
    } else {
      assert (name + rest)[1..] == name[1..] + rest;
      NameLengthOf(name[1..], rest, alnum);
    }
  }

  /** Parsing what was printed gives back the parts. */
  lemma {:induction false} ScanAfterPrint(parts: seq<Part>, alnum: char -> bool)
    requires !alnum(':')
    requires Canonical(parts, alnum)
    ensures Scan(Print(parts), None, [], alnum) == Ok(parts)
  {
    if parts != [] {
      CanonicalTail(parts, alnum);
      var rest := Print(parts[1..]);
      ScanAfterPrint(parts[1..], alnum);
      assert parts == [parts[0]] + parts[1..];
      PrintStart(parts[1..], alnum);
      match parts[0] {
        case Raw(text) =>
          ScanRaw(text, rest, None, None, [], alnum);
          assert [] + text == text;
          ScanFlush(rest, text, alnum);
        case Placeholder(name, _) =>
          ScanPlaceholder(name, rest, alnum);
          assert Print(parts) == [':'] + name + rest;
      }
    }
  }

  /** How the print of a canonical list begins. */
  lemma PrintStart(parts: seq<Part>, alnum: char -> bool)
    requires Canonical(parts, alnum)
    ensures parts == [] ==> Print(parts) == []
    ensures parts != [] ==>
              && Print(parts) != []
              && Print(parts)[0] == if parts[0].Raw? then parts[0].text[0] else ':'
  {
    if parts != [] {
      assert PartOk(parts[0], alnum);
    }
  }

  /** Parsing is a bijection from the accepted inputs to the canonical part lists. */
  lemma ParsingIsABijection(s: string, parts: seq<Part>, alnum: char -> bool)
    requires !alnum(':')
    ensures Scan(s, None, [], alnum) == Ok(parts) <==> Canonical(parts, alnum) && Print(parts) == s
  {
    if Scan(s, None, [], alnum) == Ok(parts) {
      PrintAfterScan(s, None, [], alnum);
      ScanIsCanonical(s, None, [], alnum);
      assert [] + s == s;
    }
    if Canonical(parts, alnum) {
      ScanAfterPrint(parts, alnum);
    }
  }
}
