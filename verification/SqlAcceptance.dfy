/** Which texts the parser accepts, and which error it gives for the others
    (crates/cdk-sql-common/src/stmt.rs:75-143); and which name a rendering misses. */
module SqlAcceptance {
  import opened Wrappers
  import opened SqlParser
  import opened SqlRender
  import opened Statements

  // ----- Literals and names, character by character -----

  /** The quote that is open at the end of the text. */
  function QuoteOpen(s: string): Option<char>
    decreases |s|
  {
    if s == [] then None
    else
      var q, c := QuoteOpen(s[..|s| - 1]), s[|s| - 1];
      if q.Some? then (if c == q.value then None else q)
      else if c == '\'' || c == '"' then Some(c)
      else None
  }

  lemma {:induction false} QuoteOpenIsOpenAfter(s: string)
    ensures OpenAfter(s, None) == QuoteOpen(s)
    decreases |s|
  {
    if s != [] {
      var front, last := s[..|s| - 1], [s[|s| - 1]];
      assert s == front + last;
      QuoteOpenIsOpenAfter(front);
      OpenAfterConcat(front, last, None);
      assert OpenAfter(last, OpenAfter(front, None)) == NextOpen(OpenAfter(front, None), last[0]);
    }
  }

  /** A colon outside literals that no name follows. */
  ghost predicate BareColon(s: string, i: int, alnum: char -> bool) {
    && 0 <= i < |s| && s[i] == ':' && QuoteOpen(s[..i]) == None
    && !(i + 1 < |s| && (alnum(s[i + 1]) || s[i + 1] == '_'))
  }

  // ----- The same while scanning -----

  ghost predicate BadAt(s: string, open: Option<char>, i: int, alnum: char -> bool) {
    && 0 <= i < |s| && s[i] == ':' && OpenAfter(s[..i], open) == None
    && !(i + 1 < |s| && (alnum(s[i + 1]) || s[i + 1] == '_'))
  }

  ghost predicate HasBad(s: string, open: Option<char>, alnum: char -> bool) {
    exists i :: BadAt(s, open, i, alnum)
  }

  lemma BadStep(s: string, open: Option<char>, alnum: char -> bool)
    requires s != []
    ensures HasBad(s, open, alnum) <==> BadAt(s, open, 0, alnum) || HasBad(s[1..], NextOpen(open, s[0]), alnum)
  {
    if i :| BadAt(s, open, i, alnum) {
      if i > 0 {
        BadShift(s, open, i, alnum);
      }
    }
    if i :| BadAt(s[1..], NextOpen(open, s[0]), i, alnum) {
      BadShift(s, open, i + 1, alnum);
    }
  }

  lemma BadShift(s: string, open: Option<char>, i: int, alnum: char -> bool)
    requires 0 < i < |s|
    ensures BadAt(s, open, i, alnum) <==> BadAt(s[1..], NextOpen(open, s[0]), i - 1, alnum)
  {
    assert s[..i][0] == s[0] && s[..i][1..] == s[1..][..i - 1];
  }

  /** Characters that are no quotes, and colons that a name follows, change nothing. */
  lemma {:induction false} BadSkip(s: string, k: nat, alnum: char -> bool)
    requires k <= |s| && forall j :: 0 <= j < k ==> !IsQuote(s[j]) && !BadAt(s, None, j, alnum)
    ensures HasBad(s, None, alnum) <==> HasBad(s[k..], None, alnum)
    ensures OpenAfter(s, None) == OpenAfter(s[k..], None)
  {
    if k > 0 {
      BadStep(s, None, alnum);
      forall j | 0 <= j < k - 1 ensures !IsQuote(s[1..][j]) && !BadAt(s[1..], None, j, alnum) {
        assert s[1..][j] == s[j + 1];
        BadShift(s, None, j + 1, alnum);
      }
      BadSkip(s[1..], k - 1, alnum);
      assert s[1..][k - 1..] == s[k..];
    } else {
      assert s[0..] == s;
    }
  }

  predicate PlainAlnum(alnum: char -> bool) {
    !alnum('\'') && !alnum('"') && !alnum(':')
  }

  /** A colon and its name are passed over. */
  lemma BadName(s: string, n: nat, alnum: char -> bool)
    requires PlainAlnum(alnum) && 0 < n < |s| && s[0] == ':' && n == NameLength(s[1..], alnum)
    ensures HasBad(s, None, alnum) <==> HasBad(s[1 + n..], None, alnum)
    ensures OpenAfter(s, None) == OpenAfter(s[1 + n..], None)
  {
    forall j | 0 <= j < 1 + n ensures !IsQuote(s[j]) && !BadAt(s, None, j, alnum) {
      if j == 0 {
        assert s[1] == s[1..][0];
      } else {
        assert s[j] == s[1..][j - 1];
      }
    }
    BadSkip(s, 1 + n, alnum);
  }

  lemma {:induction false} ScanErrors(s: string, open: Option<char>, current: string, alnum: char -> bool)
    requires PlainAlnum(alnum)
    ensures Scan(s, open, current, alnum) == Err(InvalidPlaceholder) <==> HasBad(s, open, alnum)
    ensures Scan(s, open, current, alnum).Ok? <==> !HasBad(s, open, alnum) && OpenAfter(s, open) == None
    decreases |s|
  {
    if s != [] {
      BadStep(s, open, alnum);
      if open.None? && s[0] == ':' {
        var n := NameLength(s[1..], alnum);
        if n > 0 {
          BadName(s, n, alnum);
          ScanErrors(s[1 + n..], None, [], alnum);
        } else {
          assert |s| > 1 ==> s[1] == s[1..][0];
          assert s[..0] == [];
          assert BadAt(s, open, 0, alnum);
        }
      } else {
        assert s[..0] == [];
        ScanErrors(s[1..], NextOpen(open, s[0]), current + [s[0]], alnum);
      }
    }
  }

  /** A text is accepted if and only if every literal in it is closed and a name follows every colon
      outside literals; otherwise a colon without a name is reported before an open literal. */
  lemma ParserAccepts(s: string, alnum: char -> bool)
    requires PlainAlnum(alnum)
    ensures match Scan(s, None, [], alnum)
            case Ok(_) => (forall i :: !BareColon(s, i, alnum)) && QuoteOpen(s) == None
            case Err(InvalidPlaceholder) => exists i :: BareColon(s, i, alnum)
            case Err(UnterminatedStringLiteral) => (forall i :: !BareColon(s, i, alnum)) && QuoteOpen(s).Some?
  {
    ScanErrors(s, None, [], alnum);
    QuoteOpenIsOpenAfter(s);
    forall i ensures BareColon(s, i, alnum) <==> BadAt(s, None, i, alnum) {
      if 0 <= i < |s| {
        QuoteOpenIsOpenAfter(s[..i]);
      }
    }
  }

  /** An underscore belongs to a name, and a name ends where neither a letter, a digit nor an underscore
      follows: every name of an accepted text is a longest one. */
  lemma NamesAreLongest(s: string, alnum: char -> bool)
    requires s != [] && s[0] == ':'
    ensures var n := NameLength(s[1..], alnum);
            && (forall i :: 1 <= i <= n ==> alnum(s[i]) || s[i] == '_')
            && (n + 1 < |s| ==> !alnum(s[n + 1]) && s[n + 1] != '_')
            && (n > 0 ==> Scan(s, None, [], alnum)
                          == Prepend([Placeholder(s[1..n + 1], None)], Scan(s[n + 1..], None, [], alnum)))
  {
    var n := NameLength(s[1..], alnum);
    forall i | 1 <= i <= n ensures alnum(s[i]) || s[i] == '_' {
      assert s[i] == s[1..][i - 1];
    }
    if n + 1 < |s| {
      assert s[n + 1] == s[1..][n];
    }
    if n > 0 {
      ScanOneName(s, n, alnum);
    }
  }

  lemma ScanOneName(s: string, n: nat, alnum: char -> bool)
    requires s != [] && s[0] == ':' && 0 < n < |s| && n == NameLength(s[1..], alnum)
    ensures Scan(s, None, [], alnum) == Prepend([Placeholder(s[1..n + 1], None)], Scan(s[n + 1..], None, [], alnum))
  {
    var p := Placeholder(s[1..n + 1], None);
    assert Flush([]) + [p] == [p];
  }

  // ----- The missing name -----

  /** The first placeholder without a value has this name. */
  ghost predicate FirstMissing(parts: seq<Part>, name: string) {
    exists i :: 0 <= i < |parts| && parts[i] == Placeholder(name, None) && FullyBound(parts[..i])
  }

  lemma MissingLater(parts: seq<Part>, name: string)
    requires parts != [] && (parts[0].Placeholder? ==> parts[0].value.Some?) && FirstMissing(parts[1..], name)
    ensures FirstMissing(parts, name)
  {
    var tail := parts[1..];
    var i :| 0 <= i < |tail| && tail[i] == Placeholder(name, None) && FullyBound(tail[..i]);
    assert parts[i + 1] == tail[i] && parts[..i + 1] == [parts[0]] + tail[..i];
  }

  lemma BoundCons(parts: seq<Part>)
    requires parts != []
    ensures FullyBound(parts) <==> (parts[0].Placeholder? ==> parts[0].value.Some?) && FullyBound(parts[1..])
  {
    assert parts == [parts[0]] + parts[1..];
  }

  /** A statement renders if and only if every placeholder has a value; otherwise the name of the first
      one without a value is reported. */
  lemma {:induction false} MissingNameIsFirst(parts: seq<Part>, k: nat)
    ensures Render(parts, k).Ok? <==> FullyBound(parts)
    ensures Render(parts, k).Err? ==> FirstMissing(parts, Render(parts, k).error)
    decreases |parts|
  {
    if parts != [] {
      var p := parts[0];
      BoundCons(parts);
      if p.Placeholder? && p.value.None? {
        assert parts[0] == Placeholder(p.name, None) && parts[..0] == [];
      } else {
        var k' := if p.Raw? then k else k + |ValuesOf(p.value.value)|;
        MissingNameIsFirst(parts[1..], k');
        if Render(parts[1..], k').Err? {
          MissingLater(parts, Render(parts[1..], k').error);
        }
      }
    }
  }

  /** The same of `to_sql`, with or without a cached text. */
  lemma ToSqlReportsFirstMissing(cachedSql: Option<string>, parts: seq<Part>, name: string)
    ensures ToSqlOutput(cachedSql, parts) == Err(name) <==> CollectValues(parts) == Err(name)
    ensures ToSqlOutput(cachedSql, parts).Ok? <==> FullyBound(parts)
    ensures ToSqlOutput(cachedSql, parts) == Err(name) ==> FirstMissing(parts, name)
  {
    CollectsLikeRender(parts, 0);
    MissingNameIsFirst(parts, 0);
  }

  lemma {:induction false} CollectsLikeRender(parts: seq<Part>, k: nat)
    ensures CollectValues(parts).Ok? <==> Render(parts, k).Ok?
    ensures CollectValues(parts).Err? ==> Render(parts, k) == Err(CollectValues(parts).error)
    decreases |parts|
  {
    if parts != [] && (parts[0].Placeholder? ==> parts[0].value.Some?) {
      CollectsLikeRender(parts[1..], if parts[0].Raw? then k else k + |ValuesOf(parts[0].value.value)|);
    }
  }

  // ----- White space -----

  /** The Unicode White_Space code points. */
  const WHITE_SPACE: set<int> := {
    0x9, 0xA, 0xB, 0xC, 0xD, 0x20, 0x85, 0xA0, 0x1680, 0x2000, 0x2001, 0x2002, 0x2003, 0x2004, 0x2005, 0x2006, 0x2007,
    0x2008, 0x2009, 0x200A, 0x2028, 0x2029, 0x202F, 0x205F, 0x3000
  }

  lemma SpaceIsWhiteSpace(c: char)
    ensures IsSpace(c) <==> c as int in WHITE_SPACE
  {
  }

  /** Trimming takes white space off both ends, and nothing else. */
  lemma TrimTakesWhiteSpace(s: string) returns (a: string, b: string)
    ensures s == a + Trim(s) + b
    ensures forall i :: 0 <= i < |a| ==> a[i] as int in WHITE_SPACE
    ensures forall i :: 0 <= i < |b| ==> b[i] as int in WHITE_SPACE
    ensures var t := Trim(s); t != [] ==> t[0] as int !in WHITE_SPACE && t[|t| - 1] as int !in WHITE_SPACE
  {
    a, b := TrimTakes(s);
    forall c: char ensures IsSpace(c) <==> c as int in WHITE_SPACE {
      SpaceIsWhiteSpace(c);
    }
  }

  lemma TrimTakes(s: string) returns (a: string, b: string)
    ensures s == a + Trim(s) + b
    ensures forall i :: 0 <= i < |a| ==> IsSpace(a[i])
    ensures forall i :: 0 <= i < |b| ==> IsSpace(b[i])
    ensures var t := Trim(s); t != [] ==> !IsSpace(t[0]) && !IsSpace(t[|t| - 1])
  {
    a := TrimStartTakes(s);
    b := TrimEndTakes(TrimStart(s));
    assert a + (Trim(s) + b) == a + Trim(s) + b;
  }

  lemma {:induction false} TrimStartTakes(s: string) returns (a: string)
    ensures s == a + TrimStart(s)
    ensures forall i :: 0 <= i < |a| ==> IsSpace(a[i])
    ensures TrimStart(s) != [] ==> !IsSpace(TrimStart(s)[0])
  {
    a := [];
    if s != [] && IsSpace(s[0]) {
      var rest := TrimStartTakes(s[1..]);
      a := [s[0]] + rest;
    }
  }

  lemma {:induction false} TrimEndTakes(s: string) returns (b: string)
    ensures s == TrimEnd(s) + b
    ensures forall i :: 0 <= i < |b| ==> IsSpace(b[i])
    ensures TrimEnd(s) != [] ==> !IsSpace(TrimEnd(s)[|TrimEnd(s)| - 1]) && TrimEnd(s)[0] == s[0]
  {
    b := [];
    if s != [] && IsSpace(s[|s| - 1]) {
      var rest := TrimEndTakes(s[..|s| - 1]);
      b := rest + [s[|s| - 1]];
    }
  }
}
