/** Rendering preserves the meaning of a statement: reading the rendered text and substituting
    value i for marker i gives the words of the original text, with each name replaced by its value
    or list as words of their own.  Only the amount of whitespace outside string literals changes. */
module SqlMeaning {
  import opened Wrappers
  import opened SqlParser
  import opened SqlRender

  /** The characters of a text as they stand. */
  function Plain(s: string, open: Option<char>): seq<Token> {
    if s == [] then []
    else if open.Some? || IsQuote(s[0]) then [Ch(s[0], true)] + Plain(s[1..], NextOpen(open, s[0]))
    else if IsSpace(s[0]) then [Gap] + Plain(s[1..], None)
    else [Ch(s[0], false)] + Plain(s[1..], None)
  }

  function ValueList(vs: seq<Value>): seq<Token> {
    if vs == [] then []
    else if |vs| == 1 then [Val(vs[0])]
    else [Val(vs[0]), Ch(',', false), Gap] + ValueList(vs[1..])
  }

  function PartMeaning(p: Part): seq<Token>
    requires p.Placeholder? ==> p.value.Some?
  {
    if p.Raw? then Plain(p.text, None) else ValueList(ValuesOf(p.value.value))
  }

  /** The words of the statement, with its names replaced by what they are bound to. */
  function Meaning(parts: seq<Part>): seq<seq<Token>>
    requires FullyBound(parts)
  {
    if parts == [] then [] else Words(PartMeaning(parts[0])) + Meaning(parts[1..])
  }

  /** A parameter stands for the value with its number. */
  function ResolveToken(t: Token, values: seq<Value>): Token {
    if t.Param? && 1 <= t.n <= |values| then Val(values[t.n - 1]) else t
  }

  function Resolve(tokens: seq<Token>, values: seq<Value>): seq<Token> {
    if tokens == [] then [] else [ResolveToken(tokens[0], values)] + Resolve(tokens[1..], values)
  }

  lemma {:induction false} ResolveConcat(xs: seq<Token>, ys: seq<Token>, values: seq<Value>)
    ensures Resolve(xs + ys, values) == Resolve(xs, values) + Resolve(ys, values)
  {
    if xs == [] {
      assert xs + ys == ys;
    } else {
      assert (xs + ys)[1..] == xs[1..] + ys;
      ResolveConcat(xs[1..], ys, values);
    }
  }

  function ResolveWords(ws: seq<seq<Token>>, values: seq<Value>): seq<seq<Token>> {
    if ws == [] then [] else [Resolve(ws[0], values)] + ResolveWords(ws[1..], values)
  }

  lemma {:induction false} ResolveWordsConcat(us: seq<seq<Token>>, vs: seq<seq<Token>>, values: seq<Value>)
    ensures ResolveWords(us + vs, values) == ResolveWords(us, values) + ResolveWords(vs, values)
  {
    if us == [] {
      assert us + vs == vs;
    } else {
      assert (us + vs)[1..] == us[1..] + vs;
      ResolveWordsConcat(us[1..], vs, values);
    }
  }

  lemma {:induction false} ResolveLength(xs: seq<Token>, values: seq<Value>)
    ensures |Resolve(xs, values)| == |xs| && WordLength(Resolve(xs, values)) == WordLength(xs)
  {
    if xs != [] {
      ResolveLength(xs[1..], values);
      assert Resolve(xs, values)[1..] == Resolve(xs[1..], values);
    }
  }

  /** Resolving neither joins nor splits words. */
  lemma {:induction false} ResolveKeepsWords(xs: seq<Token>, values: seq<Value>)
    ensures Words(Resolve(xs, values)) == ResolveWords(Words(xs), values)
    decreases |xs|
  {
    if xs != [] {
      var n := WordLength(xs);
      ResolveLength(xs, values);
      if xs[0].Gap? {
        ResolveKeepsWords(xs[1..], values);
        assert Resolve(xs, values)[1..] == Resolve(xs[1..], values);
      } else {
        assert xs == xs[..n] + xs[n..];
        ResolveConcat(xs[..n], xs[n..], values);
        ResolveLength(xs[..n], values);
        ResolveKeepsWords(xs[n..], values);
        var ws := Words(xs);
        assert ws[0] == xs[..n] && ws[1..] == Words(xs[n..]);
        assert Resolve(xs, values)[..n] == Resolve(xs[..n], values);
        assert Resolve(xs, values)[n..] == Resolve(xs[n..], values);
      }
    }
  }

  /** No '$' followed by a digit outside the literals of the text. */
  predicate MarkerFree(s: string, open: Option<char>) {
    s == [] || ((open.None? ==> !StartsMarker(s)) && MarkerFree(s[1..], NextOpen(open, s[0])))
  }

  predicate PartsMarkerFree(parts: seq<Part>) {
    forall i :: 0 <= i < |parts| ==> parts[i].Raw? ==> MarkerFree(parts[i].text, None)
  }

  lemma {:induction false} ReadPlain(s: string, open: Option<char>, values: seq<Value>)
    requires MarkerFree(s, open)
    ensures Read(s, open) == Plain(s, open) == Resolve(Plain(s, open), values)
  {
    if s != [] {
      ReadPlain(s[1..], NextOpen(open, s[0]), values);
      var l, rest := Lex(s, open), Plain(s[1..], NextOpen(open, s[0]));
      assert l.length == 1 && l.open == NextOpen(open, s[0]);
      assert Plain(s, open) == l.tokens + rest && (l.tokens + rest)[1..] == rest;
    }
  }

  // ----- Sequences that differ at some position of both -----

  predicate Clash<T(==)>(xs: seq<T>, ys: seq<T>) {
    xs != [] && ys != [] && (xs[0] != ys[0] || Clash(xs[1..], ys[1..]))
  }

  lemma {:induction false} ClashDiffers<T>(xs: seq<T>, ys: seq<T>)
    requires Clash(xs, ys)
    ensures xs != ys
  {
    if xs[0] == ys[0] {
      ClashDiffers(xs[1..], ys[1..]);
    }
  }

  lemma {:induction false} ClashConcat<T>(xs: seq<T>, ys: seq<T>, us: seq<T>, vs: seq<T>)
    requires Clash(xs, ys)
    ensures Clash(xs + us, ys + vs)
  {
    assert (xs + us)[1..] == xs[1..] + us && (ys + vs)[1..] == ys[1..] + vs;
    if xs[0] == ys[0] {
      ClashConcat(xs[1..], ys[1..], us, vs);
    }
  }

  lemma {:induction false} ClashAfter<T>(pre: seq<T>, xs: seq<T>, ys: seq<T>)
    requires Clash(xs, ys)
    ensures Clash(pre + xs, pre + ys)
  {
    if pre == [] {
      assert pre + xs == xs && pre + ys == ys;
    } else {
      assert (pre + xs)[1..] == pre[1..] + xs && (pre + ys)[1..] == pre[1..] + ys;
      ClashAfter(pre[1..], xs, ys);
    }
  }

  /** The first tokens that differ are no gaps. */
  predicate SolidClash(xs: seq<Token>, ys: seq<Token>) {
    && xs != [] && ys != []
    && if xs[0] == ys[0] then SolidClash(xs[1..], ys[1..]) else !xs[0].Gap? && !ys[0].Gap?
  }

  lemma {:induction false} SolidClashDrop(xs: seq<Token>, ys: seq<Token>, n: nat)
    requires SolidClash(xs, ys) && n <= |xs| && n <= |ys| && xs[..n] == ys[..n]
    ensures SolidClash(xs[n..], ys[n..])
  {
    if n > 0 {
      assert xs[0] == xs[..n][0] == ys[..n][0] == ys[0];
      assert xs[1..][..n - 1] == xs[..n][1..] && ys[1..][..n - 1] == ys[..n][1..];
      SolidClashDrop(xs[1..], ys[1..], n - 1);
      assert xs[1..][n - 1..] == xs[n..] && ys[1..][n - 1..] == ys[n..];
    }
  }

  /** Then the words differ too. */
  lemma {:induction false} ClashOfWords(xs: seq<Token>, ys: seq<Token>)
    requires SolidClash(xs, ys)
    ensures Clash(Words(xs), Words(ys))
    decreases |xs|
  {
    if xs[0].Gap? {
      ClashOfWords(xs[1..], ys[1..]);
    } else {
      var m, n := WordLength(xs), WordLength(ys);
      assert Words(xs)[0] == xs[..m] && Words(ys)[0] == ys[..n];
      if xs[..m] == ys[..n] {
        assert m == |xs[..m]| == |ys[..n]| == n;
        SolidClashDrop(xs, ys, m);
        ClashOfWords(xs[m..], ys[m..]);
        assert Words(xs)[1..] == Words(xs[m..]) && Words(ys)[1..] == Words(ys[m..]);
      }
    }
  }

  lemma {:induction false} SolidClashAfter(t: Token, xs: seq<Token>, ys: seq<Token>)
    requires SolidClash(xs, ys)
    ensures SolidClash([t] + xs, [t] + ys)
  {
    assert ([t] + xs)[1..] == xs && ([t] + ys)[1..] == ys;
  }

  /** A bare marker in a raw text is read as a parameter. */
  lemma {:induction false} MarkerClash(s: string, open: Option<char>, values: seq<Value>)
    requires !MarkerFree(s, open)
    ensures SolidClash(Resolve(Read(s, open), values), Plain(s, open))
  {
    var l := Lex(s, open);
    ResolveConcat(l.tokens, Read(s[l.length..], l.open), values);
    if open.Some? || !StartsMarker(s) {
      var next := NextOpen(open, s[0]);
      MarkerClash(s[1..], next, values);
      assert l.tokens == [l.tokens[0]] && Resolve(l.tokens, values) == l.tokens + Resolve([], values) == l.tokens;
      SolidClashAfter(l.tokens[0], Resolve(Read(s[1..], next), values), Plain(s[1..], next));
    }
  }

  // ----- The theorem -----

  lemma {:induction false} ResolveParams(k: nat, count: nat, values: seq<Value>)
    requires k + count <= |values|
    ensures Resolve(Params(k + 1, count), values) == ValueList(values[k..k + count])
    decreases count
  {
    var vs := values[k..k + count];
    if count == 1 {
      assert Params(k + 1, 1)[1..] == [];
    } else if count > 1 {
      ResolveParams(k + 1, count - 1, values);
      assert vs[1..] == values[k + 1..k + count];
      ResolveConcat([Param(k + 1), Ch(',', false), Gap], Params(k + 2, count - 1), values);
      ResolveHead(k + 1, values);
    }
  }

  lemma ResolveHead(n: nat, values: seq<Value>)
    requires 1 <= n <= |values|
    ensures Resolve([Param(n), Ch(',', false), Gap], values) == [Val(values[n - 1]), Ch(',', false), Gap]
  {
    ResolveCons(Gap, [], values);
    ResolveCons(Ch(',', false), [Gap], values);
    ResolveCons(Param(n), [Ch(',', false), Gap], values);
    assert [Gap] + [] == [Gap] && [Ch(',', false)] + [Gap] == [Ch(',', false), Gap];
    assert [Param(n)] + [Ch(',', false), Gap] == [Param(n), Ch(',', false), Gap];
  }

  lemma ResolveCons(t: Token, xs: seq<Token>, values: seq<Value>)
    ensures Resolve([t] + xs, values) == [ResolveToken(t, values)] + Resolve(xs, values)
  {
    assert ([t] + xs)[1..] == xs;
  }

  lemma ResolveBound(b: Bound, k: nat, values: seq<Value>)
    requires k + |ValuesOf(b)| <= |values|
    requires values[k..k + |ValuesOf(b)|] == ValuesOf(b)
    ensures Resolve(BoundParams(b, k), values) == ValueList(ValuesOf(b))
  {
    BoundParamsAre(b, k);
    ResolveParams(k, |ValuesOf(b)|, values);
  }

  lemma BoundParamsAre(b: Bound, k: nat)
    ensures BoundParams(b, k) == Params(k + 1, |ValuesOf(b)|)
  {
    if b.Scalar? {
      assert |ValuesOf(b)| == 1;
    }
  }

  /** The values of `parts` sit in `values` from position `k` on. */
  ghost predicate HoldsValues(parts: seq<Part>, k: nat, values: seq<Value>)
    requires FullyBound(parts)
    decreases |parts|
  {
    if parts == [] then k == |values|
    else if parts[0].Raw? then HoldsValues(parts[1..], k, values)
    else
      var vs := ValuesOf(parts[0].value.value);
      k + |vs| <= |values| && values[k..k + |vs|] == vs && HoldsValues(parts[1..], k + |vs|, values)
  }

  lemma {:induction false} ResolveNumbered(parts: seq<Part>, k: nat, values: seq<Value>)
    requires FullyBound(parts) && HoldsValues(parts, k, values)
    ensures PartsMarkerFree(parts) ==> ResolveWords(Numbered(parts, k), values) == Meaning(parts)
    ensures !PartsMarkerFree(parts) ==> Clash(ResolveWords(Numbered(parts, k), values), Meaning(parts))
    decreases |parts|
  {
    if parts != [] {
      var p, tail := parts[0], parts[1..];
      TailMarkerFree(parts);
      if p.Raw? {
        ResolveNumbered(tail, k, values);
        ResolveRaw(p.text, Numbered(tail, k), Meaning(tail), values, PartsMarkerFree(tail));
      } else {
        var b := p.value.value;
        var k' := k + |ValuesOf(b)|;
        ResolveNumbered(tail, k', values);
        ResolveBound(b, k, values);
        UnfoldNumbered(parts, k, b);
        ResolveKeepsWords(BoundParams(b, k), values);
        ResolveWordsConcat(Words(BoundParams(b, k)), Numbered(tail, k'), values);
        if !PartsMarkerFree(tail) {
          ClashAfter(Words(ValueList(ValuesOf(b))), ResolveWords(Numbered(tail, k'), values), Meaning(tail));
        }
      }
    }
  }

  lemma TailMarkerFree(parts: seq<Part>)
    requires parts != []
    ensures PartsMarkerFree(parts)
            <==> (parts[0].Raw? ==> MarkerFree(parts[0].text, None)) && PartsMarkerFree(parts[1..])
  {
    assert parts == [parts[0]] + parts[1..];
  }

  lemma ResolveRaw(text: string, rest: seq<seq<Token>>, meaning: seq<seq<Token>>, values: seq<Value>, same: bool)
    requires if same then ResolveWords(rest, values) == meaning else Clash(ResolveWords(rest, values), meaning)
    ensures if MarkerFree(text, None) && same
            then ResolveWords(Words(Read(text, None)) + rest, values) == Words(Plain(text, None)) + meaning
            else Clash(ResolveWords(Words(Read(text, None)) + rest, values), Words(Plain(text, None)) + meaning)
  {
    ResolveWordsConcat(Words(Read(text, None)), rest, values);
    ResolveKeepsWords(Read(text, None), values);
    if MarkerFree(text, None) {
      ReadPlain(text, None, values);
      if !same {
        ClashAfter(Words(Plain(text, None)), ResolveWords(rest, values), meaning);
      }
    } else {
      MarkerClash(text, None, values);
      ClashOfWords(Resolve(Read(text, None), values), Plain(text, None));
      ClashConcat(Words(Resolve(Read(text, None), values)), Words(Plain(text, None)),
                  ResolveWords(rest, values), meaning);
    }
  }

  lemma {:induction false} RenderHoldsValues(parts: seq<Part>, pre: seq<Value>)
    requires FullyBound(parts) && Render(parts, |pre|).Ok?
    ensures HoldsValues(parts, |pre|, pre + Render(parts, |pre|).value.values)
    decreases |parts|
  {
    if parts == [] {
      assert pre + [] == pre;
    } else {
      var tail := parts[1..];
      if parts[0].Raw? {
        RenderHoldsValues(tail, pre);
        assert [] + Render(tail, |pre|).value.values == Render(tail, |pre|).value.values;
      } else {
        var vs := ValuesOf(parts[0].value.value);
        RenderHoldsValues(tail, pre + vs);
        Assoc(pre, vs, Render(tail, |pre + vs|).value.values);
      }
    }
  }

  /** The numbers of the parameters, in the order they are read. */
  function Numbers(tokens: seq<Token>): seq<nat> {
    if tokens == [] then []
    else (if tokens[0].Param? then [tokens[0].n] else []) + Numbers(tokens[1..])
  }

  lemma {:induction false} NumbersConcat(xs: seq<Token>, ys: seq<Token>)
    ensures Numbers(xs + ys) == Numbers(xs) + Numbers(ys)
  {
    if xs == [] {
      assert xs + ys == ys;
    } else {
      assert (xs + ys)[1..] == xs[1..] + ys;
      NumbersConcat(xs[1..], ys);
      Assoc(if xs[0].Param? then [xs[0].n] else [], Numbers(xs[1..]), Numbers(ys));
    }
  }

  function WordNumbers(ws: seq<seq<Token>>): seq<nat> {
    if ws == [] then [] else Numbers(ws[0]) + WordNumbers(ws[1..])
  }

  lemma {:induction false} WordNumbersConcat(us: seq<seq<Token>>, vs: seq<seq<Token>>)
    ensures WordNumbers(us + vs) == WordNumbers(us) + WordNumbers(vs)
  {
    if us == [] {
      assert us + vs == vs;
    } else {
      assert (us + vs)[1..] == us[1..] + vs;
      WordNumbersConcat(us[1..], vs);
      Assoc(Numbers(us[0]), WordNumbers(us[1..]), WordNumbers(vs));
    }
  }

  /** No parameter is lost between the words. */
  lemma {:induction false} NumbersOfWords(xs: seq<Token>)
    ensures WordNumbers(Words(xs)) == Numbers(xs)
    decreases |xs|
  {
    if xs != [] {
      if xs[0].Gap? {
        NumbersOfWords(xs[1..]);
      } else {
        var n := WordLength(xs);
        assert xs == xs[..n] + xs[n..];
        NumbersConcat(xs[..n], xs[n..]);
        NumbersOfWords(xs[n..]);
        assert Words(xs)[0] == xs[..n] && Words(xs)[1..] == Words(xs[n..]);
      }
    }
  }

  /** `count` numbers from `first` on. */
  function Range(first: nat, count: nat): (r: seq<nat>)
    ensures |r| == count
  {
    seq(count, i requires 0 <= i < count => first + i)
  }

  lemma RangeConcat(first: nat, m: nat, n: nat)
    ensures Range(first, m) + Range(first + m, n) == Range(first, m + n)
  {
  }

  lemma {:induction false} NumbersOfParams(first: nat, count: nat)
    ensures Numbers(Params(first, count)) == Range(first, count)
    decreases count
  {
    if count == 1 {
      NumbersCons(Param(first), []);
      assert [Param(first)] + [] == [Param(first)] && Range(first, 1) == [first];
    } else if count > 1 {
      var rest := Params(first + 1, count - 1);
      assert [first] + Range(first + 1, count - 1) == Range(first, count);
      NumbersOfParams(first + 1, count - 1);
      NumbersCons(Gap, rest);
      NumbersCons(Ch(',', false), [Gap] + rest);
      NumbersCons(Param(first), [Ch(',', false)] + ([Gap] + rest));
      assert [Param(first), Ch(',', false), Gap] + rest == [Param(first)] + ([Ch(',', false)] + ([Gap] + rest));
    }
  }

  lemma NumbersCons(t: Token, xs: seq<Token>)
    ensures Numbers([t] + xs) == (if t.Param? then [t.n] else []) + Numbers(xs)
  {
    assert ([t] + xs)[1..] == xs;
  }

  lemma {:induction false} NumbersOfPlain(s: string, open: Option<char>)
    ensures Numbers(Plain(s, open)) == []
  {
    if s != [] {
      NumbersOfPlain(s[1..], NextOpen(open, s[0]));
      var rest := Plain(s[1..], NextOpen(open, s[0]));
      assert Plain(s, open)[1..] == rest;
    }
  }

  lemma {:induction false} NumbersInOrder(parts: seq<Part>, k: nat)
    requires FullyBound(parts) && PartsMarkerFree(parts) && Render(parts, k).Ok?
    ensures WordNumbers(Numbered(parts, k)) == Range(k + 1, |Render(parts, k).value.values|)
    decreases |parts|
  {
    if parts != [] {
      var p, tail := parts[0], parts[1..];
      TailMarkerFree(parts);
      if p.Raw? {
        NumbersInOrder(tail, k);
        NumbersOfRaw(p.text);
        WordNumbersConcat(Words(Read(p.text, None)), Numbered(tail, k));
      } else {
        var b := p.value.value;
        var k' := k + |ValuesOf(b)|;
        UnfoldRender(parts, k, b);
        NumbersInOrder(tail, k');
        assert k' + 1 == k + 1 + |ValuesOf(b)|;
        NumbersOfPlaceholder(parts, k, b, |Render(tail, k').value.values|);
        RenderCount(parts, k, b);
      }
    }
  }

  lemma NumbersOfPlaceholder(parts: seq<Part>, k: nat, b: Bound, n: nat)
    requires FullyBound(parts) && parts != [] && parts[0].Placeholder? && parts[0].value == Some(b)
    requires WordNumbers(Numbered(parts[1..], k + |ValuesOf(b)|)) == Range(k + 1 + |ValuesOf(b)|, n)
    ensures WordNumbers(Numbered(parts, k)) == Range(k + 1, |ValuesOf(b)| + n)
  {
    UnfoldNumbered(parts, k, b);
    BoundNumbersGoOn(b, k, Numbered(parts[1..], k + |ValuesOf(b)|), n);
  }

  lemma BoundNumbersGoOn(b: Bound, k: nat, rest: seq<seq<Token>>, n: nat)
    requires WordNumbers(rest) == Range(k + 1 + |ValuesOf(b)|, n)
    ensures WordNumbers(Words(BoundParams(b, k)) + rest) == Range(k + 1, |ValuesOf(b)| + n)
  {
    NumbersOfBound(b, k);
    NumbersGoOn(Words(BoundParams(b, k)), rest, k + 1, |ValuesOf(b)|, n);
  }

  lemma RenderCount(parts: seq<Part>, k: nat, b: Bound)
    requires parts != [] && parts[0].Placeholder? && parts[0].value == Some(b)
    requires Render(parts, k).Ok? && Render(parts[1..], k + |ValuesOf(b)|).Ok?
    ensures |Render(parts, k).value.values| == |ValuesOf(b)| + |Render(parts[1..], k + |ValuesOf(b)|).value.values|
  {
    UnfoldRender(parts, k, b);
  }

  lemma NumbersGoOn(us: seq<seq<Token>>, vs: seq<seq<Token>>, first: nat, m: nat, n: nat)
    requires WordNumbers(us) == Range(first, m) && WordNumbers(vs) == Range(first + m, n)
    ensures WordNumbers(us + vs) == Range(first, m + n)
  {
    WordNumbersConcat(us, vs);
    RangeConcat(first, m, n);
  }

  lemma NumbersOfRaw(text: string)
    requires MarkerFree(text, None)
    ensures WordNumbers(Words(Read(text, None))) == []
  {
    ReadPlain(text, None, []);
    NumbersOfPlain(text, None);
    NumbersOfWords(Read(text, None));
  }

  lemma NumbersOfBound(b: Bound, k: nat)
    ensures WordNumbers(Words(BoundParams(b, k))) == Range(k + 1, |ValuesOf(b)|)
  {
    BoundParamsAre(b, k);
    NumbersOfParams(k + 1, |ValuesOf(b)|);
    NumbersOfWords(BoundParams(b, k));
  }

  /** For a fully bound statement the uncached rendering means what the statement says, word by word,
      if and only if its raw text has no bare marker of its own; then the markers are 1..m in order
      for m values.  So rendering never joins two words of the text, and sets off every value. */
  lemma RenderingPreservesMeaning(parts: seq<Part>)
    requires FullyBound(parts) && Closed(parts)
    ensures UncachedSql(parts).Ok?
    ensures var (sql, values) := UncachedSql(parts).value;
            && (Words(Resolve(Read(sql, None), values)) == Meaning(parts) <==> PartsMarkerFree(parts))
            && MarkersInOrder(parts, sql, |values|)
  {
    var sql, values := RenderedText(parts);
    WordsMeanIff(parts, sql, values);
    InOrder(parts, sql);
  }

  /** The markers of the text are 1..m in order, unless the parts have markers of their own. */
  predicate MarkersInOrder(parts: seq<Part>, sql: string, m: nat) {
    PartsMarkerFree(parts) ==> Numbers(Read(sql, None)) == Range(1, m)
  }

  lemma InOrder(parts: seq<Part>, sql: string)
    requires FullyBound(parts) && Render(parts, 0).Ok? && Words(Read(sql, None)) == Numbered(parts, 0)
    ensures MarkersInOrder(parts, sql, |Render(parts, 0).value.values|)
  {
    if PartsMarkerFree(parts) {
      MarkersFrom(parts, 0, Read(sql, None));
    }
  }

  lemma MarkersFrom(parts: seq<Part>, k: nat, xs: seq<Token>)
    requires FullyBound(parts) && PartsMarkerFree(parts) && Render(parts, k).Ok? && Words(xs) == Numbered(parts, k)
    ensures Numbers(xs) == Range(k + 1, |Render(parts, k).value.values|)
  {
    NumbersInOrder(parts, k);
    NumbersByWords(xs, Numbered(parts, k), Range(k + 1, |Render(parts, k).value.values|));
  }

  lemma NumbersByWords(xs: seq<Token>, ws: seq<seq<Token>>, numbers: seq<nat>)
    requires Words(xs) == ws && WordNumbers(ws) == numbers
    ensures Numbers(xs) == numbers
  {
    NumbersOfWords(xs);
  }

  lemma WordsMeanIff(parts: seq<Part>, sql: string, values: seq<Value>)
    requires FullyBound(parts) && HoldsValues(parts, 0, values) && Words(Read(sql, None)) == Numbered(parts, 0)
    ensures Words(Resolve(Read(sql, None), values)) == Meaning(parts) <==> PartsMarkerFree(parts)
  {
    ResolveNumbered(parts, 0, values);
    ResolveKeepsWords(Read(sql, None), values);
    if !PartsMarkerFree(parts) {
      ClashDiffers(ResolveWords(Numbered(parts, 0), values), Meaning(parts));
    }
  }

  lemma RenderedText(parts: seq<Part>) returns (sql: string, values: seq<Value>)
    requires FullyBound(parts) && Closed(parts)
    ensures Render(parts, 0).Ok? && values == Render(parts, 0).value.values
    ensures UncachedSql(parts) == Ok((sql, values))
    ensures Words(Read(sql, None)) == Numbered(parts, 0)
    ensures HoldsValues(parts, 0, values)
  {
    ReadRendered(parts, 0);
    sql, values := Join(Render(parts, 0).value.segments), Render(parts, 0).value.values;
    RenderHoldsValues(parts, []);
    assert [] + values == values;
  }

  /** The only way to fail: a raw text with its own marker takes a value meant for another. */
  lemma BareMarkerChangesMeaning(v: Value)
    ensures var parts := [Raw("$1, "), Placeholder("a", Some(Scalar(v)))];
            && FullyBound(parts) && Closed(parts)
            && UncachedSql(parts).Ok?
            && Words(Resolve(Read(UncachedSql(parts).value.0, None), UncachedSql(parts).value.1)) != Meaning(parts)
  {
    var text := "$1, ";
    var parts := [Raw(text), Placeholder("a", Some(Scalar(v)))];
    OpenAfterPlain(text);
    assert StartsMarker(text);
    assert !MarkerFree(text, None);
    assert parts[0].Raw? && !PartsMarkerFree(parts);
    RenderingPreservesMeaning(parts);
  }
}
