/** The shared statement cache is transparent: statements of any number of callers, interleaved
    in any order, render as they would with an empty cache
    (crates/cdk-sql-common/src/stmt.rs:161-261). */
module StatementCache {
  import opened Wrappers
  import opened SqlParser
  import opened SqlRender
  import opened Statements
  import opened SqlMeaning

  // ----- When a cached text may stand for a fresh rendering -----

  /** The segments of a statement in which every placeholder takes one marker. */
  function Shape(parts: seq<Part>, k: nat): (segments: seq<string>)
    ensures |segments| == |parts|
  {
    if parts == [] then []
    else if parts[0].Raw? then [Trim(parts[0].text)] + Shape(parts[1..], k)
    else [Marker(k + 1)] + Shape(parts[1..], k + 1)
  }

  predicate SingleValue(p: Part) {
    p.Placeholder? && p.value.Some? ==> |ValuesOf(p.value.value)| == 1
  }

  predicate SingleValued(parts: seq<Part>) {
    forall i :: 0 <= i < |parts| ==> SingleValue(parts[i])
  }

  /** What follows the first segment of a joined text. */
  function JoinTail(segments: seq<string>): string {
    if segments == [] then [] else [' '] + Join(segments)
  }

  lemma JoinCons(segment: string, segments: seq<string>)
    ensures Join([segment] + segments) == segment + JoinTail(segments)
  {
    assert ([segment] + segments)[1..] == segments;
    if segments == [] {
      assert segment + [] == segment;
    } else {
      Assoc(segment, [' '], Join(segments));
    }
  }

  lemma Cancel(a: string, x: string, y: string)
    ensures a + x == a + y <==> x == y
  {
    assert (a + x)[|a|..] == x && (a + y)[|a|..] == y;
  }

  lemma SameHeadJoin(a: string, xs: seq<string>, ys: seq<string>)
    requires |xs| == |ys|
    ensures Join([a] + xs) == Join([a] + ys) <==> Join(xs) == Join(ys)
  {
    JoinCons(a, xs);
    JoinCons(a, ys);
    Cancel(a, JoinTail(xs), JoinTail(ys));
    Cancel([' '], Join(xs), Join(ys));
  }

  /** No marker or several markers never look like one marker. */
  lemma OtherHeadJoin(n: nat, count: nat, xs: seq<string>, ys: seq<string>)
    requires count != 1
    ensures Join([Markers(n, count)] + xs) != Join([Marker(n)] + ys)
  {
    JoinCons(Markers(n, count), xs);
    JoinCons(Marker(n), ys);
    var x, y := Markers(n, count) + JoinTail(xs), Marker(n) + JoinTail(ys);
    if count == 0 {
      assert y[0] == '$';
      assert x == JoinTail(xs);
    } else {
      var l := |Marker(n)|;
      assert x[l] == ',';
      assert |y| > l ==> y[l] == ' ';
    }
  }

  lemma {:induction false} RenderLength(parts: seq<Part>, k: nat)
    requires Render(parts, k).Ok?
    ensures |Render(parts, k).value.segments| == |parts|
  {
    if parts != [] {
      if parts[0].Raw? {
        RenderLength(parts[1..], k);
      } else {
        RenderLength(parts[1..], k + |ValuesOf(parts[0].value.value)|);
      }
    }
  }

  lemma SingleValuedCons(parts: seq<Part>)
    requires parts != []
    ensures SingleValued(parts) <==> SingleValue(parts[0]) && SingleValued(parts[1..])
  {
    assert parts == [parts[0]] + parts[1..];
  }

  /** The rendered text is the shape of the statement exactly when every placeholder has one value. */
  lemma {:induction false} ShapeAgreesIff(parts: seq<Part>, k: nat)
    requires Render(parts, k).Ok?
    ensures Join(Render(parts, k).value.segments) == Join(Shape(parts, k)) <==> SingleValued(parts)
  {
    if parts != [] {
      var p, tail := parts[0], parts[1..];
      SingleValuedCons(parts);
      if p.Raw? {
        var rest := Render(tail, k).value.segments;
        RenderLength(tail, k);
        ShapeAgreesIff(tail, k);
        SameHeadJoin(Trim(p.text), rest, Shape(tail, k));
      } else {
        var b := p.value.value;
        var n := |ValuesOf(b)|;
        UnfoldRender(parts, k, b);
        var rest := Render(tail, k + n).value.segments;
        RenderLength(tail, k + n);
        if n == 1 {
          ShapeAgreesIff(tail, k + 1);
        }
        BoundHeadJoin(b, k, rest, Shape(tail, k + 1));
      }
    }
  }

  lemma BoundHeadJoin(b: Bound, k: nat, rest: seq<string>, shape: seq<string>)
    requires |rest| == |shape|
    ensures Join([Segment(b, k)] + rest) == Join([Marker(k + 1)] + shape)
            <==> |ValuesOf(b)| == 1 && Join(rest) == Join(shape)
  {
    if |ValuesOf(b)| == 1 {
      SameHeadJoin(Marker(k + 1), rest, shape);
    } else {
      OtherHeadJoin(k + 1, |ValuesOf(b)|, rest, shape);
    }
  }

  /** Collecting the values finds the same values and the same missing name as rendering. */
  lemma {:induction false} CollectMatchesRender(parts: seq<Part>, k: nat)
    ensures match Render(parts, k)
            case Ok(r) => CollectValues(parts) == Ok(r.values)
            case Err(name) => CollectValues(parts) == Err(name)
  {
    if parts != [] {
      if parts[0].Raw? {
        CollectMatchesRender(parts[1..], k);
        assert Render(parts, k).Ok? ==> Render(parts, k).value.values == Render(parts[1..], k).value.values;
      } else if parts[0].value.Some? {
        CollectMatchesRender(parts[1..], k + |ValuesOf(parts[0].value.value)|);
      }
    }
  }

  /** A cached text gives the result of a fresh rendering exactly when a value is missing
      or no placeholder is bound to a list of other than one value. */
  lemma CachedAgreesIff(parts: seq<Part>)
    ensures ToSqlOutput(Some(Join(Shape(parts, 0))), parts) == UncachedSql(parts)
            <==> UncachedSql(parts).Err? || SingleValued(parts)
  {
    CollectMatchesRender(parts, 0);
    if Render(parts, 0).Ok? {
      ShapeAgreesIff(parts, 0);
    }
  }

  // ----- The system of callers -----

  datatype Binding = Binding(name: string, value: Bound)

  /** A statement in the hands of a caller, with the text and the bindings that made it. */
  datatype Handle =
    | Missed(text: string)
    | Live(text: string, binds: seq<Binding>, parts: seq<Part>, cachedSql: Option<string>, sql: Option<string>)
    | Rejected(text: string, error: ParseError)
    | Done(text: string, binds: seq<Binding>, output: Output)

  datatype System = System(cache: map<string, Entry>, handles: map<nat, Handle>)

  /** The atomic steps on the cache: the read of `new`, its write after a miss, a binding,
      and `to_sql`. */
  datatype Event =
    | Lookup(h: nat, text: string)
    | Parse(h: nat)
    | Bind(h: nat, binding: Binding)
    | ToSql(h: nat)

  predicate Enabled(s: System, e: Event) {
    match e
    case Lookup(h, _) => h !in s.handles
    case Parse(h) => h in s.handles && s.handles[h].Missed?
    case Bind(h, _) => h in s.handles && s.handles[h].Live?
    case ToSql(h) => h in s.handles && s.handles[h].Live?
  }

  function Step(s: System, e: Event, alnum: char -> bool): System
    requires Enabled(s, e)
  {
    match e
    case Lookup(h, text) =>
      if text in s.cache then
        s.(handles := s.handles[h := Live(text, [], s.cache[text].parts, s.cache[text].rendered, None)])
      else s.(handles := s.handles[h := Missed(text)])
    case Parse(h) =>
      var text := s.handles[h].text;
      (match Scan(text, None, [], alnum)
       case Err(error) => s.(handles := s.handles[h := Rejected(text, error)])
       case Ok(parts) =>
         System(s.cache[text := Entry(parts, None)], s.handles[h := Live(text, [], parts, None, Some(text))]))
    case Bind(h, b) =>
      var l := s.handles[h];
      s.(handles := s.handles[h := l.(parts := BindParts(l.parts, b.name, b.value), binds := l.binds + [b])])
    case ToSql(h) =>
      var l := s.handles[h];
      System(CacheAfterToSql(s.cache, l.cachedSql, l.sql, l.parts),
             s.handles[h := Done(l.text, l.binds, ToSqlOutput(l.cachedSql, l.parts))])
  }

  const START: System := System(map[], map[])

  function ApplyBinds(parts: seq<Part>, binds: seq<Binding>): (r: seq<Part>)
    ensures |r| == |parts|
    decreases |binds|
  {
    if binds == [] then parts
    else
      var b := binds[|binds| - 1];
      BindParts(ApplyBinds(parts, binds[..|binds| - 1]), b.name, b.value)
  }

  /** The last value that was bound to a name. */
  function LastBinding(binds: seq<Binding>, name: string): Option<Bound>
    decreases |binds|
  {
    if binds == [] then None
    else if binds[|binds| - 1].name == name then Some(binds[|binds| - 1].value)
    else LastBinding(binds[..|binds| - 1], name)
  }

  lemma {:induction false} LastBindingIsLast(binds: seq<Binding>, name: string)
    ensures match LastBinding(binds, name)
            case Some(b) =>
              exists k :: 0 <= k < |binds| && binds[k] == Binding(name, b)
                && forall j :: k < j < |binds| ==> binds[j].name != name
            case None => forall j :: 0 <= j < |binds| ==> binds[j].name != name
    decreases |binds|
  {
    if binds != [] {
      var last, front := binds[|binds| - 1], binds[..|binds| - 1];
      if last.name == name {
        assert last == Binding(name, last.value);
      } else {
        LastBindingIsLast(front, name);
        if b: Bound :| LastBinding(front, name) == Some(b) {
          var k :| 0 <= k < |front| && front[k] == Binding(name, b)
                   && forall j :: k < j < |front| ==> front[j].name != name;
          assert binds[k] == Binding(name, b);
          forall j | k < j < |binds| ensures binds[j].name != name {
            assert j < |front| ==> binds[j] == front[j];
          }
        } else {
          forall j | 0 <= j < |binds| ensures binds[j].name != name {
            assert j < |front| ==> binds[j] == front[j];
          }
        }
      }
    }
  }

  /** The statement with every name given the last value that was bound to it. */
  function Filled(parts: seq<Part>, binds: seq<Binding>): (r: seq<Part>)
    ensures |r| == |parts|
  {
    seq(|parts|, i requires 0 <= i < |parts| =>
      if parts[i].Raw? || LastBinding(binds, parts[i].name).None? then parts[i]
      else Placeholder(parts[i].name, LastBinding(binds, parts[i].name)))
  }

  /** Binding one after the other gives every placeholder the last value bound to its own name, or
      leaves it as it was if there is none. */
  lemma {:induction false} BindsFill(parts: seq<Part>, binds: seq<Binding>)
    ensures ApplyBinds(parts, binds) == Filled(parts, binds)
    decreases |binds|
  {
    if binds != [] {
      BindsFill(parts, binds[..|binds| - 1]);
    }
  }

  /** What the statement gives with an empty cache. */
  function FreshOutput(text: string, binds: seq<Binding>, alnum: char -> bool): Output
    requires Scan(text, None, [], alnum).Ok?
  {
    UncachedSql(Filled(Scan(text, None, [], alnum).value, binds))
  }

  // ----- The usage rule -----

  /** Rendered in keeping with `lists`: a name of the text holds a list if and only if it is in `lists`. */
  predicate KeepsRule(parts: seq<Part>, lists: set<string>) {
    forall i :: 0 <= i < |parts| && parts[i].Placeholder? && parts[i].value.Some? ==>
      (parts[i].value.value.Many? <==> parts[i].name in lists)
  }

  /** Each text always uses the same list names. */
  predicate StepKeepsRule(s: System, e: Event, lists: string -> set<string>) {
    e.ToSql? && Enabled(s, e) ==> KeepsRule(s.handles[e.h].parts, lists(s.handles[e.h].text))
  }

  ghost predicate Reachable(s: System, events: seq<Event>, alnum: char -> bool, lists: string -> set<string>)
    decreases |events|
  {
    if events == [] then s == START
    else
      var e := events[|events| - 1];
      exists s0 :: Reachable(s0, events[..|events| - 1], alnum, lists)
        && Enabled(s0, e) && StepKeepsRule(s0, e, lists) && s == Step(s0, e, alnum)
  }

  // ----- The invariant -----

  /** A rendering kept for a text is its shape, and none of its names holds a list. */
  predicate GoodRendering(rendered: Option<string>, parts: seq<Part>, lists: set<string>) {
    rendered.Some? ==>
      && rendered.value == Join(Shape(parts, 0))
      && forall i :: 0 <= i < |parts| && parts[i].Placeholder? ==> parts[i].name !in lists
  }

  predicate GoodEntry(text: string, e: Entry, alnum: char -> bool, lists: set<string>) {
    Scan(text, None, [], alnum) == Ok(e.parts) && GoodRendering(e.rendered, e.parts, lists)
  }

  predicate GoodHandle(h: Handle, alnum: char -> bool, lists: string -> set<string>) {
    match h
    case Missed(_) => true
    case Rejected(text, error) => Scan(text, None, [], alnum) == Err(error)
    case Live(text, binds, parts, cachedSql, sql) =>
      && Scan(text, None, [], alnum).Ok?
      && parts == ApplyBinds(Scan(text, None, [], alnum).value, binds)
      && GoodRendering(cachedSql, parts, lists(text))
      && (sql.Some? ==> sql.value == text)
    case Done(text, binds, output) =>
      Scan(text, None, [], alnum).Ok? && output == FreshOutput(text, binds, alnum)
  }

  ghost predicate Inv(s: System, alnum: char -> bool, lists: string -> set<string>) {
    && (forall text :: text in s.cache ==> GoodEntry(text, s.cache[text], alnum, lists(text)))
    && (forall h :: h in s.handles ==> GoodHandle(s.handles[h], alnum, lists))
  }

  /** Binding changes neither the shape of a statement nor its names. */
  lemma {:induction false} BindKeepsShape(parts: seq<Part>, name: string, b: Bound, k: nat)
    ensures Shape(BindParts(parts, name, b), k) == Shape(parts, k)
  {
    if parts != [] {
      assert BindParts(parts, name, b)[1..] == BindParts(parts[1..], name, b);
      BindKeepsShape(parts[1..], name, b, if parts[0].Raw? then k else k + 1);
    }
  }

  lemma BindKeepsGoodRendering(rendered: Option<string>, parts: seq<Part>, name: string, b: Bound, lists: set<string>)
    requires GoodRendering(rendered, parts, lists)
    ensures GoodRendering(rendered, BindParts(parts, name, b), lists)
  {
    BindKeepsShape(parts, name, b, 0);
  }

  lemma {:induction false} BindsKeepNames(parts: seq<Part>, binds: seq<Binding>)
    ensures Shape(ApplyBinds(parts, binds), 0) == Shape(parts, 0)
    ensures forall i :: 0 <= i < |parts| ==>
              var p := ApplyBinds(parts, binds)[i];
              if parts[i].Raw? then p == parts[i] else p.Placeholder? && p.name == parts[i].name
    decreases |binds|
  {
    if binds != [] {
      var front, b := binds[..|binds| - 1], binds[|binds| - 1];
      BindsKeepNames(parts, front);
      BindKeepsShape(ApplyBinds(parts, front), b.name, b.value, 0);
    }
  }

  /** In keeping with the rule, a statement with a cached text has one value for each name. */
  lemma CachedIsFresh(cachedSql: Option<string>, parts: seq<Part>, lists: set<string>)
    requires GoodRendering(cachedSql, parts, lists) && KeepsRule(parts, lists)
    ensures ToSqlOutput(cachedSql, parts) == UncachedSql(parts)
  {
    if cachedSql.Some? {
      assert SingleValued(parts);
      CachedAgreesIff(parts);
    }
  }

  /** A rendering without lists is the shape of the text, and the text has no list names. */
  lemma NewRenderingIsGood(parts: seq<Part>, lists: set<string>)
    requires KeepsRule(parts, lists) && UncachedSql(parts).Ok? && !HasMany(parts)
    ensures GoodRendering(Some(UncachedSql(parts).value.0), parts, lists)
  {
    RenderOkIsBound(parts, 0);
    forall i | 0 <= i < |parts| && parts[i].Placeholder? ensures SingleValue(parts[i]) && parts[i].name !in lists {
      assert parts[i].value.Some? && !parts[i].value.value.Many?;
    }
    ShapeAgreesIff(parts, 0);
  }

  lemma {:induction false} RenderOkIsBound(parts: seq<Part>, k: nat)
    requires Render(parts, k).Ok?
    ensures FullyBound(parts)
  {
    if parts != [] {
      RenderOkIsBound(parts[1..], if parts[0].Raw? then k else k + |ValuesOf(parts[0].value.value)|);
      assert parts == [parts[0]] + parts[1..];
    }
  }

  lemma StepKeepsInv(s: System, e: Event, alnum: char -> bool, lists: string -> set<string>)
    requires Inv(s, alnum, lists) && Enabled(s, e) && StepKeepsRule(s, e, lists)
    ensures Inv(Step(s, e, alnum), alnum, lists)
  {
    match e
    case Lookup(h, text) =>
    case Parse(h) =>
    case Bind(h, b) =>
      var l := s.handles[h];
      assert (l.binds + [b])[..|l.binds|] == l.binds;
      BindKeepsGoodRendering(l.cachedSql, l.parts, b.name, b.value, lists(l.text));
    case ToSql(h) =>
      ToSqlKeepsInv(s, h, alnum, lists);
  }

  lemma ToSqlKeepsInv(s: System, h: nat, alnum: char -> bool, lists: string -> set<string>)
    requires Inv(s, alnum, lists) && Enabled(s, ToSql(h)) && StepKeepsRule(s, ToSql(h), lists)
    ensures Inv(Step(s, ToSql(h), alnum), alnum, lists)
  {
    var l := s.handles[h];
    CachedIsFresh(l.cachedSql, l.parts, lists(l.text));
    BindsFill(Scan(l.text, None, [], alnum).value, l.binds);
    var cache := CacheAfterToSql(s.cache, l.cachedSql, l.sql, l.parts);
    if cache != s.cache {
      var parsed := Scan(l.text, None, [], alnum).value;
      NewRenderingIsGood(l.parts, lists(l.text));
      UnbindKeepsGoodRendering(cache[l.text].rendered, parsed, l.binds, lists(l.text));
    }
  }

  lemma UnbindKeepsGoodRendering(rendered: Option<string>, parsed: seq<Part>, binds: seq<Binding>, lists: set<string>)
    requires GoodRendering(rendered, ApplyBinds(parsed, binds), lists)
    ensures GoodRendering(rendered, parsed, lists)
  {
    BindsKeepNames(parsed, binds);
    forall i | rendered.Some? && 0 <= i < |parsed| && parsed[i].Placeholder? ensures parsed[i].name !in lists {
      assert ApplyBinds(parsed, binds)[i].name == parsed[i].name;
    }
  }

  lemma {:induction false} ReachableIsGood(s: System, events: seq<Event>, alnum: char -> bool,
                                           lists: string -> set<string>)
    requires Reachable(s, events, alnum, lists)
    ensures Inv(s, alnum, lists)
    decreases |events|
  {
    if events != [] {
      var e := events[|events| - 1];
      var s0 :| Reachable(s0, events[..|events| - 1], alnum, lists)
        && Enabled(s0, e) && StepKeepsRule(s0, e, lists) && s == Step(s0, e, alnum);
      ReachableIsGood(s0, events[..|events| - 1], alnum, lists);
      StepKeepsInv(s0, e, alnum, lists);
    }
  }

  /** In every interleaving that keeps the usage rule, every `to_sql` gives the SQL, the values or
      the missing name that it gives with an empty cache, and every rejection is the parser's. */
  lemma CacheIsTransparent(s: System, events: seq<Event>, alnum: char -> bool, lists: string -> set<string>, h: nat)
    requires Reachable(s, events, alnum, lists)
    requires h in s.handles
    ensures s.handles[h].Done? ==>
              && Scan(s.handles[h].text, None, [], alnum).Ok?
              && s.handles[h].output == FreshOutput(s.handles[h].text, s.handles[h].binds, alnum)
    ensures s.handles[h].Rejected? ==> Scan(s.handles[h].text, None, [], alnum) == Err(s.handles[h].error)
  {
    ReachableIsGood(s, events, alnum, lists);
  }

  /** Binding leaves the raw text alone, and parsing closes every literal of it. */
  lemma BoundStatement(text: string, binds: seq<Binding>, alnum: char -> bool)
    requires Scan(text, None, [], alnum).Ok?
    ensures var parsed := Scan(text, None, [], alnum).value;
            var bound := Filled(parsed, binds);
            Closed(bound) && (PartsMarkerFree(bound) <==> PartsMarkerFree(parsed))
  {
    var parsed := Scan(text, None, [], alnum).value;
    var bound := Filled(parsed, binds);
    ScanIsCanonical(text, None, [], alnum);
    forall i | 0 <= i < |bound| && bound[i].Raw? ensures OpenAfter(bound[i].text, None) == None {
      assert PartOk(parsed[i], alnum);
      RunsIsOpenAfter(parsed[i].text, None, None);
    }
    forall i | 0 <= i < |parsed| && parsed[i].Raw? ensures bound[i] == parsed[i] {
    }
  }

  /** End to end: whatever other callers do, a statement that renders gives SQL and values that a
      database reads as the caller's text, with each name replaced by the last value the caller bound to
      it, if and only if that text has no marker of its own. */
  lemma EveryOutputMeansItsStatement(s: System, events: seq<Event>, alnum: char -> bool,
                                     lists: string -> set<string>, h: nat)
    requires Reachable(s, events, alnum, lists)
    requires h in s.handles && s.handles[h].Done? && s.handles[h].output.Ok?
    ensures Scan(s.handles[h].text, None, [], alnum).Ok?
    ensures var parsed := Scan(s.handles[h].text, None, [], alnum).value;
            var bound := Filled(parsed, s.handles[h].binds);
            var (sql, values) := s.handles[h].output.value;
            && FullyBound(bound)
            && (Words(Resolve(Read(sql, None), values)) == Meaning(bound) <==> PartsMarkerFree(parsed))
  {
    CacheIsTransparent(s, events, alnum, lists, h);
    var bound := Filled(Scan(s.handles[h].text, None, [], alnum).value, s.handles[h].binds);
    RenderOkIsBound(bound, 0);
    BoundStatement(s.handles[h].text, s.handles[h].binds, alnum);
    RenderingPreservesMeaning(bound);
  }

  // ----- The rule is needed -----

  function RunEvents(s: System, events: seq<Event>, alnum: char -> bool): System
    decreases |events|
  {
    if events == [] then s
    else if Enabled(s, events[0]) then RunEvents(Step(s, events[0], alnum), events[1..], alnum)
    else s
  }

  lemma RunCons(s: System, e: Event, events: seq<Event>, alnum: char -> bool)
    requires Enabled(s, e)
    ensures RunEvents(s, [e] + events, alnum) == RunEvents(Step(s, e, alnum), events, alnum)
  {
    assert ([e] + events)[1..] == events;
  }

  lemma OneName(alnum: char -> bool, v: Value, w: Value)
    requires alnum('a')
    ensures Scan(":a", None, [], alnum) == Ok([Placeholder("a", None)])
    ensures BindParts([Placeholder("a", None)], "a", Scalar(v)) == [Placeholder("a", Some(Scalar(v)))]
    ensures BindParts([Placeholder("a", None)], "a", Many([v, w])) == [Placeholder("a", Some(Many([v, w])))]
    ensures UncachedSql([Placeholder("a", Some(Scalar(v)))]) == Ok(("$1", [v]))
    ensures UncachedSql([Placeholder("a", Some(Many([v, w])))]) == Ok(("$1, $2", [v, w]))
    ensures ToSqlOutput(Some("$1"), [Placeholder("a", Some(Many([v, w])))]) == Ok(("$1", [v, w]))
  {
    assert ":a" == [':'] + "a" + [];
    ScanPlaceholder("a", [], alnum);
    assert [Placeholder("a", None)] + [] == [Placeholder("a", None)];
    assert Decimal(1) == "1" && Decimal(2) == "2";
    assert Marker(1) == "$1" && Markers(1, 2) == "$1, $2";
    RenderOne(Scalar(v));
    RenderOne(Many([v, w]));
  }

  lemma RenderOne(b: Bound)
    ensures var parts := [Placeholder("a", Some(b))];
            && UncachedSql(parts) == Ok((Segment(b, 0), ValuesOf(b)))
            && CollectValues(parts) == Ok(ValuesOf(b))
  {
    var parts := [Placeholder("a", Some(b))];
    assert parts[1..] == [] && ValuesOf(b) + [] == ValuesOf(b);
    assert Render(parts, 0) == AddSegment(Segment(b, 0), ValuesOf(b), Render([], |ValuesOf(b)|));
    assert [Segment(b, 0)] + [] == [Segment(b, 0)];
  }

  /** Parse ":a", bind a scalar and render. */
  lemma FirstCaller(alnum: char -> bool, v: Value, events: seq<Event>)
    requires alnum('a')
    ensures var x := Binding("a", Scalar(v));
            RunEvents(START, [Lookup(0, ":a")] + ([Parse(0)] + ([Bind(0, x)] + ([ToSql(0)] + events))), alnum)
            == RunEvents(System(map[":a" := Entry([Placeholder("a", None)], Some("$1"))],
                                map[0 := Done(":a", [x], Ok(("$1", [v])))]), events, alnum)
  {
    OneName(alnum, v, v);
    var x := Binding("a", Scalar(v));
    var es3 := [ToSql(0)] + events;
    var es2 := [Bind(0, x)] + es3;
    RunCons(START, Lookup(0, ":a"), [Parse(0)] + es2, alnum);
    var s1 := Step(START, Lookup(0, ":a"), alnum);
    RunCons(s1, Parse(0), es2, alnum);
    var s2 := Step(s1, Parse(0), alnum);
    RunCons(s2, Bind(0, x), es3, alnum);
    var s3 := Step(s2, Bind(0, x), alnum);
    var px := [Placeholder("a", Some(Scalar(v)))];
    assert s3.handles == map[0 := Live(":a", [x], px, None, Some(":a"))] by {
      assert [] + [x] == [x];
    }
    RunCons(s3, ToSql(0), events, alnum);
    var s4 := Step(s3, ToSql(0), alnum);
    assert !HasMany(px);
    assert s4.handles == map[0 := Done(":a", [x], Ok(("$1", [v])))];
    assert s4.cache == map[":a" := Entry([Placeholder("a", None)], Some("$1"))];
  }

  /** A text first rendered with a scalar keeps that rendering for a list: two values for one marker. */
  lemma WithoutTheRule(alnum: char -> bool, v: Value, w: Value)
    requires alnum('a')
    ensures var x, ys := Binding("a", Scalar(v)), Binding("a", Many([v, w]));
            var s := RunEvents(START, [Lookup(0, ":a")] + ([Parse(0)] + ([Bind(0, x)] + ([ToSql(0)]
                       + ([Lookup(1, ":a")] + ([Bind(1, ys)] + ([ToSql(1)] + [])))))), alnum);
            && 1 in s.handles && s.handles[1] == Done(":a", [ys], Ok(("$1", [v, w])))
            && Scan(":a", None, [], alnum).Ok?
            && FreshOutput(":a", [ys], alnum) == Ok(("$1, $2", [v, w]))
  {
    OneName(alnum, v, w);
    var x, ys := Binding("a", Scalar(v)), Binding("a", Many([v, w]));
    var es := [Bind(1, ys)] + ([ToSql(1)] + []);
    FirstCaller(alnum, v, [Lookup(1, ":a")] + es);
    var s4 := System(map[":a" := Entry([Placeholder("a", None)], Some("$1"))],
                     map[0 := Done(":a", [x], Ok(("$1", [v])))]);
    RunCons(s4, Lookup(1, ":a"), es, alnum);
    var s5 := Step(s4, Lookup(1, ":a"), alnum);
    RunCons(s5, Bind(1, ys), [ToSql(1)] + [], alnum);
    var s6 := Step(s5, Bind(1, ys), alnum);
    RunCons(s6, ToSql(1), [], alnum);
    assert [] + [ys] == [ys] && [ys][..0] == [];
    assert ApplyBinds([Placeholder("a", None)], []) == [Placeholder("a", None)];
    BindsFill([Placeholder("a", None)], [ys]);
  }
}
