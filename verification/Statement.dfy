/** Statements over a shared cache of parsed and rendered SQL
    (crates/cdk-sql-common/src/stmt.rs:145-311). */
module Statements {
  import opened Wrappers
  import opened SqlParser
  import opened SqlRender

  /** What the cache keeps for a text: its parts, and its rendering once there is one. */
  datatype Entry = Entry(parts: seq<Part>, rendered: Option<string>)

  // ----- Specifications -----

  function BindPart(p: Part, name: string, b: Bound): Part {
    if p.Placeholder? && p.name == name then Placeholder(name, Some(b)) else p
  }

  function BindParts(parts: seq<Part>, name: string, b: Bound): (r: seq<Part>)
    ensures |r| == |parts|
    ensures forall i :: 0 <= i < |parts| ==> r[i] == BindPart(parts[i], name, b)
  {
    seq(|parts|, i requires 0 <= i < |parts| => BindPart(parts[i], name, b))
  }

  /** The values of all the placeholders in order, or the first name without a value. */
  function CollectValues(parts: seq<Part>): Result<seq<Value>, string> {
    if parts == [] then Ok([])
    else match parts[0]
      case Raw(_) => CollectValues(parts[1..])
      case Placeholder(name, None) => Err(name)
      case Placeholder(_, Some(b)) =>
        match CollectValues(parts[1..])
        case Ok(vs) => Ok(ValuesOf(b) + vs)
        case Err(name) => Err(name)
  }

  predicate HasMany(parts: seq<Part>) {
    exists i :: 0 <= i < |parts| && parts[i].Placeholder? && parts[i].value.Some? && parts[i].value.value.Many?
  }

  /** The result of `to_sql`. */
  function ToSqlOutput(cachedSql: Option<string>, parts: seq<Part>): Output {
    match cachedSql
    case None => UncachedSql(parts)
    case Some(sql) =>
      match CollectValues(parts)
      case Ok(values) => Ok((sql, values))
      case Err(name) => Err(name)
  }

  /** The cache after `to_sql`: a rendering without lists is kept, if the statement parsed its
      text itself and the text is still in the cache. */
  function CacheAfterToSql(entries: map<string, Entry>, cachedSql: Option<string>, sql: Option<string>,
                           parts: seq<Part>): map<string, Entry> {
    if cachedSql.None? && UncachedSql(parts).Ok? && !HasMany(parts) && sql.Some? && sql.value in entries then
      entries[sql.value := entries[sql.value].(rendered := Some(UncachedSql(parts).value.0))]
    else entries
  }

  // ----- The objects -----

  class SqlCache {
    var entries: map<string, Entry>

    constructor ()
      ensures entries == map[]
    {
      entries := map[];
    }

    /** The write of `new` on a miss. */
    method Insert(text: string, parts: seq<Part>)
      modifies this
      ensures entries == old(entries)[text := Entry(parts, None)]
    {
      entries := entries[text := Entry(parts, None)];
    }
  }

  class Statement {
    const cache: SqlCache
    var parts: seq<Part>
    var cachedSql: Option<string>
    var sql: Option<string>

    constructor (cache: SqlCache, parts: seq<Part>, cachedSql: Option<string>, sql: Option<string>)
      ensures this.cache == cache && this.parts == parts && this.cachedSql == cachedSql && this.sql == sql
    {
      this.cache, this.parts, this.cachedSql, this.sql := cache, parts, cachedSql, sql;
    }

    /** `Statement::new`: a hit copies the cached entry, a miss parses the text and caches the parts. */
    static method New(text: string, cache: SqlCache, alnum: char -> bool) returns (r: Result<Statement, ParseError>)
      modifies cache
      ensures text in old(cache.entries) ==>
                && cache.entries == old(cache.entries)
                && r.Ok? && fresh(r.value) && r.value.cache == cache && r.value.sql == None
                && r.value.parts == old(cache.entries)[text].parts
                && r.value.cachedSql == old(cache.entries)[text].rendered
      ensures text !in old(cache.entries) ==>
                match Scan(text, None, [], alnum)
                case Err(e) => r == Err(e) && cache.entries == old(cache.entries)
                case Ok(parts) =>
                  && cache.entries == old(cache.entries)[text := Entry(parts, None)]
                  && r.Ok? && fresh(r.value) && r.value.cache == cache && r.value.sql == Some(text)
                  && r.value.parts == parts && r.value.cachedSql == None
    {
      if text in cache.entries {
        var hit := cache.entries[text];
        var s := new Statement(cache, hit.parts, hit.rendered, None);
        return Ok(s);
      }
      var parsed := SplitSqlParts(text, alnum);
      if parsed.Err? {
        return Err(parsed.error);
      }
      cache.Insert(text, parsed.value);
      var s := new Statement(cache, parsed.value, None, Some(text));
      r := Ok(s);
    }

    /** `bind`: the placeholders of that name hold the value, and every other part is as before. */
    method Bind(name: string, value: Value)
      modifies this`parts
      ensures parts == BindParts(old(parts), name, Scalar(value))
      ensures |parts| == |old(parts)|
      ensures forall i :: 0 <= i < |parts| ==>
                parts[i] == if old(parts)[i].Placeholder? && old(parts)[i].name == name
                            then Placeholder(name, Some(Scalar(value))) else old(parts)[i]
    {
      BindAll(name, Scalar(value));
    }

    /** `bind_vec`: the same with a list. */
    method BindVec(name: string, values: seq<Value>)
      modifies this`parts
      ensures parts == BindParts(old(parts), name, Many(values))
      ensures |parts| == |old(parts)|
      ensures forall i :: 0 <= i < |parts| ==>
                parts[i] == if old(parts)[i].Placeholder? && old(parts)[i].name == name
                            then Placeholder(name, Some(Many(values))) else old(parts)[i]
    {
      BindAll(name, Many(values));
    }

    method BindAll(name: string, b: Bound)
      modifies this`parts
      ensures parts == BindParts(old(parts), name, b)
    {
      var i := 0;
      while i < |parts|
        invariant 0 <= i <= |parts| == |old(parts)|
        invariant forall j :: 0 <= j < i ==> parts[j] == BindPart(old(parts)[j], name, b)
        invariant forall j :: i <= j < |parts| ==> parts[j] == old(parts)[j]
      {
        if parts[i].Placeholder? && parts[i].name == name {
          parts := parts[i := Placeholder(name, Some(b))];
        }
        i := i + 1;
      }
    }

    method ToSql() returns (out: Output)
      modifies cache
      ensures out == ToSqlOutput(cachedSql, parts)
      ensures cache.entries == CacheAfterToSql(old(cache.entries), cachedSql, sql, parts)
    {
      if cachedSql.Some? {
        out := CachedValues(parts, cachedSql.value);
        return;
      }
      var canBeCached;
      out, canBeCached := RenderLoop(parts);
      if out.Ok? && canBeCached && sql.Some? && sql.value in cache.entries {
        cache.entries := cache.entries[sql.value := cache.entries[sql.value].(rendered := Some(out.value.0))];
      }
    }
  }

  /** The values of a statement whose text is cached (crates/cdk-sql-common/src/stmt.rs:202-218). */
  method CachedValues(parts: seq<Part>, text: string) returns (out: Output)
    ensures out == ToSqlOutput(Some(text), parts)
  {
    var values: seq<Value> := [];
    var i := 0;
    assert parts[0..] == parts;
    assert CollectValues(parts).Ok? ==> [] + CollectValues(parts).value == CollectValues(parts).value;
    while i < |parts|
      invariant 0 <= i <= |parts|
      invariant CollectValues(parts)
                == match CollectValues(parts[i..]) case Ok(vs) => Ok(values + vs) case Err(name) => Err(name)
    {
      assert parts[i..][1..] == parts[i + 1..];
      var p := parts[i];
      if p.Placeholder? {
        if p.value.None? {
          return Err(p.name);
        }
        ghost var rest := CollectValues(parts[i + 1..]);
        if rest.Ok? {
          Assoc(values, ValuesOf(p.value.value), rest.value);
        }
        values := values + ValuesOf(p.value.value);
      }
      i := i + 1;
    }
    assert parts[i..] == [] && values + [] == values;
    out := Ok((text, values));
  }

  function Attach(done: Rendered, r: Result<Rendered, string>): Result<Rendered, string> {
    match r
    case Ok(x) => Ok(Rendered(done.segments + x.segments, done.values + x.values))
    case Err(name) => Err(name)
  }

  lemma AttachSegment(done: Rendered, segment: string, values: seq<Value>, r: Result<Rendered, string>)
    ensures Attach(done, AddSegment(segment, values, r))
            == Attach(Rendered(done.segments + [segment], done.values + values), r)
  {
    if r.Ok? {
      Assoc(done.segments, [segment], r.value.segments);
      Assoc(done.values, values, r.value.values);
    }
  }

  /** The uncached rendering (crates/cdk-sql-common/src/stmt.rs:221-248). */
  method RenderLoop(parts: seq<Part>) returns (out: Output, canBeCached: bool)
    ensures out == UncachedSql(parts)
    ensures out.Ok? ==> (canBeCached <==> !HasMany(parts))
  {
    var segments: seq<string> := [];
    var values: seq<Value> := [];
    canBeCached := true;
    var i := 0;
    assert parts[0..] == parts;
    AttachNothing(Render(parts, 0));
    while i < |parts|
      invariant 0 <= i <= |parts|
      invariant Render(parts, 0) == Attach(Rendered(segments, values), Render(parts[i..], |values|))
      invariant canBeCached <==> !HasMany(parts[..i])
    {
      HasManyStep(parts, i);
      RenderStep(parts, i, Rendered(segments, values));
      var p := parts[i];
      var segment, more;
      match p {
        case Raw(text) =>
          segment, more := Trim(text), [];
        case Placeholder(name, value) =>
          if value.None? {
            out := Err(name);
            return;
          }
          if value.value.Scalar? {
            segment, more := Marker(|values| + 1), [value.value.value];
          } else {
            canBeCached := false;
            segment, more := Markers(|values| + 1, |value.value.values|), value.value.values;
          }
      }
      segments, values := segments + [segment], values + more;
      i := i + 1;
    }
    assert parts[i..] == [] && parts[..i] == parts;
    assert segments + [] == segments && values + [] == values;
    out := Ok((Join(segments), values));
  }

  /** What one part adds after `k` values. */
  function PartSegment(p: Part, k: nat): string {
    match p
    case Raw(text) => Trim(text)
    case Placeholder(_, None) => []
    case Placeholder(_, Some(b)) => Segment(b, k)
  }

  function PartValues(p: Part): seq<Value> {
    if p.Placeholder? && p.value.Some? then ValuesOf(p.value.value) else []
  }

  lemma RenderStep(parts: seq<Part>, i: nat, done: Rendered)
    requires i < |parts|
    ensures var p, k := parts[i], |done.values|;
            if p.Placeholder? && p.value.None? then Render(parts[i..], k) == Err(p.name)
            else Attach(done, Render(parts[i..], k))
                 == Attach(Rendered(done.segments + [PartSegment(p, k)], done.values + PartValues(p)),
                           Render(parts[i + 1..], |done.values + PartValues(p)|))
  {
    var p, k := parts[i], |done.values|;
    assert parts[i..][1..] == parts[i + 1..];
    AttachSegment(done, PartSegment(p, k), PartValues(p), Render(parts[i + 1..], |done.values + PartValues(p)|));
  }

  lemma AttachNothing(r: Result<Rendered, string>)
    ensures Attach(Rendered([], []), r) == r
  {
    if r.Ok? {
      assert [] + r.value.segments == r.value.segments && [] + r.value.values == r.value.values;
    }
  }

  lemma HasManyStep(parts: seq<Part>, i: nat)
    requires i < |parts|
    ensures HasMany(parts[..i + 1])
            <==> HasMany(parts[..i])
                 || (parts[i].Placeholder? && parts[i].value.Some? && parts[i].value.value.Many?)
  {
    if HasMany(parts[..i]) {
      var j :| 0 <= j < i && parts[..i][j].Placeholder? && parts[..i][j].value.Some? && parts[..i][j].value.value.Many?;
      assert parts[..i + 1][j] == parts[..i][j];
    }
    if HasMany(parts[..i + 1]) {
      var j :| 0 <= j < i + 1 && parts[..i + 1][j].Placeholder? && parts[..i + 1][j].value.Some?
               && parts[..i + 1][j].value.value.Many?;
      assert j < i ==> parts[..i][j] == parts[..i + 1][j];
    }
    assert parts[..i + 1][i] == parts[i];
  }
}
