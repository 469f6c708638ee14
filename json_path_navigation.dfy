/** Walking a parsed path over a value tree: `find`, `find_mut`, `insert` and the
    `path`/`path_mut` queries of `JsonPath` (src/json_path.rs).

    A mutable reference into the tree is modelled as a `Location`, the list of slots
    leading from the root to the referenced value; writing through the reference is
    `Replace`, which rebuilds the tree with a new value at that location. */
module JsonPathNavigation {
  import opened Wrappers
  import opened Json
  import opened JsonPathSyntax

  const UNABLE_TO_FIND: string := "unable to find path to value"

  /** One step into a container: a key of an object or a position in an array. */
  datatype Slot = Key(key: string) | Pos(pos: nat)

  /** The slots leading from the root of a tree to one of its values. */
  type Location = seq<Slot>

  // ---------------------------------------------------------------------------
  // Children of a container

  predicate ValidSlot(v: Value, s: Slot) {
    match s
    case Key(k) => v.Object? && k in v.fields
    case Pos(i) => v.Array? && i < |v.items|
  }

  function Child(v: Value, s: Slot): Value
    requires ValidSlot(v, s)
  {
    match s
    case Key(k) => v.fields[k]
    case Pos(i) => v.items[i]
  }

  /** `v` with the child at `s` replaced by `c`. */
  function SetChild(v: Value, s: Slot, c: Value): (r: Value)
    requires ValidSlot(v, s)
    ensures ValidSlot(r, s) && Child(r, s) == c
  {
    match s
    case Key(k) => Object(v.fields[k := c])
    case Pos(i) => Array(v.items[i := c])
  }

  /** The slot one path element selects in `v`. `Field` goes through serde_json's
      `Value::get` with a string (objects only), `NthLefth` through `Value::get` with an
      index (arrays only), and `NthRight(i)` takes `a.get(a.len() - i)`: `i == 0` is one
      past the end, and `i > len` underflows `usize`, which is treated as not found. */
  function SlotOf(v: Value, e: JsonPathElement): (r: Option<Slot>)
    ensures r.Some? ==> ValidSlot(v, r.value)
  {
    match e
    case Field(k) => if v.Object? && k in v.fields then Some(Key(k)) else None
    case Index(NthLefth(i)) => if v.Array? && i < |v.items| then Some(Pos(i)) else None
    case Index(NthRight(i)) =>
      if v.Array? && i <= |v.items| && |v.items| - i < |v.items| then Some(Pos(|v.items| - i)) else None
  }

  /** The child one path element selects, if any. */
  function Get(v: Value, e: JsonPathElement): Option<Value> {
    match SlotOf(v, e)
    case None => None
    case Some(s) => Some(Child(v, s))
  }

  // ---------------------------------------------------------------------------
  // Values and locations a path designates

  /** The value `find` reaches: the elements are applied left to right. */
  function Resolve(p: JsonPath, v: Value): Option<Value>
    decreases |p|
  {
    if p == [] then Some(v)
    else match Get(v, p[0])
      case None => None
      case Some(c) => Resolve(p[1..], c)
  }

  /** The location `find_mut` hands out a reference to. */
  function Locate(p: JsonPath, v: Value): Option<Location>
    decreases |p|
  {
    if p == [] then Some([])
    else match SlotOf(v, p[0])
      case None => None
      case Some(s) => Below([s], Locate(p[1..], Child(v, s)))
  }

  function Below(prefix: Location, r: Option<Location>): Option<Location> {
    match r
    case None => None
    case Some(l) => Some(prefix + l)
  }

  /** The value stored at a location. */
  function At(v: Value, loc: Location): Option<Value>
    decreases |loc|
  {
    if loc == [] then Some(v)
    else if ValidSlot(v, loc[0]) then At(Child(v, loc[0]), loc[1..])
    else None
  }

  /** The tree after writing `w` through a reference to `loc`; a tree without `loc`
      is left as it is. */
  function Replace(v: Value, loc: Location, w: Value): Value
    decreases |loc|
  {
    if loc == [] then w
    else if ValidSlot(v, loc[0]) then SetChild(v, loc[0], Replace(Child(v, loc[0]), loc[1..], w))
    else v
  }

  /** Two locations that part ways: neither lies on the route to the other. */
  predicate Diverge(a: Location, b: Location)
    decreases |a|
  {
    a != [] && b != [] && (a[0] != b[0] || Diverge(a[1..], b[1..]))
  }

  // ---------------------------------------------------------------------------
  // find and find_mut

  /** `JsonPath::find` (src/json_path.rs:50-67). */
  method Find(p: JsonPath, root: Value) returns (r: Option<Value>)
    ensures r == Resolve(p, root)
  {
    var value := root;
    for i := 0 to |p|
      invariant Resolve(p, root) == Resolve(p[i..], value)
    {
      assert p[i..][1..] == p[i + 1..];
      var sub: Option<Value>;
      match p[i] {
        case Field(key) =>
          sub := if value.Object? && key in value.fields then Some(value.fields[key]) else None;
        case Index(NthLefth(n)) =>
          sub := if value.Array? && n < |value.items| then Some(value.items[n]) else None;
        case Index(NthRight(n)) =>
          if value.Array? && n <= |value.items| {
            var a := value.items;
            sub := if |a| - n < |a| then Some(a[|a| - n]) else None;
          } else {
            sub := None;
          }
      }
      if sub.None? {
        return None;
      }
      value := sub.value;
    }
    assert p[|p|..] == [];
    return Some(value);
  }

  /** `JsonPath::find_mut` (src/json_path.rs:69-89): the same walk, yielding where the
      value sits rather than the value. */
  method FindMut(p: JsonPath, root: Value) returns (r: Option<Location>)
    ensures r == Locate(p, root)
  {
    var value := root;
    var loc: Location := [];
    BelowEmpty(Locate(p, root));
    assert p[0..] == p;
    for i := 0 to |p|
      invariant Locate(p, root) == Below(loc, Locate(p[i..], value))
    {
      assert p[i..][1..] == p[i + 1..];
      var slot: Option<Slot>;
      match p[i] {
        case Field(key) =>
          slot := if value.Object? && key in value.fields then Some(Key(key)) else None;
        case Index(NthLefth(n)) =>
          slot := if value.Array? && n < |value.items| then Some(Pos(n)) else None;
        case Index(NthRight(n)) =>
          if value.Array? && n <= |value.items| {
            var j := |value.items| - n;
            slot := if j < |value.items| then Some(Pos(j)) else None;
          } else {
            slot := None;
          }
      }
      if slot.None? {
        return None;
      }
      BelowBelow(loc, [slot.value], Locate(p[i + 1..], Child(value, slot.value)));
      loc := loc + [slot.value];
      value := Child(value, slot.value);
    }
    assert p[|p|..] == [] && loc + [] == loc;
    return Some(loc);
  }

  lemma BelowEmpty(r: Option<Location>)
    ensures Below([], r) == r
  {
    if r.Some? {
      assert [] + r.value == r.value;
    }
  }

  lemma BelowBelow(a: Location, b: Location, r: Option<Location>)
    ensures Below(a, Below(b, r)) == Below(a + b, r)
  {
    if r.Some? {
      assert a + (b + r.value) == (a + b) + r.value;
    }
  }

  /** `find` and `find_mut` agree: they fail together, and the location `find_mut`
      reaches holds the value `find` returns, one slot per path element. */
  lemma {:induction false} FindAndFindMutAgree(p: JsonPath, v: Value)
    ensures Locate(p, v).None? <==> Resolve(p, v).None?
    ensures Locate(p, v).Some? ==>
      |Locate(p, v).value| == |p| && At(v, Locate(p, v).value) == Resolve(p, v)
    decreases |p|
  {
    if p != [] {
      var s := SlotOf(v, p[0]);
      if s.Some? {
        var c := Child(v, s.value);
        FindAndFindMutAgree(p[1..], c);
        var l := Locate(p[1..], c);
        if l.Some? {
          var loc := [s.value] + l.value;
          assert loc[0] == s.value && loc[1..] == l.value;
        }
      }
    }
  }

  /** The path is applied left to right: extending it by one element takes one more
      step from what the shorter path reaches. */
  lemma {:induction false} ResolveAppend(p: JsonPath, e: JsonPathElement, v: Value)
    ensures Resolve(p + [e], v) == (if Resolve(p, v).Some? then Get(Resolve(p, v).value, e) else None)
    decreases |p|
  {
    if p == [] {
      assert [] + [e] == [e];
      assert [e][1..] == [];
    } else {
      assert (p + [e])[0] == p[0];
      assert (p + [e])[1..] == p[1..] + [e];
      var c := Get(v, p[0]);
      if c.Some? {
        ResolveAppend(p[1..], e, c.value);
      }
    }
  }

  /** `NthRight(i)` counts from the end: for `1 <= i <= len` it is `NthLefth(len - i)`,
      so `NthRight(1)` is the last element; any other `i` selects nothing. */
  lemma NthRightCountsFromEnd(a: seq<Value>, i: nat)
    ensures Get(Array(a), Index(NthRight(i))).Some? <==> 1 <= i <= |a|
    ensures 1 <= i <= |a| ==> Get(Array(a), Index(NthRight(i))) == Get(Array(a), Index(NthLefth(|a| - i)))
    ensures a != [] ==> Get(Array(a), Index(NthRight(1))) == Some(a[|a| - 1])
  {
  }

  /** A path through `NthRight(0)` never resolves, whatever the tree. */
  lemma NthRightZeroNeverResolves(p: JsonPath, q: JsonPath, v: Value)
    ensures Resolve(p + [Index(NthRight(0))] + q, v).None?
  {
    var e := Index(NthRight(0));
    ResolveAppend(p, e, v);
    ResolveFails(p + [e], q, v);
  }

  /** Once a prefix fails, every extension fails. */
  lemma {:induction false} ResolveFails(p: JsonPath, q: JsonPath, v: Value)
    requires Resolve(p, v).None?
    ensures Resolve(p + q, v).None?
    decreases |p|
  {
    assert p != [];
    assert (p + q)[0] == p[0];
    assert (p + q)[1..] == p[1..] + q;
    var c := Get(v, p[0]);
    if c.Some? {
      ResolveFails(p[1..], q, c.value);
    }
  }

  /** An element only selects a child of the matching container kind: `Field(k)` the
      entry of an object holding `k`, `NthLefth(i)` the element `i` of an array longer
      than `i`; any index needs a non-empty array. */
  lemma GetNeedsMatchingContainer(v: Value, e: JsonPathElement)
    ensures e.Field? ==> (Get(v, e).Some? <==> v.Object? && e.name in v.fields)
    ensures e.Field? && Get(v, e).Some? ==> Get(v, e).value == v.fields[e.name]
    ensures e.Index? && e.index.NthLefth? ==> (Get(v, e).Some? <==> v.Array? && e.index.n < |v.items|)
    ensures e.Index? && e.index.NthLefth? && Get(v, e).Some? ==> Get(v, e).value == v.items[e.index.n]
    ensures Get(v, e).Some? && e.Index? ==> v.Array? && v.items != []
  {
  }

  // ---------------------------------------------------------------------------
  // Writing through a location

  /** Writing a child keeps the container's kind, keys and length. */
  lemma SlotOfSetChild(v: Value, s: Slot, c: Value, e: JsonPathElement)
    requires ValidSlot(v, s)
    ensures SlotOf(SetChild(v, s, c), e) == SlotOf(v, e)
  {
  }

  /** The other children of a container are untouched by writing one of them. */
  lemma SetChildFrame(v: Value, s: Slot, c: Value, t: Slot)
    requires ValidSlot(v, s) && t != s
    ensures ValidSlot(SetChild(v, s, c), t) <==> ValidSlot(v, t)
    ensures ValidSlot(v, t) ==> Child(SetChild(v, s, c), t) == Child(v, t)
  {
  }

  /** After writing `w` at the location a path leads to, the same path reaches `w`. */
  lemma {:induction false} ResolveReplaced(p: JsonPath, v: Value, loc: Location, w: Value)
    requires Locate(p, v) == Some(loc)
    ensures Resolve(p, Replace(v, loc, w)) == Some(w)
    decreases |p|
  {
    if p == [] {
      assert loc == [];
    } else {
      var s := SlotOf(v, p[0]).value;
      var c := Child(v, s);
      var l := Locate(p[1..], c).value;
      assert loc == [s] + l;
      assert loc[0] == s && loc[1..] == l;
      var c' := Replace(c, l, w);
      assert Replace(v, loc, w) == SetChild(v, s, c');
      SlotOfSetChild(v, s, c', p[0]);
      ResolveReplaced(p[1..], c, l, w);
    }
  }

  /** Writing at `loc` changes nothing at a location that diverges from it. */
  lemma {:induction false} ReplaceFrame(v: Value, loc: Location, w: Value, l: Location)
    requires At(v, loc).Some? && Diverge(loc, l)
    ensures At(Replace(v, loc, w), l) == At(v, l)
    decreases |loc|
  {
    var s := loc[0];
    var c' := Replace(Child(v, s), loc[1..], w);
    var v' := SetChild(v, s, c');
    assert Replace(v, loc, w) == v';
    if l[0] != s {
      SetChildFrame(v, s, c', l[0]);
    } else {
      ReplaceFrame(Child(v, s), loc[1..], w, l[1..]);
    }
  }

  // ---------------------------------------------------------------------------
  // insert

  /** The parent after inserting `v` under the last element, or None when the pairing
      of container and element is refused (src/json_path.rs:94-125). */
  function InsertChild(parent: Value, e: JsonPathElement, v: Value): Option<Value> {
    match (parent, e)
    case (Array(a), Index(NthLefth(i))) =>
      if i <= |a| then Some(Array(a[..i] + [v] + a[i..])) else None
    case (Array(a), Index(NthRight(i))) =>
      if |a| < i then None else Some(Array(a[..|a| - i] + [v] + a[|a| - i..]))
    case (Object(m), Field(k)) =>
      if k !in m then Some(Object(m[k := v])) else None
    case _ => None
  }

  /** The tree `insert` leaves behind when it succeeds: the parent is found with the
      path minus its last element and updated in place. */
  function Inserted(p: JsonPath, root: Value, v: Value): Option<Value> {
    if p == [] then None
    else match Locate(p[..|p| - 1], root)
      case None => None
      case Some(loc) =>
        match At(root, loc)
        case None => None
        case Some(parent) =>
          match InsertChild(parent, p[|p| - 1], v)
          case None => None
          case Some(updated) => Some(Replace(root, loc, updated))
  }

  /** `JsonPath::insert` (src/json_path.rs:91-132). `after` is the tree once the call
      returns; on success the returned value is that whole tree. */
  method Insert(p: JsonPath, root: Value, v: Value) returns (after: Value, r: Option<Value>)
    ensures r == Inserted(p, root, v)
    ensures after == (if r.Some? then r.value else root)
  {
    after, r := root, None;
    if |p| == 0 {
      return;
    }
    var last, rest := p[|p| - 1], p[..|p| - 1];
    var found := FindMut(rest, root);
    if found.None? {
      return;
    }
    var loc := found.value;
    var target := At(root, loc);
    if target.None? {
      return;
    }
    var updated: Option<Value> := None;
    match (target.value, last) {
      case (Array(a), Index(NthLefth(i))) =>
        if i <= |a| {
          updated := Some(Array(a[..i] + [v] + a[i..]));
        }
      case (Array(a), Index(NthRight(i))) =>
        if |a| < i {
          return;
        }
        var j := |a| - i;
        if j <= |a| {
          updated := Some(Array(a[..j] + [v] + a[j..]));
        }
      case (Object(m), Field(key)) =>
        if key !in m {
          updated := Some(Object(m[key := v]));
        }
      case _ =>
    }
    if updated.None? {
      return;
    }
    after := Replace(root, loc, updated.value);
    r := Some(after);
  }

  /** The parent of a one-element extension is the path itself. */
  lemma ParentOf(parent: JsonPath, e: JsonPathElement)
    ensures var p := parent + [e]; p != [] && p[..|p| - 1] == parent && p[|p| - 1] == e
  {
  }

  /** `insert` fails for the empty path, for a parent that does not resolve, and for
      any pairing other than array with index or object with field. */
  lemma InsertFailureCases(p: JsonPath, root: Value, v: Value)
    ensures Inserted(p, root, v).Some? ==>
      p != [] && Resolve(p[..|p| - 1], root).Some? &&
      var parent := Resolve(p[..|p| - 1], root).value;
      (parent.Array? && p[|p| - 1].Index?) || (parent.Object? && p[|p| - 1].Field?)
  {
    if p != [] {
      FindAndFindMutAgree(p[..|p| - 1], root);
    }
  }

  /** Inserting at `NthLefth(i)` of an array succeeds exactly when `i <= len`; the array
      becomes `a[..i] + [v] + a[i..]` and the same path then finds `v`. */
  lemma InsertIntoArray(parent: JsonPath, root: Value, a: seq<Value>, i: nat, v: Value)
    requires Resolve(parent, root) == Some(Array(a))
    ensures Inserted(parent + [Index(NthLefth(i))], root, v).Some? <==> i <= |a|
    ensures i <= |a| ==>
      var after := Inserted(parent + [Index(NthLefth(i))], root, v).value;
      Resolve(parent, after) == Some(Array(a[..i] + [v] + a[i..])) &&
      Resolve(parent + [Index(NthLefth(i))], after) == Some(v)
  {
    var e := Index(NthLefth(i));
    ParentOf(parent, e);
    FindAndFindMutAgree(parent, root);
    var loc := Locate(parent, root).value;
    if i <= |a| {
      var w := Array(a[..i] + [v] + a[i..]);
      var after := Replace(root, loc, w);
      assert Inserted(parent + [e], root, v) == Some(after);
      ResolveReplaced(parent, root, loc, w);
      ResolveAppend(parent, e, after);
      assert w.items[i] == v;
    }
  }

  /** Inserting at `NthRight(i)` succeeds exactly when `i <= len` and puts `v` at
      `len - i`, so `NthRight(0)` appends; the new element is then `NthRight(i + 1)`. */
  lemma InsertIntoArrayFromEnd(parent: JsonPath, root: Value, a: seq<Value>, i: nat, v: Value)
    requires Resolve(parent, root) == Some(Array(a))
    ensures Inserted(parent + [Index(NthRight(i))], root, v).Some? <==> i <= |a|
    ensures i <= |a| ==>
      var after := Inserted(parent + [Index(NthRight(i))], root, v).value;
      Resolve(parent, after) == Some(Array(a[..|a| - i] + [v] + a[|a| - i..])) &&
      Resolve(parent + [Index(NthRight(i + 1))], after) == Some(v)
    ensures i == 0 ==>
      Resolve(parent, Inserted(parent + [Index(NthRight(0))], root, v).value) == Some(Array(a + [v]))
  {
    var e := Index(NthRight(i));
    ParentOf(parent, e);
    FindAndFindMutAgree(parent, root);
    var loc := Locate(parent, root).value;
    if i <= |a| {
      var j := |a| - i;
      var w := Array(a[..j] + [v] + a[j..]);
      var after := Replace(root, loc, w);
      assert Inserted(parent + [e], root, v) == Some(after);
      ResolveReplaced(parent, root, loc, w);
      ResolveAppend(parent, Index(NthRight(i + 1)), after);
      assert |w.items| - (i + 1) == j && w.items[j] == v;
      if i == 0 {
        assert a[..|a|] == a && a[|a|..] == [];
        assert w.items == a + [v];
      }
    }
  }

  /** Inserting a field succeeds exactly when the key is absent, so an existing entry
      is never overwritten; the object gains that one entry and the path then finds `v`. */
  lemma InsertIntoObject(parent: JsonPath, root: Value, m: map<string, Value>, k: string, v: Value)
    requires Resolve(parent, root) == Some(Object(m))
    ensures Inserted(parent + [Field(k)], root, v).Some? <==> k !in m
    ensures k !in m ==>
      var after := Inserted(parent + [Field(k)], root, v).value;
      Resolve(parent, after) == Some(Object(m[k := v])) &&
      Resolve(parent + [Field(k)], after) == Some(v)
  {
    var e := Field(k);
    ParentOf(parent, e);
    FindAndFindMutAgree(parent, root);
    var loc := Locate(parent, root).value;
    if k !in m {
      var w := Object(m[k := v]);
      var after := Replace(root, loc, w);
      assert Inserted(parent + [e], root, v) == Some(after);
      ResolveReplaced(parent, root, loc, w);
      ResolveAppend(parent, e, after);
    }
  }

  /** A successful insert changes the tree only along the route to the parent and
      below it: every location that diverges from the parent's holds what it held. */
  lemma InsertFrame(p: JsonPath, root: Value, v: Value, loc: Location, l: Location)
    requires p != [] && Locate(p[..|p| - 1], root) == Some(loc)
    requires Inserted(p, root, v).Some? && Diverge(loc, l)
    ensures At(Inserted(p, root, v).value, l) == At(root, l)
  {
    var parent := At(root, loc).value;
    var updated := InsertChild(parent, p[|p| - 1], v).value;
    assert Inserted(p, root, v) == Some(Replace(root, loc, updated));
    ReplaceFrame(root, loc, updated, l);
  }

  // ---------------------------------------------------------------------------
  // path and path_mut

  /** What `path` returns: parse errors pass through unchanged, a failed lookup becomes
      "unable to find path to value". */
  function Query(root: Value, query: string): Result<Value, string> {
    match Parse(query)
    case Err(e) => Err(e)
    case Ok(p) =>
      match Resolve(p, root)
      case None => Err(UNABLE_TO_FIND)
      case Some(x) => Ok(x)
  }

  /** What `path_mut` returns, with the reference as a location. */
  function QueryMut(root: Value, query: string): Result<Location, string> {
    match Parse(query)
    case Err(e) => Err(e)
    case Ok(p) =>
      match Locate(p, root)
      case None => Err(UNABLE_TO_FIND)
      case Some(l) => Ok(l)
  }

  /** `JsonPathQuery::path` for `Value` (src/json_path.rs:211-215). */
  method Path(root: Value, query: string) returns (r: Result<Value, string>)
    ensures r == Query(root, query)
  {
    var parsed := FromStr(query);
    if parsed.Err? {
      return Err(parsed.error);
    }
    var found := Find(parsed.value, root);
    if found.None? {
      return Err(UNABLE_TO_FIND);
    }
    return Ok(found.value);
  }

  /** `JsonPathQuery::path_mut` for `Value` (src/json_path.rs:217-221). */
  method PathMut(root: Value, query: string) returns (r: Result<Location, string>)
    ensures r == QueryMut(root, query)
  {
    var parsed := FromStr(query);
    if parsed.Err? {
      return Err(parsed.error);
    }
    var found := FindMut(parsed.value, root);
    if found.None? {
      return Err(UNABLE_TO_FIND);
    }
    return Ok(found.value);
  }

  /** `path` and `path_mut` fail with the same message or succeed together, and the
      reference `path_mut` returns designates the value `path` returns. */
  lemma PathAndPathMutAgree(root: Value, query: string)
    ensures Query(root, query).Err? <==> QueryMut(root, query).Err?
    ensures Query(root, query).Err? ==> Query(root, query).error == QueryMut(root, query).error
    ensures Query(root, query).Ok? ==> At(root, QueryMut(root, query).value) == Some(Query(root, query).value)
  {
    if Parse(query).Ok? {
      FindAndFindMutAgree(Parse(query).value, root);
    }
  }

  /** The four messages `path` can fail with; the lookup message means the query
      parsed and did not resolve. */
  lemma PathErrors(root: Value, query: string)
    ensures Query(root, query).Err? ==>
      Query(root, query).error in {EXPECTED_ROOT_OR_NUMERIC, EXPECTED_CLOSE, EXPECTED_DOT_OR_BRACKET, UNABLE_TO_FIND}
    ensures Query(root, query) == Err(UNABLE_TO_FIND) <==>
      Parse(query).Ok? && Resolve(Parse(query).value, root).None?
  {
    ParseErrors(query);
  }

  // ---------------------------------------------------------------------------
  // The repository's tests of `path`, `path_mut` and `insert` (src/json_path.rs:314-409)

  function Int(n: U64): Value {
    Number(PosInt(n))
  }

  lemma PathExampleRoot()
    ensures Query(Object(map[]), "$") == Ok(Object(map[]))
    ensures QueryMut(Object(map[]), "$") == Ok([])
  {
    ParseExampleRoot();
  }

  lemma PathExampleField()
    ensures Query(Object(map["a" := String("example")]), "$.a") == Ok(String("example"))
    ensures QueryMut(Object(map["a" := String("example")]), "$.a") == Ok([Key("a")])
  {
    ParseExampleField();
    assert [Field("a")][1..] == [] && [Key("a")] + [] == [Key("a")];
  }

  lemma PathExampleIndex()
    ensures Query(Array([Int(0), Int(1), Int(2), Int(3)]), "$[0]") == Ok(Int(0))
    ensures QueryMut(Array([Int(0), Int(1), Int(2), Int(3)]), "$[0]") == Ok([Pos(0)])
  {
    var p := [Index(NthLefth(0))];
    assert Render(p) == "$[0]";
    RoundTrip(p);
    assert p[1..] == [] && [Pos(0)] + [] == [Pos(0)];
  }

  lemma PathExampleFromEnd()
    ensures Query(Array([Int(0), Int(1), Int(2), Int(3)]), "$[#-1]") == Ok(Int(3))
    ensures QueryMut(Array([Int(0), Int(1), Int(2), Int(3)]), "$[#-1]") == Ok([Pos(3)])
  {
    var p := [Index(NthRight(1))];
    assert Render(p) == "$[#-1]";
    RoundTrip(p);
    assert p[1..] == [] && [Pos(3)] + [] == [Pos(3)];
  }

  lemma PathExampleShorthand()
    ensures Query(Array([Int(1), Int(2), Int(4)]), "1") == Ok(Int(2))
    ensures QueryMut(Array([Int(1), Int(2), Int(4)]), "1") == Ok([Pos(1)])
  {
    assert [Index(NthLefth(1))][1..] == [] && [Pos(1)] + [] == [Pos(1)];
    assert ParseUsize("1") == 1;
    DigitShorthand("1", []);
    assert "1" + [] == "1";
  }

  lemma PathExampleMissing()
    ensures Query(Array([Int(1)]), "$[2]") == Err(UNABLE_TO_FIND)
    ensures QueryMut(Array([Int(1)]), "$[2]") == Err(UNABLE_TO_FIND)
  {
    var p := [Index(NthLefth(2))];
    assert Render(p) == "$[2]";
    RoundTrip(p);
  }

  /** The tree of the nested test (src/json_path.rs:321-334). */
  function NestedTree(): Value {
    var inner := Array([Object(map["test" := String("example")]), Object(map["test" := String("invalid")])]);
    Object(map[
      "a" := Array([Object(map["b" := String("invalid")]), Object(map["b" := inner])]),
      "b" := String("invalid")])
  }

  /** The nested lookup: `path` reaches `"example"` and `path_mut` the location of
      that value. */
  lemma PathExampleNested()
    ensures Query(NestedTree(), "$.a[#-1].b[0].test") == Ok(String("example"))
    ensures QueryMut(NestedTree(), "$.a[#-1].b[0].test") == Ok([Key("a"), Pos(1), Key("b"), Pos(0), Key("test")])
  {
    ParseExampleNested();
    NestedLookup();
  }

  /** The nested lookup on the parsed path. */
  lemma NestedLookup()
    ensures Resolve([Field("a"), Index(NthRight(1)), Field("b"), Index(NthLefth(0)), Field("test")], NestedTree())
      == Some(String("example"))
    ensures Locate([Field("a"), Index(NthRight(1)), Field("b"), Index(NthLefth(0)), Field("test")], NestedTree())
      == Some([Key("a"), Pos(1), Key("b"), Pos(0), Key("test")])
  {
    assert [Key("test")] + [] == [Key("test")];
    assert [Pos(0)] + [Key("test")] == [Pos(0), Key("test")];
    assert [Key("b")] + [Pos(0), Key("test")] == [Key("b"), Pos(0), Key("test")];
    assert [Pos(1)] + [Key("b"), Pos(0), Key("test")] == [Pos(1), Key("b"), Pos(0), Key("test")];
    assert [Key("a")] + [Pos(1), Key("b"), Pos(0), Key("test")] == [Key("a"), Pos(1), Key("b"), Pos(0), Key("test")];
  }

  lemma InsertExampleField()
    ensures Inserted([Field("a")], Object(map[]), String("test")) == Some(Object(map["a" := String("test")]))
  {
  }

  /** Inserting `v` at the end of a two-field parent path, computed step by step. */
  lemma InsertUnderTwoFields(a: string, b: string, e: JsonPathElement, items: seq<Value>, v: Value,
                             updated: Value)
    requires InsertChild(Array(items), e, v) == Some(updated)
    ensures
      var root := Object(map[a := Object(map[b := Array(items)])]);
      Inserted([Field(a), Field(b), e], root, v) == Some(Object(map[a := Object(map[b := updated])]))
  {
    var inner := Object(map[b := Array(items)]);
    var root := Object(map[a := inner]);
    var p := [Field(a), Field(b), e];
    assert p[..|p| - 1] == [Field(a), Field(b)];
    assert [Field(a), Field(b)][1..] == [Field(b)];
    assert [Field(b)][1..] == [];
    assert [Key(b)] + [] == [Key(b)];
    assert Locate([Field(b)], inner) == Some([Key(b)]);
    var loc := [Key(a)] + [Key(b)];
    assert SlotOf(root, Field(a)) == Some(Key(a)) && Child(root, Key(a)) == inner;
    assert Locate([Field(a), Field(b)], root) == Some(loc);
    assert loc[0] == Key(a) && loc[1..] == [Key(b)];
    assert [Key(b)][1..] == [];
    assert At(inner, [Key(b)]) == Some(Array(items));
    assert At(root, loc) == Some(Array(items));
    assert Replace(inner, [Key(b)], updated) == Object(map[b := updated]);
    assert Replace(root, loc, updated) == Object(map[a := Object(map[b := updated])]);
  }

  lemma InsertExampleIndex()
    ensures
      var root := Object(map["a" := Object(map["b" := Array([Int(1), Int(2), Int(4)])])]);
      Inserted([Field("a"), Field("b"), Index(NthLefth(1))], root, String("test"))
        == Some(Object(map["a" := Object(map["b" := Array([Int(1), String("test"), Int(2), Int(4)])])]))
  {
    var a := [Int(1), Int(2), Int(4)];
    assert a[..1] + [String("test")] + a[1..] == [Int(1), String("test"), Int(2), Int(4)];
    InsertUnderTwoFields("a", "b", Index(NthLefth(1)), a, String("test"),
      Array([Int(1), String("test"), Int(2), Int(4)]));
  }

  lemma InsertExampleAppend()
    ensures
      var root := Object(map["a" := Object(map["b" := Array([Int(1), Int(2), Int(4)])])]);
      Inserted([Field("a"), Field("b"), Index(NthRight(0))], root, String("test"))
        == Some(Object(map["a" := Object(map["b" := Array([Int(1), Int(2), Int(4), String("test")])])]))
  {
    var a := [Int(1), Int(2), Int(4)];
    assert a[..3] + [String("test")] + a[3..] == [Int(1), Int(2), Int(4), String("test")];
    InsertUnderTwoFields("a", "b", Index(NthRight(0)), a, String("test"),
      Array([Int(1), Int(2), Int(4), String("test")]));
  }

  lemma InsertExampleFromEnd()
    ensures
      var root := Object(map["a" := Object(map["b" := Array([Int(1), Int(2), Int(4)])])]);
      Inserted([Field("a"), Field("b"), Index(NthRight(3))], root, String("test"))
        == Some(Object(map["a" := Object(map["b" := Array([String("test"), Int(1), Int(2), Int(4)])])]))
  {
    var a := [Int(1), Int(2), Int(4)];
    assert a[..0] + [String("test")] + a[0..] == [String("test"), Int(1), Int(2), Int(4)];
    InsertUnderTwoFields("a", "b", Index(NthRight(3)), a, String("test"),
      Array([String("test"), Int(1), Int(2), Int(4)]));
  }

  /** An existing key is never overwritten, and indices 1 and `#-3` do not fit an empty array. */
  lemma InsertExampleRefused()
    ensures Inserted([Field("a")], Object(map["a" := Number(Float(10.0))]), String("test")) == None
    ensures Inserted([Field("a"), Index(NthLefth(1))], Object(map["a" := Array([])]), String("test")) == None
    ensures Inserted([Field("a"), Index(NthRight(3))], Object(map["a" := Array([])]), String("test")) == None
  {
    var root := Object(map["a" := Array([])]);
    var p, q := [Field("a"), Index(NthLefth(1))], [Field("a"), Index(NthRight(3))];
    assert p[..1] == [Field("a")] && q[..1] == [Field("a")];
    assert [Field("a")][1..] == [];
    assert [Key("a")] + [] == [Key("a")];
    assert Locate([Field("a")], root) == Some([Key("a")]);
    assert [Key("a")][1..] == [];
    assert At(root, [Key("a")]) == Some(Array([]));
  }
}
