/** Nested configuration, the event types of its leaves, and what writing the leaves into an event multimap gives. */
module MultiMap {
  import opened Options
  import C = Counting

  type Events = map<string, seq<string>>

  // ---------------------------------------------------------------- raw values

  datatype Element = Text(text: string) | NotText

  /** What a decoded configuration can hold under a key; Invalid is a value of any other type. */
  datatype Raw =
    | Single(text: string)
    | Strings(texts: seq<string>)
    | Elements(elements: seq<Element>)
    | Nested(children: map<string, Raw>)
    | NestedStrings(lists: map<string, seq<string>>)
    | Invalid

  function Texts(elements: seq<Element>): seq<string> {
    if elements == [] then []
    else Texts(elements[..|elements| - 1])
         + (if elements[|elements| - 1].Text? then [elements[|elements| - 1].text] else [])
  }

  /** The values of a list of texts are these texts, in their order. */
  lemma {:induction false} TextsInOrder(elements: seq<Element>)
    requires forall i :: 0 <= i < |elements| ==> elements[i].Text?
    ensures |Texts(elements)| == |elements|
    ensures forall i :: 0 <= i < |elements| ==> Texts(elements)[i] == elements[i].text
  {
    if elements != [] {
      TextsInOrder(elements[..|elements| - 1]);
    }
  }

  /** The values of the leaf at the end of a path of keys, if there is one. */
  function At(r: Raw, path: seq<string>): Option<seq<string>>
    decreases |path|
  {
    match r
    case Single(text) => if path == [] then Some([text]) else None
    case Strings(texts) => if path == [] then Some(texts) else None
    case Elements(elements) => if path == [] then Some(Texts(elements)) else None
    case Nested(children) => if path != [] && path[0] in children then At(children[path[0]], path[1..]) else None
    case NestedStrings(lists) => if |path| == 1 && path[0] in lists then Some(lists[path[0]]) else None
    case Invalid => None
  }

  predicate AllText(elements: seq<Element>) {
    forall e :: e in elements ==> e.Text?
  }

  /** Every leaf has a type that can be flattened. */
  predicate Valid(r: Raw) {
    match r
    case Elements(elements) => AllText(elements)
    case Nested(children) => forall k :: k in children ==> Valid(children[k])
    case Invalid => false
    case _ => true
  }

  /** The value at a path of keys. */
  function Within(r: Raw, path: seq<string>): Option<Raw>
    decreases |path|
  {
    if path == [] then Some(r)
    else if r.Nested? && path[0] in r.children then Within(r.children[path[0]], path[1..])
    else None
  }

  predicate Flattenable(r: Raw) {
    !r.Invalid? && (r.Elements? ==> forall i :: 0 <= i < |r.elements| ==> r.elements[i].Text?)
  }

  /** A configuration is valid exactly when no value in it is of another type, and all elements of lists are texts. */
  lemma {:induction false} ValidEverywhere(r: Raw)
    ensures Valid(r) <==> forall p :: Within(r, p).Some? ==> Flattenable(Within(r, p).value)
  {
    if Valid(r) {
      forall p | Within(r, p).Some? ensures Flattenable(Within(r, p).value) {
        ValidBelow(r, p);
      }
    } else {
      var p := InvalidSomewhere(r);
      assert Within(r, p).Some? && !Flattenable(Within(r, p).value);
    }
  }

  lemma {:induction false} ValidBelow(r: Raw, p: seq<string>)
    requires Valid(r) && Within(r, p).Some?
    ensures Flattenable(Within(r, p).value)
    decreases |p|
  {
    if p != [] {
      ValidBelow(r.children[p[0]], p[1..]);
    }
  }

  lemma {:induction false} InvalidSomewhere(r: Raw) returns (p: seq<string>)
    requires !Valid(r)
    ensures Within(r, p).Some? && !Flattenable(Within(r, p).value)
    decreases r
  {
    if r.Nested? {
      var k :| k in r.children && !Valid(r.children[k]);
      var rest := InvalidSomewhere(r.children[k]);
      p := [k] + rest;
      assert p[1..] == rest;
    } else {
      p := [];
    }
  }

  // ---------------------------------------------------------------- the event types of the leaves

  /** The event type of key k of a map whose own event type is base; the outermost map has an empty one. */
  function Under(sep: string, base: string, k: string): string {
    if |base| > 0 then base + sep + k else k
  }

  /** The event type that flattening gives to the leaf at a path. */
  function Name(sep: string, base: string, r: Raw, path: seq<string>): string
    decreases |path|
  {
    match r
    case Nested(children) =>
      if path != [] && path[0] in children then Name(sep, Under(sep, base, path[0]), children[path[0]], path[1..])
      else base
    case NestedStrings(_) => if path != [] then base + sep + path[0] else base
    case _ => base
  }

  /** No two leaves get the same event type. */
  ghost predicate Unclashing(sep: string, base: string, r: Raw) {
    forall p, q :: At(r, p).Some? && At(r, q).Some? && Name(sep, base, r, p) == Name(sep, base, r, q) ==> p == q
  }

  /** The leaf at a path is written by Set; only a list of elements is written by Add, one element after another. */
  predicate IsSet(r: Raw, path: seq<string>)
    decreases |path|
  {
    match r
    case Elements(_) => false
    case Nested(children) => path != [] && path[0] in children && IsSet(children[path[0]], path[1..])
    case _ => true
  }

  /** A list without elements, which is not written at all. */
  predicate Unwritten(r: Raw, path: seq<string>) {
    At(r, path) == Some([]) && !IsSet(r, path)
  }

  /** Two leaves with one event type do each other no harm: both set the same values, or one is not written. */
  predicate Harmless(r: Raw, p: seq<string>, q: seq<string>) {
    (IsSet(r, p) && IsSet(r, q) && At(r, p) == At(r, q)) || Unwritten(r, p) || Unwritten(r, q)
  }

  ghost predicate Compatible(sep: string, base: string, r: Raw) {
    forall p, q :: p != q && At(r, p).Some? && At(r, q).Some? && Name(sep, base, r, p) == Name(sep, base, r, q) ==>
      Harmless(r, p, q)
  }

  /** None of its leaves has an event type that is taken. */
  ghost predicate Disjoint(taken: Events, sep: string, base: string, r: Raw) {
    forall p :: At(r, p).Some? ==> Name(sep, base, r, p) !in taken
  }

  ghost predicate Named(sep: string, base: string, r: Raw, event: string) {
    exists p :: At(r, p).Some? && At(r, p).value != [] && Name(sep, base, r, p) == event
  }

  /** `after` is `before` and, besides, every leaf that has values under its event type, and nothing else. */
  ghost predicate Exact(before: Events, after: Events, sep: string, base: string, r: Raw) {
    && (forall e :: e in before ==> e in after && after[e] == before[e])
    && (forall p :: At(r, p).Some? && At(r, p).value != [] ==>
          Name(sep, base, r, p) in after && after[Name(sep, base, r, p)] == At(r, p).value)
    && (forall e :: e in after ==> e in before || Named(sep, base, r, e))
  }

  /** There is only one such map, so the order in which a map is visited makes no difference. */
  lemma ExactIsUnique(before: Events, a: Events, b: Events, sep: string, base: string, r: Raw)
    requires Exact(before, a, sep, base, r) && Exact(before, b, sep, base, r)
    ensures a == b
  {
    ExactIncludes(before, a, b, sep, base, r);
    ExactIncludes(before, b, a, sep, base, r);
    assert a.Keys == b.Keys;
  }

  lemma ExactIncludes(before: Events, a: Events, b: Events, sep: string, base: string, r: Raw)
    requires Exact(before, a, sep, base, r) && Exact(before, b, sep, base, r)
    ensures forall e :: e in a ==> e in b && b[e] == a[e]
  {
  }

  /** When two leaves with different values, neither without any, get the same event type, no map at all is right. */
  lemma ClashIsFatal(before: Events, after: Events, sep: string, base: string, r: Raw, p: seq<string>, q: seq<string>)
    requires At(r, p).Some? && At(r, q).Some? && At(r, p).value != [] && At(r, q).value != []
    requires Name(sep, base, r, p) == Name(sep, base, r, q) && At(r, p) != At(r, q)
    ensures !Exact(before, after, sep, base, r)
  {
  }

  /** A key that contains the separator can clash with a nested one. */
  lemma ClashExample()
    ensures var r := Nested(map["a" := Nested(map["b" := Single("x")]), "a.b" := Single("y")]);
            !Unclashing(".", "", r) && (forall after :: !Exact(map[], after, ".", "", r))
  {
    var inner := Nested(map["b" := Single("x")]);
    var r := Nested(map["a" := inner, "a.b" := Single("y")]);
    var p, q := ["a", "b"], ["a.b"];
    assert p[1..] == ["b"] && p[1..][1..] == [] && q[1..] == [];
    assert At(inner, ["b"]) == Some(["x"]) && At(r, p) == Some(["x"]) && At(r, q) == Some(["y"]);
    assert Name(".", "a", inner, ["b"]) == "a.b" by {
      assert Under(".", "a", "b") == "a.b";
    }
    assert Name(".", "", r, p) == "a.b" && Name(".", "", r, q) == "a.b";
    forall after ensures !Exact(map[], after, ".", "", r) {
      ClashIsFatal(map[], after, ".", "", r, p, q);
    }
  }

  // ---------------------------------------------------------------- one leaf after another

  function SetEvent(m: Events, e: string, values: seq<string>): Events {
    if values == [] then m - {e} else m[e := values]
  }

  function AddEvent(m: Events, e: string, values: seq<string>): Events {
    if values == [] then m else m[e := (if e in m then m[e] else []) + values]
  }

  lemma AddTwice(m: Events, e: string, v: seq<string>, w: seq<string>)
    ensures AddEvent(AddEvent(m, e, v), e, w) == AddEvent(m, e, v + w)
  {
    var old' := if e in m then m[e] else [];
    assert old' + v + w == old' + (v + w);
    assert v == [] ==> v + w == w;
    assert w == [] ==> v + w == v;
  }

  /** The order of a visit: a leaf, or the keys of a map one after another.  Go may choose any. */
  datatype Visit = Here | Nothing | Then(key: string, first: Visit, rest: Visit)

  predicate VisitOf(r: Raw, v: Visit)
    decreases v
  {
    match r
    case Nested(children) => (
      match v
      case Here => false
      case Nothing => children == map[]
      case Then(k, first, rest) =>
        k in children && VisitOf(children[k], first) && VisitOf(Nested(children - {k}), rest))
    case NestedStrings(lists) => (
      match v
      case Here => false
      case Nothing => lists == map[]
      case Then(k, first, rest) => k in lists && first == Here && VisitOf(NestedStrings(lists - {k}), rest))
    case _ => v == Here
  }

  /** A map without one of its keys. */
  function Less(r: Raw, k: string): Raw {
    match r
    case Nested(children) => Nested(children - {k})
    case NestedStrings(lists) => NestedStrings(lists - {k})
    case _ => r
  }

  function Prefixed(k: string, paths: seq<seq<string>>): seq<seq<string>> {
    seq(|paths|, i requires 0 <= i < |paths| => [k] + paths[i])
  }

  /** The paths of the leaves in the order of the visit. */
  function Paths(v: Visit): seq<seq<string>> {
    match v
    case Here => [[]]
    case Nothing => []
    case Then(k, first, rest) => Prefixed(k, Paths(first)) + Paths(rest)
  }

  function WriteLeaf(m: Events, sep: string, base: string, r: Raw, p: seq<string>): Events {
    if At(r, p).None? then m
    else if IsSet(r, p) then SetEvent(m, Name(sep, base, r, p), At(r, p).value)
    else AddEvent(m, Name(sep, base, r, p), At(r, p).value)
  }

  /** What writing the leaves at these paths, in this order, makes of m. */
  function Play(m: Events, sep: string, base: string, r: Raw, paths: seq<seq<string>>): Events {
    if paths == [] then m
    else WriteLeaf(Play(m, sep, base, r, paths[..|paths| - 1]), sep, base, r, paths[|paths| - 1])
  }

  lemma {:induction false} PlayAppend(m: Events, sep: string, base: string, r: Raw, a: seq<seq<string>>,
                                      b: seq<seq<string>>)
    ensures Play(m, sep, base, r, a + b) == Play(Play(m, sep, base, r, a), sep, base, r, b)
    decreases |b|
  {
    if b == [] {
      assert a + b == a;
    } else {
      PlayAppend(m, sep, base, r, a, b[..|b| - 1]);
      assert (a + b)[..|a + b| - 1] == a + b[..|b| - 1];
    }
  }

  /** A path below key k of a map is a path of the map. */
  lemma Below(sep: string, base: string, children: map<string, Raw>, k: string, q: seq<string>)
    requires k in children
    ensures At(Nested(children), [k] + q) == At(children[k], q)
    ensures Name(sep, base, Nested(children), [k] + q) == Name(sep, Under(sep, base, k), children[k], q)
    ensures IsSet(Nested(children), [k] + q) == IsSet(children[k], q)
  {
    assert ([k] + q)[1..] == q;
  }

  /** Writing the leaves below key k of a map is writing those of the value there. */
  lemma {:induction false} PlayBelow(m: Events, sep: string, base: string, children: map<string, Raw>, k: string,
                                     paths: seq<seq<string>>)
    requires k in children
    ensures Play(m, sep, base, Nested(children), Prefixed(k, paths)) ==
            Play(m, sep, Under(sep, base, k), children[k], paths)
    decreases |paths|
  {
    if paths != [] {
      var n := |paths| - 1;
      PlayBelow(m, sep, base, children, k, paths[..n]);
      assert Prefixed(k, paths)[..n] == Prefixed(k, paths[..n]);
      Below(sep, base, children, k, paths[n]);
    }
  }

  lemma PlayKey(m: Events, sep: string, base: string, children: map<string, Raw>, done: seq<seq<string>>, k: string,
                paths: seq<seq<string>>)
    requires k in children
    ensures Play(m, sep, base, Nested(children), done + Prefixed(k, paths)) ==
            Play(Play(m, sep, base, Nested(children), done), sep, Under(sep, base, k), children[k], paths)
  {
    PlayAppend(m, sep, base, Nested(children), done, Prefixed(k, paths));
    PlayBelow(Play(m, sep, base, Nested(children), done), sep, base, children, k, paths);
  }

  lemma PlayList(m: Events, sep: string, base: string, lists: map<string, seq<string>>, done: seq<seq<string>>,
                 k: string)
    requires k in lists
    ensures Play(m, sep, base, NestedStrings(lists), done + Prefixed(k, Paths(Here))) ==
            SetEvent(Play(m, sep, base, NestedStrings(lists), done), base + sep + k, lists[k])
  {
    assert [k] + [] == [k] && Prefixed(k, [[]]) == [[k]];
    assert (done + [[k]])[..|done|] == done;
  }

  /** A visit is under way: `done` has been visited, and `v` of the `rest` is to come. */
  ghost predicate Visiting(visit: Visit, whole: Raw, done: seq<seq<string>>, v: Visit, rest: Raw) {
    && VisitOf(rest, v) && done + Paths(v) == Paths(visit)
    && match whole
       case Nested(children) =>
         rest.Nested? && rest.children.Keys <= children.Keys
         && (forall k :: k in rest.children ==> rest.children[k] == children[k])
         && (forall k :: k in children && k !in rest.children ==> Valid(children[k]))
       case NestedStrings(lists) =>
         rest.NestedStrings? && rest.lists.Keys <= lists.Keys
         && (forall k :: k in rest.lists ==> rest.lists[k] == lists[k])
       case _ => false
  }

  /** The next key, if there is one, is of the whole, and so is its visit. */
  lemma VisitingNext(visit: Visit, whole: Raw, done: seq<seq<string>>, v: Visit, rest: Raw)
    requires Visiting(visit, whole, done, v, rest) && v.Then?
    ensures whole.Nested? ==> v.key in whole.children && VisitOf(whole.children[v.key], v.first)
    ensures whole.NestedStrings? ==> v.key in whole.lists && v.first == Here
  {
  }

  lemma VisitingStep(visit: Visit, whole: Raw, done: seq<seq<string>>, v: Visit, rest: Raw)
    requires Visiting(visit, whole, done, v, rest) && v.Then?
    requires whole.Nested? ==> v.key in whole.children && Valid(whole.children[v.key])
    ensures Visiting(visit, whole, done + Prefixed(v.key, Paths(v.first)), v.rest, Less(rest, v.key))
  {
    assert done + (Prefixed(v.key, Paths(v.first)) + Paths(v.rest)) ==
           done + Prefixed(v.key, Paths(v.first)) + Paths(v.rest);
  }

  lemma VisitingEnds(visit: Visit, whole: Raw, done: seq<seq<string>>, v: Visit, rest: Raw)
    requires Visiting(visit, whole, done, v, rest) && !v.Then?
    ensures done == Paths(visit) && Valid(whole)
  {
    assert done + [] == done;
  }

  // ---------------------------------------------------------------- a visit lists the leaves

  lemma {:induction false} PathsStart(r: Raw, v: Visit)
    requires VisitOf(r, v) && (r.Nested? || r.NestedStrings?)
    ensures forall p :: p in Paths(v) ==> p != [] && p[0] in if r.Nested? then r.children.Keys else r.lists.Keys
    decreases v
  {
    if v.Then? {
      PathsStart(Less(r, v.key), v.rest);
    }
  }

  /** Taking key k out of a map takes out the leaves below it. */
  lemma Without(r: Raw, k: string, p: seq<string>)
    requires (r.Nested? && k in r.children) || (r.NestedStrings? && k in r.lists)
    ensures At(Less(r, k), p) == if p != [] && p[0] == k then None else At(r, p)
  {
  }

  lemma {:induction false} PathsAreLeaves(r: Raw, v: Visit, p: seq<string>)
    requires VisitOf(r, v) && Valid(r)
    ensures p in Paths(v) <==> At(r, p).Some?
    decreases v
  {
    if v.Then? {
      var k := v.key;
      Without(r, k, p);
      PathsStart(r, v);
      PathsAreLeaves(Less(r, k), v.rest, p);
      if p != [] && p[0] == k {
        PrefixedHas(k, Paths(v.first), p);
        if r.Nested? {
          PathsAreLeaves(r.children[k], v.first, p[1..]);
        } else {
          assert Paths(v.first) == [[]] && (p[1..] == [] <==> |p| == 1);
        }
      } else {
        assert p !in Prefixed(k, Paths(v.first));
      }
    }
  }

  lemma PrefixedHas(k: string, paths: seq<seq<string>>, p: seq<string>)
    requires p != [] && p[0] == k
    ensures p in Prefixed(k, paths) <==> p[1..] in paths
  {
    assert p == [k] + p[1..];
    if p[1..] in paths {
      var i :| 0 <= i < |paths| && paths[i] == p[1..];
      assert Prefixed(k, paths)[i] == p;
    }
    if p in Prefixed(k, paths) {
      var i :| 0 <= i < |paths| && Prefixed(k, paths)[i] == p;
      assert ([k] + paths[i])[1..] == paths[i];
    }
  }

  lemma {:induction false} PathsAreDistinct(r: Raw, v: Visit)
    requires VisitOf(r, v)
    ensures C.Distinct(Paths(v))
    decreases v
  {
    if v.Then? {
      var k := v.key;
      PathsStart(Less(r, k), v.rest);
      PathsAreDistinct(Less(r, k), v.rest);
      if r.Nested? {
        PathsAreDistinct(r.children[k], v.first);
      }
      var a, b := Prefixed(k, Paths(v.first)), Paths(v.rest);
      forall i, j | 0 <= i < j < |a + b| ensures (a + b)[i] != (a + b)[j] {
        if j < |a| {
          assert a[i][1..] == Paths(v.first)[i] && a[j][1..] == Paths(v.first)[j];
        } else if i < |a| {
          assert a[i][0] == k && b[j - |a|] in b;
        }
      }
    }
  }

  // ---------------------------------------------------------------- when flattening is exact

  /** m is `before` and the leaves at these paths. */
  ghost predicate Right(before: Events, m: Events, sep: string, base: string, r: Raw, paths: seq<seq<string>>) {
    && (forall e :: e in before ==> e in m && m[e] == before[e])
    && (forall p :: p in paths && At(r, p).Some? && At(r, p).value != [] ==>
          Name(sep, base, r, p) in m && m[Name(sep, base, r, p)] == At(r, p).value)
    && (forall e :: e in m ==> e in before || NamedAmong(sep, base, r, paths, e))
  }

  ghost predicate NamedAmong(sep: string, base: string, r: Raw, paths: seq<seq<string>>, e: string) {
    exists p :: p in paths && At(r, p).Some? && At(r, p).value != [] && Name(sep, base, r, p) == e
  }

  lemma RightStep(before: Events, m: Events, sep: string, base: string, r: Raw, paths: seq<seq<string>>, p: seq<string>)
    requires Right(before, m, sep, base, r, paths) && p !in paths && At(r, p).Some?
    requires forall q :: q in paths ==> At(r, q).Some?
    requires Compatible(sep, base, r) && Disjoint(before, sep, base, r)
    ensures Right(before, WriteLeaf(m, sep, base, r, p), sep, base, r, paths + [p])
  {
    var after := WriteLeaf(m, sep, base, r, p);
    assert forall d :: d in before ==> d in after && after[d] == before[d];
    forall q | q in paths + [p] && At(r, q).Some? && At(r, q).value != []
      ensures Name(sep, base, r, q) in after && after[Name(sep, base, r, q)] == At(r, q).value
    {
      LeafStands(before, m, sep, base, r, paths, p, q);
    }
    forall d | d in after ensures d in before || NamedAmong(sep, base, r, paths + [p], d) {
      NothingElse(before, m, sep, base, r, paths, p, d);
    }
  }

  lemma LeafStands(before: Events, m: Events, sep: string, base: string, r: Raw, paths: seq<seq<string>>,
                   p: seq<string>, q: seq<string>)
    requires Right(before, m, sep, base, r, paths) && p !in paths && At(r, p).Some?
    requires forall l :: l in paths ==> At(r, l).Some?
    requires Compatible(sep, base, r) && Disjoint(before, sep, base, r)
    requires q in paths + [p] && At(r, q).Some? && At(r, q).value != []
    ensures var after, e := WriteLeaf(m, sep, base, r, p), Name(sep, base, r, q);
            e in after && after[e] == At(r, q).value
  {
    if q == p {
      forall l | l in paths && Name(sep, base, r, l) == Name(sep, base, r, p) ensures Harmless(r, p, l) { }
      if !IsSet(r, p) {
        assert !NamedAmong(sep, base, r, paths, Name(sep, base, r, p));
        assert [] + At(r, p).value == At(r, p).value;
      }
    } else if Name(sep, base, r, q) == Name(sep, base, r, p) {
      assert Harmless(r, p, q);
    }
  }

  lemma NothingElse(before: Events, m: Events, sep: string, base: string, r: Raw, paths: seq<seq<string>>,
                    p: seq<string>, d: string)
    requires Right(before, m, sep, base, r, paths) && At(r, p).Some? && d in WriteLeaf(m, sep, base, r, p)
    ensures d in before || NamedAmong(sep, base, r, paths + [p], d)
  {
    if d in m && d !in before {
      var q :| q in paths && At(r, q).Some? && At(r, q).value != [] && Name(sep, base, r, q) == d;
      assert q in paths + [p];
    } else if d !in m {
      assert p in paths + [p];
    }
  }

  lemma {:induction false} PlayIsRight(before: Events, sep: string, base: string, r: Raw, paths: seq<seq<string>>)
    requires C.Distinct(paths) && forall p :: p in paths ==> At(r, p).Some?
    requires Compatible(sep, base, r) && Disjoint(before, sep, base, r)
    ensures Right(before, Play(before, sep, base, r, paths), sep, base, r, paths)
    decreases |paths|
  {
    if paths != [] {
      var rest, p := paths[..|paths| - 1], paths[|paths| - 1];
      assert p !in rest && p in paths && paths == rest + [p];
      PlayIsRight(before, sep, base, r, rest);
      PlayOneMore(before, sep, base, r, rest, p);
      RightStep(before, Play(before, sep, base, r, rest), sep, base, r, rest, p);
    }
  }

  lemma PlayOneMore(m: Events, sep: string, base: string, r: Raw, paths: seq<seq<string>>, p: seq<string>)
    ensures Play(m, sep, base, r, paths + [p]) == WriteLeaf(Play(m, sep, base, r, paths), sep, base, r, p)
  {
    assert (paths + [p])[..|paths|] == paths;
  }

  /** With compatible leaves every order of visiting gives exactly the leaves that have values. */
  lemma CompatibleIsExact(before: Events, sep: string, base: string, r: Raw, v: Visit)
    requires VisitOf(r, v) && Valid(r) && Compatible(sep, base, r) && Disjoint(before, sep, base, r)
    ensures Exact(before, Play(before, sep, base, r, Paths(v)), sep, base, r)
  {
    forall p ensures p in Paths(v) <==> At(r, p).Some? {
      PathsAreLeaves(r, v, p);
    }
    PathsAreDistinct(r, v);
    PlayIsRight(before, sep, base, r, Paths(v));
    var after := Play(before, sep, base, r, Paths(v));
    forall e | e in after && e !in before ensures Named(sep, base, r, e) {
      var p :| p in Paths(v) && At(r, p).Some? && At(r, p).value != [] && Name(sep, base, r, p) == e;
    }
  }

  // ---------------------------------------------------------------- and when it is not

  function Keys(r: Raw): set<string> {
    match r
    case Nested(children) => children.Keys
    case NestedStrings(lists) => lists.Keys
    case _ => {}
  }

  /** There is a visit of any value. */
  lemma {:induction false} AnyVisit(r: Raw) returns (v: Visit)
    ensures VisitOf(r, v)
    decreases r, 1, 0
  {
    if r.Nested? || r.NestedStrings? {
      v := VisitWithout(r, {});
      assert r.Nested? ==> r.children - {} == r.children;
      assert r.NestedStrings? ==> r.lists - {} == r.lists;
    } else {
      v := Here;
    }
  }

  /** What is left of a map without some keys. */
  function Rest(r: Raw, gone: set<string>): Raw {
    match r
    case Nested(children) => Nested(children - gone)
    case NestedStrings(lists) => NestedStrings(lists - gone)
    case _ => r
  }

  lemma {:induction false} VisitWithout(r: Raw, gone: set<string>) returns (v: Visit)
    requires (r.Nested? || r.NestedStrings?) && gone <= Keys(r)
    ensures VisitOf(Rest(r, gone), v)
    decreases r, 0, |Keys(r) - gone|
  {
    if Keys(r) - gone == {} {
      v := Nothing;
      assert r.Nested? ==> (r.children - gone).Keys == {};
      assert r.NestedStrings? ==> (r.lists - gone).Keys == {};
    } else {
      var k :| k in Keys(r) - gone;
      assert Keys(r) - (gone + {k}) == Keys(r) - gone - {k};
      var rest := VisitWithout(r, gone + {k});
      var first := Here;
      if r.Nested? {
        first := AnyVisit(r.children[k]);
        assert r.children - gone - {k} == r.children - (gone + {k});
      } else {
        assert r.lists - gone - {k} == r.lists - (gone + {k});
      }
      v := Then(k, first, rest);
    }
  }

  /** A visit with one more key at its end. */
  function Finally(v: Visit, k: string, last: Visit): Visit {
    match v
    case Then(key, first, rest) => Then(key, first, Finally(rest, k, last))
    case _ => Then(k, last, Nothing)
  }

  lemma Reassociated<T>(a: seq<T>, b: seq<T>, c: seq<T>)
    ensures a + (b + c) == a + b + c
  {
  }

  lemma {:induction false} FinallyVisits(r: Raw, v: Visit, k: string, last: Visit)
    requires r.Nested? || r.NestedStrings?
    requires k in Keys(r) && VisitOf(Less(r, k), v)
    requires if r.Nested? then VisitOf(r.children[k], last) else last == Here
    ensures VisitOf(r, Finally(v, k, last)) && Paths(Finally(v, k, last)) == Paths(v) + Prefixed(k, Paths(last))
    decreases v
  {
    if v.Then? {
      if r.Nested? {
        assert r.children - {k} - {v.key} == r.children - {v.key} - {k};
      } else {
        assert r.lists - {k} - {v.key} == r.lists - {v.key} - {k};
      }
      FinallyVisits(Less(r, v.key), v.rest, k, last);
      Reassociated(Prefixed(v.key, Paths(v.first)), Paths(v.rest), Prefixed(k, Paths(last)));
    } else {
      assert r.Nested? ==> (r.children - {k}).Keys == {};
      assert r.NestedStrings? ==> (r.lists - {k}).Keys == {};
    }
  }

  /** Any leaf can be the last to be visited. */
  lemma {:induction false} LastVisited(r: Raw, p: seq<string>) returns (v: Visit, before: seq<seq<string>>)
    requires At(r, p).Some?
    ensures VisitOf(r, v) && Paths(v) == before + [p]
    decreases |p|
  {
    if r.Nested? || r.NestedStrings? {
      var k, last, paths := p[0], Here, [];
      var others := VisitWithout(r, {k});
      assert Rest(r, {k}) == Less(r, k);
      if r.Nested? {
        last, paths := LastVisited(r.children[k], p[1..]);
      }
      FinallyVisits(r, others, k, last);
      v, before := Finally(others, k, last), Paths(others) + Prefixed(k, paths);
      assert p == [k] + p[1..] && (r.NestedStrings? ==> p[1..] == []);
      assert Prefixed(k, paths + [p[1..]]) == Prefixed(k, paths) + [p];
      assert Paths(last) == paths + [p[1..]];
    } else {
      v, before := Here, [];
    }
  }

  /** When a leaf that sets its values is visited last, a leaf with other values and the same event type is lost. */
  lemma SetLast(sep: string, base: string, r: Raw, before: seq<seq<string>>, p: seq<string>, q: seq<string>)
    requires At(r, p).Some? && At(r, q).Some? && IsSet(r, p) && At(r, q).value != [] && At(r, p) != At(r, q)
    requires Name(sep, base, r, p) == Name(sep, base, r, q)
    ensures !Exact(map[], Play(map[], sep, base, r, before + [p]), sep, base, r)
  {
    assert (before + [p])[..|before|] == before;
  }

  /** No leaf clears the event type, so once it has values it keeps some. */
  lemma {:induction false} StaysPresent(sep: string, base: string, r: Raw, paths: seq<seq<string>>, q: seq<string>)
    requires q in paths && At(r, q).Some? && At(r, q).value != []
    requires forall p :: At(r, p) == Some([]) && Name(sep, base, r, p) == Name(sep, base, r, q) ==> !IsSet(r, p)
    ensures var m, e := Play(map[], sep, base, r, paths), Name(sep, base, r, q); e in m && m[e] != []
    decreases |paths|
  {
    var n := |paths| - 1;
    if paths[n] != q {
      assert q in paths[..n];
      StaysPresent(sep, base, r, paths[..n], q);
    }
  }

  /** When an element list is visited last, its values come after those there are. */
  lemma AddLast(sep: string, base: string, r: Raw, before: seq<seq<string>>, p: seq<string>, q: seq<string>)
    requires At(r, p).Some? && !IsSet(r, p) && At(r, p).value != []
    requires q in before && At(r, q).Some? && At(r, q).value != [] && Name(sep, base, r, p) == Name(sep, base, r, q)
    requires forall z :: At(r, z) == Some([]) && Name(sep, base, r, z) == Name(sep, base, r, q) ==> !IsSet(r, z)
    ensures !Exact(map[], Play(map[], sep, base, r, before + [p]), sep, base, r)
  {
    StaysPresent(sep, base, r, before, q);
    assert (before + [p])[..|before|] == before;
  }

  /** Some leaf sets this event type to nothing. */
  ghost predicate Cleared(sep: string, base: string, r: Raw, e: string) {
    exists z :: At(r, z) == Some([]) && IsSet(r, z) && Name(sep, base, r, z) == e
  }

  /** p is a list with elements, q another leaf of that event type: there is an order that does not keep both. */
  lemma ListClashes(sep: string, base: string, r: Raw, p: seq<string>, q: seq<string>) returns (v: Visit)
    requires Valid(r) && p != q && At(r, p).Some? && !IsSet(r, p) && At(r, p).value != []
    requires At(r, q).Some? && !Unwritten(r, q) && Name(sep, base, r, p) == Name(sep, base, r, q)
    ensures VisitOf(r, v) && !Exact(map[], Play(map[], sep, base, r, Paths(v)), sep, base, r)
  {
    var before;
    if Cleared(sep, base, r, Name(sep, base, r, p)) {
      var z :| At(r, z) == Some([]) && IsSet(r, z) && Name(sep, base, r, z) == Name(sep, base, r, p);
      v, before := LastVisited(r, z);
      SetLast(sep, base, r, before, z, p);
    } else {
      v, before := LastVisited(r, p);
      PathsAreLeaves(r, v, q);
      AddLast(sep, base, r, before, p, q);
    }
  }

  /** Without compatibility some order of visiting gives something else. */
  lemma IncompatibleIsNot(sep: string, base: string, r: Raw) returns (v: Visit)
    requires Valid(r) && !Compatible(sep, base, r)
    ensures VisitOf(r, v) && !Exact(map[], Play(map[], sep, base, r, Paths(v)), sep, base, r)
  {
    var p, q :| p != q && At(r, p).Some? && At(r, q).Some? && Name(sep, base, r, p) == Name(sep, base, r, q)
      && !Harmless(r, p, q);
    if !IsSet(r, p) {
      v := ListClashes(sep, base, r, p, q);
    } else if !IsSet(r, q) {
      v := ListClashes(sep, base, r, q, p);
    } else {
      var before;
      var last, other := if At(r, q).value != [] then p else q, if At(r, q).value != [] then q else p;
      v, before := LastVisited(r, last);
      SetLast(sep, base, r, before, last, other);
    }
  }

  /** The flat map that an order of visiting gives. */
  function Flat(sep: string, r: Raw, v: Visit): Events {
    Play(map[], sep, "", r, Paths(v))
  }

  /** Flattening is exact for every order of visiting if and only if the leaves are compatible. */
  lemma ExactIffCompatible(sep: string, r: Raw)
    requires Valid(r)
    ensures Compatible(sep, "", r) <==> forall v :: VisitOf(r, v) ==> Exact(map[], Flat(sep, r, v), sep, "", r)
  {
    if Compatible(sep, "", r) {
      forall v | VisitOf(r, v) ensures Exact(map[], Flat(sep, r, v), sep, "", r) {
        CompatibleIsExact(map[], sep, "", r, v);
      }
    } else {
      var v := IncompatibleIsNot(sep, "", r);
      assert !Exact(map[], Flat(sep, r, v), sep, "", r);
    }
  }

  const TANGLED_LEAF := Nested(map["b" := Single("x")])
  const TANGLED := Nested(map["a" := TANGLED_LEAF, "a.b" := Strings([])])
  const VISIT_LEAF := Then("b", Here, Nothing)

  lemma TangledVisits()
    ensures VisitOf(TANGLED, Then("a", VISIT_LEAF, Then("a.b", Here, Nothing)))
    ensures VisitOf(TANGLED, Then("a.b", Here, Then("a", VISIT_LEAF, Nothing)))
    ensures Valid(TANGLED)
  {
    var inner, outer := TANGLED_LEAF.children, TANGLED.children;
    assert inner - {"b"} == map[];
    assert VisitOf(TANGLED_LEAF, VISIT_LEAF);
    assert outer - {"a"} - {"a.b"} == map[] && outer - {"a.b"} - {"a"} == map[];
    assert VisitOf(Nested(outer - {"a"}), Then("a.b", Here, Nothing));
    assert VisitOf(Nested(outer - {"a.b"}), Then("a", VISIT_LEAF, Nothing));
  }

  lemma TangledLeaves()
    ensures At(TANGLED, ["a", "b"]) == Some(["x"]) && IsSet(TANGLED, ["a", "b"])
    ensures At(TANGLED, ["a.b"]) == Some([]) && IsSet(TANGLED, ["a.b"])
    ensures Name(".", "", TANGLED, ["a", "b"]) == "a.b" == Name(".", "", TANGLED, ["a.b"])
  {
    var p, q := ["a", "b"], ["a.b"];
    assert p[1..] == ["b"] && p[1..][1..] == [] && q[1..] == [];
    assert At(TANGLED_LEAF, ["b"]) == Some(["x"]) && IsSet(TANGLED_LEAF, ["b"]);
    assert Under(".", "a", "b") == "a.b";
    assert Name(".", "a", TANGLED_LEAF, ["b"]) == "a.b";
  }

  lemma TangledPaths()
    ensures Paths(Then("a", VISIT_LEAF, Then("a.b", Here, Nothing))) == [["a", "b"], ["a.b"]]
    ensures Paths(Then("a.b", Here, Then("a", VISIT_LEAF, Nothing))) == [["a.b"], ["a", "b"]]
  {
    assert ["b"] + [] == ["b"] && ["a.b"] + [] == ["a.b"] && ["a"] + ["b"] == ["a", "b"];
    assert Prefixed("b", [[]]) == [["b"]] && Paths(VISIT_LEAF) == [["b"]];
    assert Prefixed("a", [["b"]]) == [["a", "b"]] && Prefixed("a.b", [[]]) == [["a.b"]];
    assert Paths(Then("a.b", Here, Nothing)) == [["a.b"]] && Paths(Then("a", VISIT_LEAF, Nothing)) == [["a", "b"]];
  }

  lemma TwoWrites(m: Events, sep: string, base: string, r: Raw, p: seq<string>, q: seq<string>)
    ensures Play(m, sep, base, r, [p, q]) == WriteLeaf(WriteLeaf(m, sep, base, r, p), sep, base, r, q)
  {
    assert [p, q][..1] == [p] && [p][..0] == [];
    assert Play(m, sep, base, r, [p]) == WriteLeaf(m, sep, base, r, p);
  }

  /** An empty list under a key that looks nested erases the nested leaf or not, as the order has it. */
  lemma OrderMatters()
    ensures Valid(TANGLED) && !Compatible(".", "", TANGLED)
    ensures var lost := Then("a", VISIT_LEAF, Then("a.b", Here, Nothing));
            VisitOf(TANGLED, lost) && Flat(".", TANGLED, lost) == map[]
            && !Exact(map[], Flat(".", TANGLED, lost), ".", "", TANGLED)
    ensures var kept := Then("a.b", Here, Then("a", VISIT_LEAF, Nothing));
            VisitOf(TANGLED, kept) && Flat(".", TANGLED, kept) == map["a.b" := ["x"]]
  {
    TangledVisits();
    TangledLeaves();
    TangledPaths();
    TwoWrites(map[], ".", "", TANGLED, ["a", "b"], ["a.b"]);
    TwoWrites(map[], ".", "", TANGLED, ["a.b"], ["a", "b"]);
    assert ["a", "b"] != ["a.b"] && !Harmless(TANGLED, ["a", "b"], ["a.b"]);
  }
}
