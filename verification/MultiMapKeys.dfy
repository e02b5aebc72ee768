/** Keys for which flattening keeps the meaning: not empty, and without the separator. */
module MultiMapKeys {
  import opened Options
  import opened MultiMap

  /** A key that is not empty and does not contain the separator. */
  predicate Clean(k: string, c: char) {
    k != "" && c !in k
  }

  predicate Keyed(r: Raw, c: char) {
    match r
    case Nested(children) => forall k :: k in children ==> Clean(k, c) && Keyed(children[k], c)
    case NestedStrings(lists) => forall k :: k in lists ==> Clean(k, c)
    case _ => true
  }

  predicate CleanPath(p: seq<string>, c: char) {
    forall k :: k in p ==> Clean(k, c)
  }

  function Join(p: seq<string>, c: char): string {
    if p == [] then "" else if |p| == 1 then p[0] else p[0] + [c] + Join(p[1..], c)
  }

  lemma {:induction false} JoinAppend(p: seq<string>, k: string, c: char)
    requires p != []
    ensures Join(p + [k], c) == Join(p, c) + [c] + k
  {
    if |p| == 1 {
      assert (p + [k])[1..] == [k];
    } else {
      JoinAppend(p[1..], k, c);
      assert (p + [k])[1..] == p[1..] + [k];
    }
  }

  lemma JoinNonempty(p: seq<string>, c: char)
    requires p != [] && CleanPath(p, c)
    ensures Join(p, c) != ""
  {
    assert p[0] in p;
  }

  /** The first key of a path is what comes before the first separator of its text. */
  lemma {:induction false} JoinIsInjective(a: seq<string>, b: seq<string>, c: char)
    requires CleanPath(a, c) && CleanPath(b, c) && Join(a, c) == Join(b, c)
    ensures a == b
    decreases |a|
  {
    if a == [] || b == [] {
      if a != b {
        JoinNonempty(if a == [] then b else a, c);
      }
    } else {
      SameFirst(a, b, c);
      if |a| > 1 {
        assert Join(a, c)[|a[0]| + 1..] == Join(a[1..], c);
        assert Join(b, c)[|b[0]| + 1..] == Join(b[1..], c);
        JoinIsInjective(a[1..], b[1..], c);
      }
      assert a == [a[0]] + a[1..] && b == [b[0]] + b[1..];
    }
  }

  lemma SameFirst(a: seq<string>, b: seq<string>, c: char)
    requires a != [] && b != [] && CleanPath(a, c) && CleanPath(b, c) && Join(a, c) == Join(b, c)
    ensures a[0] == b[0] && (|a| > 1 <==> |b| > 1)
  {
    FirstEnds(a, b, c);
    FirstEnds(b, a, c);
    var s := Join(a, c);
    assert a[0] == s[..|a[0]|] && b[0] == s[..|b[0]|];
  }

  lemma FirstEnds(a: seq<string>, b: seq<string>, c: char)
    requires a != [] && b != [] && CleanPath(a, c) && CleanPath(b, c) && Join(a, c) == Join(b, c)
    ensures |a[0]| <= |Join(a, c)| && Join(a, c)[..|a[0]|] == a[0]
    ensures |b[0]| <= |a[0]| && (|a| == 1 ==> |b| == 1)
  {
    var s := Join(a, c);
    assert a[0] in a && b[0] in b;
    assert s[..|a[0]|] == a[0] && s[..|b[0]|] == b[0];
    assert |a| > 1 ==> s[|a[0]|] == c;
    assert |b| > 1 ==> s[|b[0]|] == c;
    assert forall i :: 0 <= i < |a[0]| ==> s[i] == a[0][i] && a[0][i] != c;
    assert forall i :: 0 <= i < |b[0]| ==> s[i] == b[0][i] && b[0][i] != c;
  }

  /** With proper keys, the event type of a leaf is its path, joined. */
  lemma {:induction false} NameIsJoin(c: char, r: Raw, path: seq<string>, p: seq<string>)
    requires Keyed(r, c) && CleanPath(p, c) && At(r, path).Some? && (p == [] ==> r.Nested?)
    ensures Name([c], Join(p, c), r, path) == Join(p + path, c) && CleanPath(path, c)
    decreases |path|
  {
    if p != [] {
      JoinNonempty(p, c);
    }
    if r.Nested? {
      var k := path[0];
      assert Under([c], Join(p, c), k) == Join(p + [k], c) by {
        if p != [] {
          JoinAppend(p, k, c);
        } else {
          assert p + [k] == [k];
        }
      }
      NameIsJoin(c, r.children[k], path[1..], p + [k]);
      assert p + [k] + path[1..] == p + path && path == [k] + path[1..];
    } else if r.NestedStrings? {
      JoinAppend(p, path[0], c);
      assert path == [path[0]];
    } else {
      assert p + path == p;
    }
  }

  /** With proper keys and a separator of one character, no two leaves get the same event type. */
  lemma ProperKeysDoNotClash(c: char, r: Raw)
    requires Keyed(r, c) && r.Nested?
    ensures Unclashing([c], "", r)
  {
    forall p, q | At(r, p).Some? && At(r, q).Some? && Name([c], "", r, p) == Name([c], "", r, q) ensures p == q {
      NameIsJoin(c, r, p, []);
      NameIsJoin(c, r, q, []);
      assert [] + p == p && [] + q == q;
      JoinIsInjective(p, q, c);
    }
  }

  /** Some leaf has these values and this joined path. */
  ghost predicate JoinedLeaf(c: char, r: Raw, e: string, values: seq<string>) {
    exists path :: At(r, path) == Some(values) && e == Join(path, c)
  }

  /** The result maps the joined path of each leaf that has values to these values, and maps nothing else. */
  ghost predicate Flattened(c: char, r: Raw, result: Events) {
    && (forall path :: At(r, path).Some? && At(r, path).value != [] ==>
          Join(path, c) in result && result[Join(path, c)] == At(r, path).value)
    && (forall e :: e in result ==> result[e] != [] && JoinedLeaf(c, r, e, result[e]))
  }

  /** What flattening means, for proper keys. */
  lemma FlatteningKeepsMeaning(c: char, r: Raw, result: Events)
    requires Keyed(r, c) && r.Nested? && Exact(map[], result, [c], "", r)
    ensures Flattened(c, r, result)
  {
    forall path | At(r, path).Some? ensures Name([c], "", r, path) == Join(path, c) {
      NameIsJoin(c, r, path, []);
      assert [] + path == path;
    }
    forall e | e in result ensures result[e] != [] && JoinedLeaf(c, r, e, result[e]) {
      assert Named([c], "", r, e);
      var p :| At(r, p).Some? && At(r, p).value != [] && Name([c], "", r, p) == e;
      assert At(r, p) == Some(result[e]);
    }
  }
}
