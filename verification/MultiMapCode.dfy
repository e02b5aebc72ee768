/** Event multimaps and the code that flattens nested configuration into one. */
module MultiMapCode {
  import opened Options
  import opened MultiMap
  import opened MultiMapKeys

  class EventMap {
    var m: Events

    constructor ()
      ensures m == map[]
    {
      m := map[];
    }

    /** Adding no values does nothing; otherwise they come after the ones there are. */
    method Add(eventType: string, mappedTo: seq<string>)
      modifies this
      ensures m == AddEvent(old(m), eventType, mappedTo)
      ensures mappedTo == [] ==> m == old(m)
      ensures mappedTo != [] ==>
                && m.Keys == old(m).Keys + {eventType}
                && m[eventType] == (if eventType in old(m) then old(m)[eventType] + mappedTo else mappedTo)
      ensures forall e :: e in old(m) && e != eventType ==> e in m && m[e] == old(m)[e]
    {
      assert [] + mappedTo == mappedTo;
      if |mappedTo| == 0 {
        return;
      }
      m := m[eventType := (if eventType in m then m[eventType] else []) + mappedTo];
    }

    /** Setting no values removes the event type. */
    method Set(eventType: string, mappedTo: seq<string>)
      modifies this
      ensures m == SetEvent(old(m), eventType, mappedTo)
      ensures eventType in m <==> mappedTo != []
      ensures mappedTo != [] ==> m[eventType] == mappedTo
      ensures forall e :: e != eventType ==> (e in m <==> e in old(m)) && (e in m ==> m[e] == old(m)[e])
    {
      if |mappedTo| == 0 {
        m := m - {eventType};
        return;
      }
      m := m[eventType := mappedTo];
    }

    /** Event type i of the list is there and none before it is. */
    ghost predicate FirstHit(all: seq<string>, i: nat)
      requires i < |all|
      reads this
    {
      all[i] in m && forall j :: 0 <= j < i ==> all[j] !in m
    }

    /** The values of the first of the event types that is there. */
    method Get(eventType: string, fallback: seq<string>) returns (values: seq<string>, ok: bool)
      ensures !ok ==> forall e :: e in [eventType] + fallback ==> e !in m
      ensures ok ==> exists i :: 0 <= i <= |fallback| && FirstHit([eventType] + fallback, i)
                                 && values == m[([eventType] + fallback)[i]]
    {
      ghost var all := [eventType] + fallback;
      ok := eventType in m;
      values := if ok then m[eventType] else [];
      ghost var at := 0;
      if !ok {
        var i := 0;
        while i < |fallback| && !ok
          invariant 0 <= i <= |fallback| && 0 <= at <= |fallback|
          invariant ok ==> FirstHit(all, at) && values == m[all[at]]
          invariant !ok ==> forall j :: 0 <= j <= i ==> all[j] !in m
        {
          ok := fallback[i] in m;
          values := if ok then m[fallback[i]] else [];
          i := i + 1;
          at := i;
        }
      }
      assert ok ==> FirstHit(all, at);
    }
  }

  /** The values of an event type, none if it is not there. */
  function Values(m: Events, eventType: string): seq<string> {
    if eventType in m then m[eventType] else []
  }

  datatype FlattenError = EmptySeparator | InvalidElement | InvalidValue

  /** Flattening one value under its event type; the switch of the source. */
  method FlattenValue(eventType: string, separator: string, value: Raw, visit: Visit, output: EventMap)
    returns (err: Option<FlattenError>)
    requires VisitOf(value, visit)
    modifies output
    ensures (err.None? <==> Valid(value)) && err != Some(EmptySeparator)
    ensures err.None? ==> output.m == Play(old(output.m), separator, eventType, value, Paths(visit))
    ensures value.Invalid? ==> err == Some(InvalidValue)
    ensures value.Elements? && err.Some? ==> err == Some(InvalidElement)
    ensures value.Single? ==> output.m == old(output.m)[eventType := [value.text]]
    ensures value.Strings? ==>
              output.m == if value.texts == [] then old(output.m) - {eventType}
                          else old(output.m)[eventType := value.texts]
    ensures value.Elements? && err.None? && value.elements != [] ==>
              output.m == old(output.m)[eventType := Values(old(output.m), eventType) + Texts(value.elements)]
    decreases value, 1
  {
    assert visit == Here ==> Paths(visit) == [[]] && Paths(visit)[..0] == [];
    match value
    case Single(text) =>
      output.Set(eventType, [text]);
      return None;
    case Strings(texts) =>
      output.Set(eventType, texts);
      return None;
    case Elements(elements) =>
      err := FlattenElements(eventType, elements, output);
    case Nested(_) =>
      err := FlattenMap(eventType, separator, value, visit, output);
    case NestedStrings(lists) =>
      FlattenLists(eventType, separator, lists, visit, output);
      return None;
    case Invalid =>
      return Some(InvalidValue);
  }

  method FlattenElements(eventType: string, elements: seq<Element>, output: EventMap)
    returns (err: Option<FlattenError>)
    modifies output
    ensures err == if AllText(elements) then None else Some(InvalidElement)
    ensures err.None? && elements != [] ==>
              output.m == old(output.m)[eventType := Values(old(output.m), eventType) + Texts(elements)]
    ensures err.None? ==> output.m == AddEvent(old(output.m), eventType, Texts(elements))
  {
    var i := 0;
    assert elements[..0] == [];
    while i < |elements|
      invariant 0 <= i <= |elements| && AllText(elements[..i])
      invariant output.m == AddEvent(old(output.m), eventType, Texts(elements[..i]))
    {
      assert elements[..i + 1][..i] == elements[..i];
      assert elements[..i + 1] == elements[..i] + [elements[i]];
      if elements[i].Text? {
        AddTwice(old(output.m), eventType, Texts(elements[..i]), [elements[i].text]);
        output.Add(eventType, [elements[i].text]);
      } else {
        assert elements[i] in elements;
        return Some(InvalidElement);
      }
      i := i + 1;
    }
    assert elements[..i] == elements;
    TextsInOrder(elements);
    return None;
  }

  /** The lists that are not in `rest` are there, each under its own key. */
  ghost predicate Written(m: Events, base: string, lists: map<string, seq<string>>, rest: map<string, seq<string>>) {
    forall k :: k in lists && k !in rest && lists[k] != [] ==> base + k in m && m[base + k] == lists[k]
  }

  lemma WrittenStep(m: Events, base: string, lists: map<string, seq<string>>, rest: map<string, seq<string>>,
                    key: string)
    requires Written(m, base, lists, rest) && key in lists
    ensures Written(SetEvent(m, base + key, lists[key]), base, lists, rest - {key})
  {
    var after := SetEvent(m, base + key, lists[key]);
    forall k | k in lists && k !in rest - {key} && lists[k] != []
      ensures base + k in after && after[base + k] == lists[k]
    {
      if k != key {
        assert (base + k)[|base|..] == k && (base + key)[|base|..] == key;
      }
    }
  }

  method FlattenLists(eventType: string, separator: string, lists: map<string, seq<string>>, visit: Visit,
                      output: EventMap)
    requires VisitOf(NestedStrings(lists), visit)
    modifies output
    ensures Written(output.m, eventType + separator, lists, map[])
    ensures output.m == Play(old(output.m), separator, eventType, NestedStrings(lists), Paths(visit))
  {
    ghost var whole := NestedStrings(lists);
    var v := visit;
    ghost var rest: Raw, done := whole, [];
    while v.Then?
      invariant Visiting(visit, whole, done, v, rest)
      invariant output.m == Play(old(output.m), separator, eventType, whole, done)
      invariant Written(output.m, eventType + separator, lists, rest.lists)
      decreases v
    {
      VisitingNext(visit, whole, done, v, rest);
      VisitingStep(visit, whole, done, v, rest);
      WrittenStep(output.m, eventType + separator, lists, rest.lists, v.key);
      PlayList(old(output.m), separator, eventType, lists, done, v.key);
      output.Set(eventType + separator + v.key, lists[v.key]);
      done := done + Prefixed(v.key, Paths(v.first));
      rest, v := Less(rest, v.key), v.rest;
    }
    VisitingEnds(visit, whole, done, v, rest);
  }

  /**
   nestedToMultiMap, for any order of visiting: it succeeds exactly when every leaf below is valid, and then writes the
   leaves in that order.
   */
  method FlattenMap(base: string, separator: string, raw: Raw, visit: Visit, output: EventMap)
    returns (err: Option<FlattenError>)
    requires raw.Nested? && VisitOf(raw, visit)
    modifies output
    ensures (err.None? <==> Valid(raw)) && err != Some(EmptySeparator)
    ensures err.None? ==> output.m == Play(old(output.m), separator, base, raw, Paths(visit))
    decreases raw, 0
  {
    var v := visit;
    ghost var rest, done := raw, [];
    while v.Then?
      invariant Visiting(visit, raw, done, v, rest)
      invariant output.m == Play(old(output.m), separator, base, raw, done)
      decreases v
    {
      VisitingNext(visit, raw, done, v, rest);
      var k := v.key;
      var eventType := if |base| > 0 then base + separator + k else k;
      PlayKey(old(output.m), separator, base, raw.children, done, k, Paths(v.first));
      err := FlattenValue(eventType, separator, raw.children[k], v.first, output);
      if err.Some? {
        return err;
      }
      VisitingStep(visit, raw, done, v, rest);
      done := done + Prefixed(k, Paths(v.first));
      rest, v := Less(rest, k), v.rest;
    }
    VisitingEnds(visit, raw, done, v, rest);
    return None;
  }

  /** The whole of it.  What the result is depends on the order of visiting unless the leaves are compatible. */
  method NestedToMultiMap(separator: string, raw: map<string, Raw>, visit: Visit)
    returns (result: Option<Events>, err: Option<FlattenError>)
    requires VisitOf(Nested(raw), visit)
    ensures result.Some? <==> err.None?
    ensures err.None? <==> separator != "" && Valid(Nested(raw))
    ensures err == Some(EmptySeparator) <==> separator == ""
    ensures result.Some? ==> result.value == Flat(separator, Nested(raw), visit)
    ensures result.Some? && Compatible(separator, "", Nested(raw)) ==>
              Exact(map[], result.value, separator, "", Nested(raw))
    ensures result.Some? && |separator| == 1 && Keyed(Nested(raw), separator[0]) ==>
              Flattened(separator[0], Nested(raw), result.value)
  {
    if |separator| == 0 {
      return None, Some(EmptySeparator);
    }
    var output := new EventMap();
    err := FlattenMap("", separator, Nested(raw), visit, output);
    if err.Some? {
      return None, err;
    }
    if |separator| == 1 && Keyed(Nested(raw), separator[0]) {
      assert separator == [separator[0]];
      ProperKeysDoNotClash(separator[0], Nested(raw));
    }
    if Compatible(separator, "", Nested(raw)) {
      CompatibleIsExact(map[], separator, "", Nested(raw), visit);
      if |separator| == 1 && Keyed(Nested(raw), separator[0]) {
        FlatteningKeepsMeaning(separator[0], Nested(raw), output.m);
      }
    }
    return Some(output.m), None;
  }
}
