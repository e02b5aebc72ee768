/**
 The round-robin balancer.  It keeps its routes in a map from their text to the route and its rank; Get lists them by
 rank and then moves every rank down by one, the first going last.  Add, Remove, Update and the two halves of Get are
 one step each.
 */
module RoundRobin {
  import opened Options
  import opened Residues

  datatype Route = Route(scheme: string, host: string, port: int)

  datatype Ordered = Ordered(route: Route, index: int)

  type Table = map<string, Ordered>

  function Digits(n: nat): string {
    if n < 10 then ["0123456789"[n]] else Digits(n / 10) + ["0123456789"[n % 10]]
  }

  function Itoa(n: int): string {
    if n < 0 then "-" + Digits(-n) else Digits(n)
  }

  /** Route.String: the key of a route.  Different routes may have the same text. */
  function Text(r: Route): string {
    var str := r.scheme + "://" + r.host;
    if r.port != 0 then str + ":" + Itoa(r.port) else str
  }

  /** The number that a string of decimal digits denotes. */
  function Denoted(s: string): int {
    if s == [] then 0 else Denoted(s[..|s| - 1]) * 10 + (s[|s| - 1] as int - '0' as int)
  }

  predicate IsDecimal(s: string) {
    s != [] && forall i :: 0 <= i < |s| ==> '0' <= s[i] <= '9'
  }

  lemma DigitChar(n: nat)
    requires n < 10
    ensures var c := "0123456789"[n]; '0' <= c <= '9' && c as int - '0' as int == n
  {
  }

  lemma {:induction false} DigitsDenote(n: nat)
    ensures IsDecimal(Digits(n)) && Denoted(Digits(n)) == n
  {
    DigitChar(n % 10);
    if n >= 10 {
      var front, last := Digits(n / 10), "0123456789"[n % 10];
      DigitsDenote(n / 10);
      assert (front + [last])[..|front|] == front;
    } else {
      assert Digits(n)[..0] == [];
    }
  }

  lemma ItoaIsInjective(a: int, b: int)
    requires Itoa(a) == Itoa(b)
    ensures a == b
  {
    SignShows(a);
    SignShows(b);
    if a < 0 {
      assert Itoa(a)[1..] == Digits(-a) && Itoa(b)[1..] == Digits(-b);
      SameDigits(-a, -b);
    } else {
      SameDigits(a, b);
    }
  }

  lemma SameDigits(a: nat, b: nat)
    requires Digits(a) == Digits(b)
    ensures a == b
  {
    DigitsDenote(a);
    DigitsDenote(b);
  }

  lemma SignShows(n: int)
    ensures Itoa(n) != [] && (Itoa(n)[0] == '-' <==> n < 0)
  {
    DigitsDenote(if n < 0 then -n else n);
  }

  /** The key tells ports apart; no port, zero, is one of them. */
  lemma PortsTellApart(scheme: string, host: string, p: int, q: int)
    ensures Text(Route(scheme, host, p)) == Text(Route(scheme, host, q)) <==> p == q
  {
    var str, a, b := scheme + "://" + host, Text(Route(scheme, host, p)), Text(Route(scheme, host, q));
    if p != 0 && q != 0 && a == b {
      assert a == str + ":" + Itoa(p) && b == str + ":" + Itoa(q);
      assert a[|str| + 1..] == Itoa(p) && b[|str| + 1..] == Itoa(q);
      ItoaIsInjective(p, q);
    }
  }

  /** A route together with its key. */
  datatype Entry = Entry(key: string, route: Route)

  function Named(r: Route): Entry {
    Entry(Text(r), r)
  }

  function AllNamed(routes: seq<Route>): seq<Entry> {
    seq(|routes|, i requires 0 <= i < |routes| => Named(routes[i]))
  }

  function Routes(order: seq<Entry>): seq<Route> {
    seq(|order|, i requires 0 <= i < |order| => order[i].route)
  }

  // ---------------------------------------------------------------- the steps, on the table

  function Added(m: Table, e: Entry): Table {
    if e.key in m then m else m[e.key := Ordered(e.route, |m|)]
  }

  function ClosedUp(o: Ordered, gap: Ordered): Ordered {
    if o.index < gap.index then o else o.(index := o.index - 1)
  }

  function Removed(m: Table, key: string): Table {
    if key !in m then m else map k | k in m && k != key :: ClosedUp(m[k], m[key])
  }

  function Updated(input: seq<Entry>): Table {
    if input == [] then map[] else Added(Updated(input[..|input| - 1]), input[|input| - 1])
  }

  function Rotated(m: Table): Table {
    map k | k in m :: m[k].(index := if m[k].index == 0 then |m| - 1 else m[k].index - 1)
  }

  datatype Step = DoAdd(e: Entry) | DoRemove(key: string) | DoUpdate(input: seq<Entry>) | DoRotate

  function Apply(m: Table, step: Step): Table {
    match step
    case DoAdd(e) => Added(m, e)
    case DoRemove(key) => Removed(m, key)
    case DoUpdate(input) => Updated(input)
    case DoRotate => Rotated(m)
  }

  function Run(steps: seq<Step>): Table {
    if steps == [] then map[] else Apply(Run(steps[..|steps| - 1]), steps[|steps| - 1])
  }

  // ---------------------------------------------------------------- the same steps, on the list the table stands for

  /** The table holds exactly these entries, each ranked by its position. */
  ghost predicate Represents(m: Table, order: seq<Entry>) {
    && |m| == |order|
    && (forall i :: 0 <= i < |order| ==> order[i].key in m && m[order[i].key] == Ordered(order[i].route, i))
    && (forall k :: k in m ==> 0 <= m[k].index < |order| && k == order[m[k].index].key)
  }

  predicate Listed(order: seq<Entry>, key: string) {
    exists i :: 0 <= i < |order| && order[i].key == key
  }

  function AddedOrder(order: seq<Entry>, e: Entry): seq<Entry> {
    if Listed(order, e.key) then order else order + [e]
  }

  /** The list without the first entry of this key; the others keep their order. */
  function RemovedOrder(order: seq<Entry>, key: string): seq<Entry> {
    if order == [] then []
    else if order[0].key == key then order[1..]
    else [order[0]] + RemovedOrder(order[1..], key)
  }

  /** The list with the entries dropped whose key came before. */
  function FirstOnly(input: seq<Entry>): seq<Entry> {
    if input == [] then [] else AddedOrder(FirstOnly(input[..|input| - 1]), input[|input| - 1])
  }

  function RotatedOrder(order: seq<Entry>): seq<Entry> {
    if order == [] then [] else order[1..] + [order[0]]
  }

  function ApplyOrder(order: seq<Entry>, step: Step): seq<Entry> {
    match step
    case DoAdd(e) => AddedOrder(order, e)
    case DoRemove(key) => RemovedOrder(order, key)
    case DoUpdate(input) => FirstOnly(input)
    case DoRotate => RotatedOrder(order)
  }

  function RunOrder(steps: seq<Step>): seq<Entry> {
    if steps == [] then [] else ApplyOrder(RunOrder(steps[..|steps| - 1]), steps[|steps| - 1])
  }

  /** Every entry is named by its own route. */
  ghost predicate Proper(order: seq<Entry>) {
    forall i :: 0 <= i < |order| ==> order[i] == Named(order[i].route)
  }

  lemma {:induction false} RemovedIsProper(order: seq<Entry>, key: string)
    requires Proper(order)
    ensures Proper(RemovedOrder(order, key))
  {
    if order != [] {
      RemovedIsProper(order[1..], key);
    }
  }

  lemma {:induction false} FirstOnlyIsProper(input: seq<Entry>)
    requires Proper(input)
    ensures Proper(FirstOnly(input))
  {
    if input != [] {
      FirstOnlyIsProper(input[..|input| - 1]);
    }
  }

  /** The operations are on routes, each under its own key. */
  ghost predicate OfRoutes(steps: seq<Step>) {
    forall step :: step in steps ==>
      (step.DoAdd? ==> step.e == Named(step.e.route)) && (step.DoUpdate? ==> Proper(step.input))
  }

  lemma {:induction false} RunIsProper(steps: seq<Step>)
    requires OfRoutes(steps)
    ensures Proper(RunOrder(steps))
  {
    if steps != [] {
      var before, step := steps[..|steps| - 1], steps[|steps| - 1];
      assert step in steps;
      RunIsProper(before);
      if step.DoRemove? {
        RemovedIsProper(RunOrder(before), step.key);
      } else if step.DoUpdate? {
        FirstOnlyIsProper(step.input);
      }
    }
  }

  // ---------------------------------------------------------------- the table follows the list

  lemma KeysListed(m: Table, order: seq<Entry>, key: string)
    requires Represents(m, order)
    ensures key in m <==> Listed(order, key)
  {
  }

  lemma AddFollows(m: Table, order: seq<Entry>, e: Entry)
    requires Represents(m, order)
    ensures Represents(Added(m, e), AddedOrder(order, e))
  {
  }

  lemma {:induction false} RemovedAt(order: seq<Entry>, key: string, i: nat)
    requires i < |order| && order[i].key == key
    requires forall j :: 0 <= j < i ==> order[j].key != key
    ensures RemovedOrder(order, key) == order[..i] + order[i + 1..]
  {
    if i > 0 {
      var tail := order[1..];
      RemovedAt(tail, key, i - 1);
      assert [order[0]] + tail[..i - 1] == order[..i];
      assert tail[i..] == order[i + 1..];
      assert [order[0]] + (tail[..i - 1] + tail[i..]) == [order[0]] + tail[..i - 1] + tail[i..];
    }
  }

  lemma {:induction false} RemovedNone(order: seq<Entry>, key: string)
    requires !Listed(order, key)
    ensures RemovedOrder(order, key) == order
  {
    if order != [] {
      forall i | 0 <= i < |order[1..]| ensures order[1..][i].key != key {
        assert order[1..][i] == order[i + 1];
      }
      RemovedNone(order[1..], key);
    }
  }

  lemma RemoveFollows(m: Table, order: seq<Entry>, key: string)
    requires Represents(m, order)
    ensures Represents(Removed(m, key), RemovedOrder(order, key))
  {
    KeysListed(m, order, key);
    if key !in m {
      RemovedNone(order, key);
    } else {
      var i := m[key].index;
      forall j | 0 <= j < i ensures order[j].key != key {
        assert m[order[j].key].index == j;
      }
      RemovedAt(order, key, i);
      SpliceFollows(m, order, key, i);
    }
  }

  lemma SpliceFollows(m: Table, order: seq<Entry>, key: string, i: nat)
    requires Represents(m, order) && key in m && m[key].index == i < |order|
    ensures Represents(Removed(m, key), order[..i] + order[i + 1..])
  {
    var n, rest := Removed(m, key), order[..i] + order[i + 1..];
    assert n.Keys == m.Keys - {key};
    forall j | 0 <= j < |rest| ensures rest[j].key in n && n[rest[j].key] == Ordered(rest[j].route, j) {
      SpliceForth(m, order, key, i, j);
    }
    forall k | k in n ensures 0 <= n[k].index < |rest| && k == rest[n[k].index].key {
      SpliceBack(m, order, key, i, k);
    }
  }

  lemma SpliceForth(m: Table, order: seq<Entry>, key: string, i: nat, j: nat)
    requires Represents(m, order) && key in m && m[key].index == i < |order| && j + 1 < |order|
    ensures var n, e := Removed(m, key), (order[..i] + order[i + 1..])[j];
            e.key in n && n[e.key] == Ordered(e.route, j)
  {
    var from := if j < i then j else j + 1;
    assert (order[..i] + order[i + 1..])[j] == order[from];
    assert m[order[from].key] == Ordered(order[from].route, from);
  }

  lemma SpliceBack(m: Table, order: seq<Entry>, key: string, i: nat, k: string)
    requires Represents(m, order) && key in m && m[key].index == i < |order| && k in m && k != key
    ensures var at := Removed(m, key)[k].index;
            0 <= at && at + 1 < |order| && k == (order[..i] + order[i + 1..])[at].key
  {
    assert k == order[m[k].index].key && m[k].index != i;
  }

  lemma {:induction false} UpdateFollows(input: seq<Entry>)
    ensures Represents(Updated(input), FirstOnly(input))
  {
    if input != [] {
      UpdateFollows(input[..|input| - 1]);
      AddFollows(Updated(input[..|input| - 1]), FirstOnly(input[..|input| - 1]), input[|input| - 1]);
    }
  }

  lemma UpdatedStep(input: seq<Entry>, i: nat)
    requires i < |input|
    ensures Updated(input[..i + 1]) == Added(Updated(input[..i]), input[i])
  {
    assert input[..i + 1][..i] == input[..i];
  }

  lemma AddedLength(m: Table, e: Entry)
    ensures |Added(m, e)| == |m| + (if e.key in m then 0 else 1)
  {
    assert e.key !in m ==> Added(m, e).Keys == m.Keys + {e.key};
  }

  lemma RotateFollows(m: Table, order: seq<Entry>)
    requires Represents(m, order)
    ensures Represents(Rotated(m), RotatedOrder(order))
  {
    var n, turned := Rotated(m), RotatedOrder(order);
    assert n.Keys == m.Keys;
    forall j | 0 <= j < |turned| ensures turned[j].key in n && n[turned[j].key] == Ordered(turned[j].route, j) {
      var from := if j == |order| - 1 then 0 else j + 1;
      assert turned[j] == order[from] && m[order[from].key] == Ordered(order[from].route, from);
    }
    forall k | k in n ensures 0 <= n[k].index < |turned| && k == turned[n[k].index].key {
      assert k == order[m[k].index].key;
    }
  }

  lemma StepFollows(m: Table, order: seq<Entry>, step: Step)
    requires Represents(m, order)
    ensures Represents(Apply(m, step), ApplyOrder(order, step))
  {
    match step
    case DoAdd(e) => AddFollows(m, order, e);
    case DoRemove(key) => RemoveFollows(m, order, key);
    case DoUpdate(input) => UpdateFollows(input);
    case DoRotate => RotateFollows(m, order);
  }

  /** After any sequence of steps, the table is the list that the same steps make of an empty list. */
  lemma {:induction false} RunFollows(steps: seq<Step>)
    ensures Represents(Run(steps), RunOrder(steps))
  {
    if steps != [] {
      RunFollows(steps[..|steps| - 1]);
      StepFollows(Run(steps[..|steps| - 1]), RunOrder(steps[..|steps| - 1]), steps[|steps| - 1]);
    }
  }

  /** The second half of Add, which does not look again whether the key is there by then. */
  function Inserted(m: Table, e: Entry): Table {
    m[e.key := Ordered(e.route, |m|)]
  }

  ghost predicate Ranked(m: Table) {
    exists order :: Represents(m, order)
  }

  /** So the ranks break exactly when the key came into the map between the two halves, by an Add or an Update. */
  lemma LateAdd(m: Table, e: Entry)
    requires Ranked(m)
    ensures Ranked(Inserted(m, e)) <==> e.key !in m
  {
    var order :| Represents(m, order);
    AddFollows(m, order, e);
    if e.key in m {
      assert Inserted(m, e).Keys == m.Keys;
      assert Inserted(m, e)[e.key].index == |Inserted(m, e)|;
    } else {
      assert Represents(Inserted(m, e), AddedOrder(order, e));
    }
  }

  /** Two Adds of one route, neither of which saw the other's insertion. */
  lemma TwoLateAdds(e: Entry)
    ensures Ranked(Inserted(map[], e)) && !Ranked(Inserted(Inserted(map[], e), e))
  {
    assert Represents(map[], []);
    LateAdd(map[], e);
    LateAdd(Inserted(map[], e), e);
  }

  /**
   The second half of Remove does not look again either: when the key is gone by then, it compares the other ranks
   with that of a route it does not have.  It panics exactly then, unless there is no other route.
   */
  predicate Panics(m: Table, key: string) {
    key !in m && m != map[]
  }

  /** Of two Removes of one route that both saw it, the second panics exactly when another route is left. */
  lemma TwoLateRemoves(m: Table, key: string)
    requires key in m
    ensures !Panics(m, key) && (Panics(Removed(m, key), key) <==> |m| > 1)
  {
    assert Removed(m, key).Keys == m.Keys - {key};
    assert |Removed(m, key).Keys| == |m.Keys| - 1;
  }

  predicate HasRank(m: Table, i: int) {
    exists k :: k in m && m[k].index == i
  }

  /** So the stored ranks are always a permutation: below n, no two alike, and none missing. */
  lemma RanksArePermutation(steps: seq<Step>)
    ensures var m := Run(steps);
            && (forall k :: k in m ==> 0 <= m[k].index < |m|)
            && (forall k, l :: k in m && l in m && m[k].index == m[l].index ==> k == l)
            && (forall i :: 0 <= i < |m| ==> HasRank(m, i))
  {
    RunFollows(steps);
    var m, order := Run(steps), RunOrder(steps);
    forall i | 0 <= i < |m| ensures HasRank(m, i) {
      assert m[order[i].key].index == i;
    }
  }

  // ---------------------------------------------------------------- Update

  /** Position i of the input survives Update: its key did not come before. */
  predicate Survives(input: seq<Entry>, i: nat)
    requires i < |input|
  {
    forall j :: 0 <= j < i ==> input[j].key != input[i].key
  }

  /** How many positions before n survive. */
  function Survivors(input: seq<Entry>, n: nat): nat
    requires n <= |input|
  {
    if n == 0 then 0 else Survivors(input, n - 1) + (if Survives(input, n - 1) then 1 else 0)
  }

  predicate Occurs(input: seq<Entry>, n: nat, key: string)
    requires n <= |input|
  {
    exists j :: 0 <= j < n && input[j].key == key
  }

  lemma FirstOnlyStep(input: seq<Entry>, n: nat)
    requires 0 < n <= |input|
    ensures FirstOnly(input[..n]) == AddedOrder(FirstOnly(input[..n - 1]), input[n - 1])
  {
    assert input[..n][..n - 1] == input[..n - 1];
  }

  lemma ListedAfter(order: seq<Entry>, e: Entry, key: string)
    ensures Listed(AddedOrder(order, e), key) <==> Listed(order, key) || key == e.key
  {
    var after := AddedOrder(order, e);
    if Listed(order, key) {
      var i :| 0 <= i < |order| && order[i].key == key;
      assert after[i] == order[i];
    }
    if !Listed(order, e.key) {
      assert after[|order|] == e;
    }
  }

  /** Update lists exactly the keys of its input. */
  lemma {:induction false} UpdateKeepsKeys(input: seq<Entry>, n: nat, key: string)
    requires n <= |input|
    ensures Listed(FirstOnly(input[..n]), key) <==> Occurs(input, n, key)
  {
    if n > 0 {
      UpdateKeepsKeys(input, n - 1, key);
      FirstOnlyStep(input, n);
      ListedAfter(FirstOnly(input[..n - 1]), input[n - 1], key);
      assert Occurs(input, n, key) <==> Occurs(input, n - 1, key) || input[n - 1].key == key;
    }
  }

  /** The list after Update is as long as the input has surviving positions. */
  lemma {:induction false} UpdateLength(input: seq<Entry>, n: nat)
    requires n <= |input|
    ensures |FirstOnly(input[..n])| == Survivors(input, n)
  {
    if n > 0 {
      UpdateLength(input, n - 1);
      FirstOnlyStep(input, n);
      UpdateKeepsKeys(input, n - 1, input[n - 1].key);
      assert Occurs(input, n - 1, input[n - 1].key) <==> !Survives(input, n - 1);
    }
  }

  /** A surviving position is listed right after the surviving positions before it. */
  lemma {:induction false} UpdateKeepsOrder(input: seq<Entry>, n: nat, i: nat)
    requires i < n <= |input| && Survives(input, i)
    ensures Survivors(input, i) < |FirstOnly(input[..n])|
    ensures FirstOnly(input[..n])[Survivors(input, i)] == input[i]
    decreases n
  {
    var before := FirstOnly(input[..n - 1]);
    FirstOnlyStep(input, n);
    if i < n - 1 {
      UpdateKeepsOrder(input, n - 1, i);
      ListStays(before, input[n - 1], Survivors(input, i));
    } else {
      UpdateLength(input, i);
      UpdateKeepsKeys(input, i, input[i].key);
      NewIsListed(before, input[i]);
    }
  }

  lemma ListStays(order: seq<Entry>, e: Entry, j: nat)
    requires j < |order|
    ensures j < |AddedOrder(order, e)| && AddedOrder(order, e)[j] == order[j]
  {
  }

  lemma NewIsListed(order: seq<Entry>, e: Entry)
    requires !Listed(order, e.key)
    ensures |AddedOrder(order, e)| == |order| + 1 && AddedOrder(order, e)[|order|] == e
  {
  }

  // ---------------------------------------------------------------- fairness

  function TurnedBy(order: seq<Entry>, k: nat): seq<Entry> {
    if k == 0 then order else RotatedOrder(TurnedBy(order, k - 1))
  }

  function Turn(order: seq<Entry>, p: nat): seq<Entry>
    requires p <= |order|
  {
    order[p..] + order[..p]
  }

  lemma TurnStep(order: seq<Entry>, p: nat, q: nat)
    requires p < |order| && q == if p + 1 == |order| then 0 else p + 1
    ensures RotatedOrder(Turn(order, p)) == Turn(order, q)
  {
  }

  lemma {:induction false} TurnedIsTurn(order: seq<Entry>, k: nat)
    requires order != []
    ensures TurnedBy(order, k) == Turn(order, k % |order|)
  {
    if k == 0 {
      ResidueOf(0, 0, |order|);
      assert Turn(order, 0) == order;
    } else {
      TurnedIsTurn(order, k - 1);
      NextResidue(k - 1, |order|);
      TurnStep(order, (k - 1) % |order|, k % |order|);
    }
  }

  /** These are the results of so many Gets in a row, the first of which found this list. */
  ghost predicate Served(order: seq<Entry>, results: seq<seq<Route>>) {
    forall k :: 0 <= k < |results| ==> results[k] == Routes(TurnedBy(order, k))
  }

  lemma ServedMore(order: seq<Entry>, results: seq<seq<Route>>, records: seq<Route>)
    requires Served(order, results) && records == Routes(TurnedBy(order, |results|))
    ensures Served(order, results + [records])
  {
  }

  /** The k-th Get after some Get returns the routes of that one, turned left by k modulo their number. */
  lemma KthGet(order: seq<Entry>, results: seq<seq<Route>>, k: nat)
    requires Served(order, results) && order != [] && k < |results|
    ensures k % |order| < |order| && results[k] == Routes(Turn(order, k % |order|))
  {
    TurnedIsTurn(order, k);
  }

  predicate Leads(results: seq<seq<Route>>, k: nat, route: Route) {
    k < |results| && results[k] != [] && results[k][0] == route
  }

  /** Among any n Gets in a row each route comes first at least once. */
  lemma EveryoneLeads(order: seq<Entry>, results: seq<seq<Route>>, start: nat, j: nat)
    requires Served(order, results) && j < |order| && start + |order| <= |results|
    ensures exists k: nat :: start <= k < start + |order| && Leads(results, k, order[j].route)
  {
    var k := Within(start, j, |order|);
    KthGet(order, results, k);
    assert Leads(results, k, order[j].route);
  }

  /** ... and, whatever the operations that made the rotation, at most once. */
  lemma NobodyLeadsTwice(steps: seq<Step>, results: seq<seq<Route>>, k: nat, l: nat)
    requires OfRoutes(steps) && Served(RunOrder(steps), results)
    requires k < l < k + |RunOrder(steps)| && l < |results|
    ensures results[k] != [] && results[l] != [] && results[k][0] != results[l][0]
  {
    var m, order := Run(steps), RunOrder(steps);
    RunFollows(steps);
    RunIsProper(steps);
    KthGet(order, results, k);
    KthGet(order, results, l);
    CloseResidues(k, l, |order|);
    var i, j := k % |order|, l % |order|;
    assert results[k][0] == order[i].route && results[l][0] == order[j].route;
    assert m[order[i].key].index == i && m[order[j].key].index == j;
  }

  /** After n Gets the order is restored. */
  lemma OrderRestored(order: seq<Entry>, results: seq<seq<Route>>, k: nat)
    requires Served(order, results) && k + |order| < |results|
    ensures results[k + |order|] == results[k]
  {
    if order != [] {
      KthGet(order, results, k);
      KthGet(order, results, k + |order|);
      Periodic(k, |order|);
    }
  }

  // ---------------------------------------------------------------- the object

  datatype Refusal = AlreadyInRotation | NotFound | NoRecords

  /** A loop over the map is under way: the entries of `rest` are still as in `all`, the others as in `target`. */
  ghost predicate Midway(all: Table, target: Table, now: Table, rest: set<string>) {
    && now.Keys == target.Keys && target.Keys <= all.Keys && rest <= now.Keys
    && (forall k :: k in now ==> now[k] == if k in rest then all[k] else target[k])
  }

  lemma MidwayStep(all: Table, target: Table, now: Table, rest: set<string>, k: string)
    requires Midway(all, target, now, rest) && k in rest
    ensures Midway(all, target, now[k := target[k]], rest - {k})
  {
  }

  class Balancer {
    var routes: Table
    ghost var order: seq<Entry>

    ghost predicate Valid() reads this {
      Represents(routes, order)
    }

    constructor ()
      ensures Valid() && order == [] && routes == map[]
    {
      routes, order := map[], [];
    }

    method Add(route: Route) returns (err: Option<Refusal>)
      requires Valid()
      modifies this
      ensures Valid() && routes == Added(old(routes), Named(route)) && order == AddedOrder(old(order), Named(route))
      ensures err == if Listed(old(order), Text(route)) then Some(AlreadyInRotation) else None
    {
      var e := Named(route);
      AddFollows(routes, order, e);
      KeysListed(routes, order, e.key);
      order := AddedOrder(order, e);
      if e.key in routes {
        return Some(AlreadyInRotation);
      }
      Insert(e);
      return None;
    }

    /** The second half of Add, on whatever table it finds. */
    method Insert(e: Entry)
      modifies this`routes
      ensures routes == Inserted(old(routes), e)
    {
      routes := routes[e.key := Ordered(e.route, |routes|)];
    }

    method Remove(route: Route) returns (err: Option<Refusal>)
      requires Valid()
      modifies this
      ensures Valid() && routes == Removed(old(routes), Text(route)) && order == RemovedOrder(old(order), Text(route))
      ensures err == if Listed(old(order), Text(route)) then None else Some(NotFound)
    {
      var key := Text(route);
      KeysListed(routes, order, key);
      RemoveFollows(routes, order, key);
      order := RemovedOrder(order, key);
      if key !in routes {
        return Some(NotFound);
      }
      var panicked := CloseGap(key);
      return None;
    }

    /** The second half of Remove, on whatever table it finds: take the route out and move the ones behind it up. */
    method CloseGap(key: string) returns (panicked: bool)
      modifies this`routes
      ensures panicked <==> Panics(old(routes), key)
      ensures routes == Removed(old(routes), key)
    {
      var deleted := if key in routes then Some(routes[key]) else None;
      ghost var all, target := routes, Removed(routes, key);
      routes := routes - {key};
      assert key !in all ==> routes == all;
      if routes == map[] {
        return false;
      }
      var rest := routes.Keys;
      while rest != {}
        invariant deleted.None? ==> routes == target && rest == routes.Keys
        invariant deleted.Some? ==> Midway(all, target, routes, rest)
        decreases |rest|
      {
        var k :| k in rest;
        if deleted.None? {
          return true;
        }
        MidwayStep(all, target, routes, rest, k);
        routes := routes[k := ClosedUp(routes[k], deleted.value)];
        rest := rest - {k};
      }
      return false;
    }

    method Update(input: seq<Route>)
      modifies this
      ensures Valid() && routes == Updated(AllNamed(input)) && order == FirstOnly(AllNamed(input))
    {
      Refill(input);
      order := FirstOnly(AllNamed(input));
      UpdateFollows(AllNamed(input));
    }

    method Refill(input: seq<Route>)
      modifies this`routes
      ensures routes == Updated(AllNamed(input))
    {
      routes := map[];
      ghost var named := AllNamed(input);
      var index, i := 0, 0;
      while i < |input|
        invariant 0 <= i <= |input| && routes == Updated(named[..i]) && index == |routes|
      {
        var e := Named(input[i]);
        UpdatedStep(named, i);
        AddedLength(routes, e);
        if e.key !in routes {
          routes := routes[e.key := Ordered(e.route, index)];
          index := index + 1;
        }
        i := i + 1;
      }
      assert named[..i] == named;
    }

    /** The read-locked half of Get: every slot of the array is written, each within bounds. */
    method Records() returns (records: seq<Route>, err: Option<Refusal>)
      requires Valid()
      ensures records == Routes(order) && err == if order == [] then Some(NoRecords) else None
    {
      if |routes| == 0 {
        return [], Some(NoRecords);
      }
      var slots := new Route[|routes|];
      var rest := routes.Keys;
      while rest != {}
        invariant rest <= routes.Keys && slots.Length == |order|
        invariant forall k :: k in routes && k !in rest ==> slots[routes[k].index] == routes[k].route
        decreases |rest|
      {
        var k :| k in rest;
        rest := rest - {k};
        slots[routes[k].index] := routes[k].route;
      }
      forall i | 0 <= i < slots.Length ensures slots[i] == order[i].route {
        assert order[i].key in routes && routes[order[i].key].index == i;
      }
      assert slots[..] == Routes(order);
      return slots[..], None;
    }

    /** The write-locked half of Get. */
    method Rotate()
      requires Valid()
      modifies this
      ensures Valid() && routes == Rotated(old(routes)) && order == RotatedOrder(old(order))
    {
      RotateFollows(routes, order);
      MoveUp();
      order := RotatedOrder(order);
    }

    method MoveUp()
      modifies this`routes
      ensures routes == Rotated(old(routes))
    {
      ghost var all, target := routes, Rotated(routes);
      var size := |routes|;
      var rest := routes.Keys;
      while rest != {}
        invariant Midway(all, target, routes, rest)
        decreases |rest|
      {
        var k :| k in rest;
        MidwayStep(all, target, routes, rest, k);
        if routes[k].index == 0 {
          routes := routes[k := routes[k].(index := size - 1)];
        } else {
          routes := routes[k := routes[k].(index := routes[k].index - 1)];
        }
        rest := rest - {k};
      }
      assert routes == target;
    }

    /** Get with nothing in between its two halves. */
    method Get() returns (records: seq<Route>, err: Option<Refusal>)
      requires Valid()
      modifies this
      ensures Valid() && records == Routes(old(order)) && order == RotatedOrder(old(order))
      ensures err == if old(order) == [] then Some(NoRecords) else None
    {
      records, err := Records();
      Rotate();
    }

    method GetOneMore(ghost first: seq<Entry>, results: seq<seq<Route>>) returns (more: seq<seq<Route>>)
      requires Valid() && Served(first, results) && order == TurnedBy(first, |results|)
      modifies this
      ensures Valid() && |more| == |results| + 1 && Served(first, more) && order == TurnedBy(first, |more|)
    {
      var records, err := Get();
      ServedMore(first, results, records);
      more := results + [records];
    }

    /** Any number of Gets in a row. */
    method GetMany(n: nat) returns (results: seq<seq<Route>>)
      requires Valid()
      modifies this
      ensures Valid() && |results| == n && Served(old(order), results) && order == TurnedBy(old(order), n)
    {
      results := [];
      while |results| < n
        invariant |results| <= n && Valid()
        invariant Served(old(order), results) && order == TurnedBy(old(order), |results|)
      {
        results := GetOneMore(old(order), results);
      }
    }
  }
}
