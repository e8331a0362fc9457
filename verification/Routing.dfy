/**
 Reading `route` properties and routing events to `database/table` targets.
 Property values are C strings, so they are taken to hold no NUL.
 */
module Routing {
  import opened Prelude
  import opened StringUtil
  import opened UploadQueue

  type Property = (string, seq<string>)

  datatype Route = Route(eventNameMatch: string, target: string)

  /** The argument lists of all properties named `key`, in order. */
  function Rows(ps: seq<Property>, key: string): seq<seq<string>> {
    if ps == [] then []
    else Rows(ps[..|ps| - 1], key) + if ps[|ps| - 1].0 == key then [ps[|ps| - 1].1] else []
  }

  function Cell(rows: seq<seq<string>>, i: nat, j: nat): Option<string> {
    if i < |rows| && j < |rows[i]| then Some(rows[i][j]) else None
  }

  /** Index of the first row that is not a pair, or their number. */
  function FirstNonPair(rows: seq<seq<string>>): (n: nat)
    ensures n <= |rows|
    ensures forall i :: 0 <= i < n ==> |rows[i]| == 2
    ensures n < |rows| ==> |rows[n]| != 2
  {
    if rows == [] || |rows[0]| != 2 then 0 else 1 + FirstNonPair(rows[1..])
  }

  class PropertyList {
    const properties: seq<Property>

    constructor (properties: seq<Property>)
      ensures this.properties == properties
    {
      this.properties := properties;
    }

    /** Skips `i` matching properties by counting down, then picks argument `j`. */
    method Getv(key: string, i0: nat, j: nat) returns (out: Option<string>)
      ensures out == Cell(Rows(properties, key), i0, j)
    {
      var i := i0;
      for k := 0 to |properties|
        invariant 0 <= i && i0 == i + |Rows(properties[..k], key)|
        invariant Rows(properties[..k], key) <= Rows(properties, key)
      {
        RowsPrefix(properties, k + 1, key);
        RowsNext(properties, k, key);
        var p := properties[k];
        if p.0 != key {
          continue;
        }
        if i > 0 {
          i := i - 1;
          continue;
        }
        assert Rows(properties[..k + 1], key)[i0] == p.1 == Rows(properties, key)[i0];
        if j + 1 > |p.1| {
          return None;
        } else {
          return Some(p.1[j]);
        }
      }
      assert properties[..|properties|] == properties;
      return None;
    }

    /** All argument lists of a property and their number. */
    method Get(key: string) returns (out: seq<seq<string>>, cnt: nat)
      ensures out == Rows(properties, key) && cnt == |out|
      ensures exists places :: NamedAt(places, properties, key) && ArgumentsAt(out, places, properties)
    {
      hide NamedAt, ArgumentsAt;
      RowsAreNamed(properties, key);
      out, cnt := [], 0;
      for k := 0 to |properties|
        invariant out == Rows(properties[..k], key) && cnt == |out|
      {
        RowsNext(properties, k, key);
        if properties[k].0 == key {
          out := out + [properties[k].1];
          cnt := cnt + 1;
        }
      }
      assert properties[..|properties|] == properties;
    }
  }

  lemma {:induction false} RowsNext(ps: seq<Property>, k: nat, key: string)
    requires k < |ps|
    ensures Rows(ps[..k + 1], key) == Rows(ps[..k], key) + if ps[k].0 == key then [ps[k].1] else []
  {
    assert ps[..k + 1][..k] == ps[..k];
  }

  lemma {:induction false} RowsPrefix(ps: seq<Property>, k: nat, key: string)
    requires k <= |ps|
    ensures Rows(ps[..k], key) <= Rows(ps, key)
    decreases |ps|
  {
    if k < |ps| {
      assert ps[..|ps| - 1][..k] == ps[..k];
      RowsPrefix(ps[..|ps| - 1], k, key);
    } else {
      assert ps[..k] == ps;
    }
  }

  /** `places` are the properties named `key`, in order. */
  ghost predicate NamedAt(places: seq<nat>, ps: seq<Property>, key: string) {
    && (forall a, b :: 0 <= a < b < |places| ==> places[a] < places[b])
    && forall i: nat :: i in places <==> i < |ps| && ps[i].0 == key
  }

  predicate ArgumentsAt(rows: seq<seq<string>>, places: seq<nat>, ps: seq<Property>) {
    && |rows| == |places|
    && forall k :: 0 <= k < |rows| ==> places[k] < |ps| && rows[k] == ps[places[k]].1
  }

  /** The rows are the argument lists of exactly the properties of that name, in order. */
  lemma {:induction false} RowsAreNamed(ps: seq<Property>, key: string)
    ensures exists places :: NamedAt(places, ps, key) && ArgumentsAt(Rows(ps, key), places, ps)
    decreases |ps|
  {
    hide NamedAt, ArgumentsAt;
    if ps == [] {
      NothingNamed(key);
    } else {
      var n := |ps| - 1;
      RowsAreNamed(ps[..n], key);
      var places: seq<nat> :| NamedAt(places, ps[..n], key) && ArgumentsAt(Rows(ps[..n], key), places, ps[..n]);
      OneMoreNamed(places, ps, key);
      OneMoreRow(Rows(ps[..n], key), places, ps);
      if ps[n].0 == key {
        assert NamedAt(places + [n], ps, key) && ArgumentsAt(Rows(ps, key), places + [n], ps);
      } else {
        assert Rows(ps[..n], key) + [] == Rows(ps[..n], key);
        assert NamedAt(places, ps, key) && ArgumentsAt(Rows(ps, key), places, ps);
      }
    }
  }

  lemma {:induction false} NothingNamed(key: string)
    ensures NamedAt([], [], key) && ArgumentsAt([], [], [])
  {
  }

  lemma {:induction false} OneMoreNamed(places: seq<nat>, ps: seq<Property>, key: string)
    requires ps != [] && NamedAt(places, ps[..|ps| - 1], key)
    ensures NamedAt(if ps[|ps| - 1].0 == key then places + [|ps| - 1] else places, ps, key)
  {
    var n := |ps| - 1;
    var more: seq<nat> := places + [n];
    assert forall a :: 0 <= a < |places| ==> places[a] in places;
    assert forall i: nat :: i in more <==> i in places || i == n;
    assert forall i :: 0 <= i < n ==> ps[..n][i] == ps[i];
  }

  lemma {:induction false} OneMoreRow(rows: seq<seq<string>>, places: seq<nat>, ps: seq<Property>)
    requires ps != [] && ArgumentsAt(rows, places, ps[..|ps| - 1])
    ensures ArgumentsAt(rows, places, ps)
    ensures ArgumentsAt(rows + [ps[|ps| - 1].1], places + [|ps| - 1], ps)
  {
  }

  // ---------------------------------------------------------------- events to queue

  function Matching(routes: seq<Route>, name: string): seq<Route> {
    if routes == [] then []
    else
      Matching(routes[..|routes| - 1], name)
      + if routes[|routes| - 1].eventNameMatch == name then [routes[|routes| - 1]] else []
  }

  /** A target of the form `database/table`. */
  predicate IsTarget(target: string) {
    |Parts(target, "/")| == 2
  }

  function Routed(r: Route, data: string): EnqueuedEvent
    requires IsTarget(r.target)
  {
    EnqueuedEvent(Parts(r.target, "/")[0], Parts(r.target, "/")[1], data)
  }

  predicate AllTargets(routes: seq<Route>) {
    forall i :: 0 <= i < |routes| ==> IsTarget(routes[i].target)
  }

  function AllRouted(routes: seq<Route>, data: string): (es: seq<EnqueuedEvent>)
    requires AllTargets(routes)
    ensures |es| == |routes| && forall i :: 0 <= i < |es| ==> es[i] == Routed(routes[i], data)
  {
    seq(|routes|, i requires 0 <= i < |routes| => Routed(routes[i], data))
  }

  /** `places` are the routes for the event name, in order. */
  ghost predicate RoutesAt(places: seq<nat>, routes: seq<Route>, name: string) {
    && (forall a, b :: 0 <= a < b < |places| ==> places[a] < places[b])
    && forall i: nat :: i in places <==> i < |routes| && routes[i].eventNameMatch == name
  }

  predicate PickedAt(picked: seq<Route>, places: seq<nat>, routes: seq<Route>) {
    && |picked| == |places|
    && forall k :: 0 <= k < |picked| ==> places[k] < |routes| && picked[k] == routes[places[k]]
  }

  /** The event of a target `database/table`. */
  predicate GoesTo(e: EnqueuedEvent, target: string, data: string) {
    '/' !in e.database && '/' !in e.table && e.database + "/" + e.table == target && e.data == data
  }

  /** `es` are events with this data for the first of the routes at `places`, one each, in order. */
  predicate QueuedFor(es: seq<EnqueuedEvent>, places: seq<nat>, routes: seq<Route>, data: string) {
    && |es| <= |places|
    && forall k :: 0 <= k < |es| ==> places[k] < |routes| && GoesTo(es[k], routes[places[k]].target, data)
  }

  /** The matching routes are exactly those with that event name, in order. */
  lemma {:induction false} MatchingAreRoutes(routes: seq<Route>, name: string)
    ensures exists places :: RoutesAt(places, routes, name) && PickedAt(Matching(routes, name), places, routes)
    decreases |routes|
  {
    hide RoutesAt, PickedAt;
    if routes == [] {
      NothingPicked(name);
    } else {
      var n := |routes| - 1;
      MatchingAreRoutes(routes[..n], name);
      var places: seq<nat> :|
        RoutesAt(places, routes[..n], name) && PickedAt(Matching(routes[..n], name), places, routes[..n]);
      OneMorePlace(places, routes, name);
      OneMorePicked(Matching(routes[..n], name), places, routes);
      if routes[n].eventNameMatch == name {
        assert RoutesAt(places + [n], routes, name) && PickedAt(Matching(routes, name), places + [n], routes);
      } else {
        assert Matching(routes[..n], name) + [] == Matching(routes[..n], name);
        assert RoutesAt(places, routes, name) && PickedAt(Matching(routes, name), places, routes);
      }
    }
  }

  lemma {:induction false} NothingPicked(name: string)
    ensures RoutesAt([], [], name) && PickedAt([], [], [])
  {
  }

  lemma {:induction false} OneMorePlace(places: seq<nat>, routes: seq<Route>, name: string)
    requires routes != [] && RoutesAt(places, routes[..|routes| - 1], name)
    ensures RoutesAt(if routes[|routes| - 1].eventNameMatch == name then places + [|routes| - 1] else places,
                     routes, name)
  {
    var n := |routes| - 1;
    var more: seq<nat> := places + [n];
    assert forall a :: 0 <= a < |places| ==> places[a] in places;
    assert forall i: nat :: i in more <==> i in places || i == n;
    assert forall i :: 0 <= i < n ==> routes[..n][i] == routes[i];
  }

  lemma {:induction false} OneMorePicked(picked: seq<Route>, places: seq<nat>, routes: seq<Route>)
    requires routes != [] && PickedAt(picked, places, routes[..|routes| - 1])
    ensures PickedAt(picked, places, routes)
    ensures PickedAt(picked + [routes[|routes| - 1]], places + [|routes| - 1], routes)
  {
  }

  /** What was queued when `n` of the matching targets were found well-formed. */
  lemma {:induction false} QueuedForRoutes(routes: seq<Route>, name: string, data: string, n: nat)
    requires n <= |Matching(routes, name)| && AllTargets(Matching(routes, name)[..n])
    ensures exists places ::
              && RoutesAt(places, routes, name) && |places| == |Matching(routes, name)|
              && QueuedFor(AllRouted(Matching(routes, name)[..n], data), places, routes, data)
  {
    hide RoutesAt, Matching, IsTarget;
    MatchingAreRoutes(routes, name);
    var ms := Matching(routes, name);
    var places: seq<nat> :| RoutesAt(places, routes, name) && PickedAt(ms, places, routes);
    var es := AllRouted(ms[..n], data);
    forall k | 0 <= k < |es| ensures GoesTo(es[k], routes[places[k]].target, data) {
      assert ms[..n][k] == ms[k];
      RoutedGoesTo(ms[k], data);
    }
    assert QueuedFor(es, places, routes, data);
  }

  lemma {:induction false} RoutedGoesTo(r: Route, data: string)
    requires IsTarget(r.target)
    ensures GoesTo(Routed(r, data), r.target, data)
  {
    hide Parts;
    OnlyTargetForm(r.target);
  }

  lemma {:induction false} NoMatching(name: string)
    ensures Matching([], name) == []
  {
  }

  lemma {:induction false} AllRoutedNext(ms: seq<Route>, n: nat, data: string)
    requires n < |ms| && AllTargets(ms[..n]) && IsTarget(ms[n].target)
    ensures AllTargets(ms[..n + 1])
    ensures AllRouted(ms[..n + 1], data) == AllRouted(ms[..n], data) + [Routed(ms[n], data)]
  {
  }

  lemma {:induction false} MatchingNext(routes: seq<Route>, k: nat, name: string)
    requires k < |routes|
    ensures Matching(routes[..k + 1], name)
         == Matching(routes[..k], name) + if routes[k].eventNameMatch == name then [routes[k]] else []
  {
    assert routes[..k + 1][..k] == routes[..k];
  }

  lemma {:induction false} MatchingPrefix(routes: seq<Route>, k: nat, name: string)
    requires k <= |routes|
    ensures Matching(routes[..k], name) <= Matching(routes, name)
    decreases |routes|
  {
    if k < |routes| {
      assert routes[..|routes| - 1][..k] == routes[..k];
      MatchingPrefix(routes[..|routes| - 1], k, name);
    } else {
      assert routes[..k] == routes;
    }
  }

  /** A target with one slash is well-formed: database and table are around it. */
  lemma {:induction false} TargetForm(database: string, table: string)
    requires '/' !in database && '/' !in table
    ensures Parts(database + "/" + table, "/") == [database, table]
    ensures IsTarget(database + "/" + table)
  {
    hide Parts, Find;
    var list := [database, table];
    NoSlash(table, 0);
    SlashAtEnd(database);
    assert list[1..] == [table];
    assert Joined(list, "/") == database + "/" + table;
    SplitJoin(list, "/");
  }

  /** And only such a target is. */
  lemma {:induction false} OnlyTargetForm(target: string)
    requires IsTarget(target)
    ensures var parts := Parts(target, "/");
            target == parts[0] + "/" + parts[1] && '/' !in parts[0] && '/' !in parts[1]
  {
    hide Find, Parts;
    var parts := Parts(target, "/");
    JoinSplit(target, "/");
    SplitSeparable(target, "/");
    assert Joined(parts, "/") == parts[0] + "/" + Joined(parts[1..], "/");
    if i :| 0 <= i < |parts[1]| && parts[1][i] == '/' {
      SlashAt(parts[1], i);
      FindIsFirst(parts[1], "/", 0, i);
    }
    if i :| 0 <= i < |parts[0]| && parts[0][i] == '/' {
      SlashAt(parts[0] + "/", i);
    }
  }

  lemma {:induction false} SlashAt(s: string, i: nat)
    requires i < |s| && s[i] == '/'
    ensures StringUtil.At(s, "/", i)
  {
    assert s[i..i + 1] == [s[i]];
  }

  lemma {:induction false} NoSlash(s: string, from: nat)
    requires '/' !in s
    ensures Find(s, "/", from).None?
    decreases |s| - from
  {
    if from < |s| {
      assert s[from..from + 1][0] == s[from];
      NoSlash(s, from + 1);
    }
  }

  lemma {:induction false} SlashAtEnd(s: string)
    requires '/' !in s
    ensures FirstAtEnd(s, "/")
  {
    forall i: nat | i < |s| ensures !StringUtil.At(s + "/", "/", i) {
      assert (s + "/")[i..i + 1][0] == s[i];
    }
  }

  /** The routing side of the EventQL target; `accepted` are the events its queue took in. */
  class EventQLTarget {
    var routes: seq<Route>
    var accepted: seq<EnqueuedEvent>

    constructor ()
      ensures routes == [] && accepted == []
    {
      routes, accepted := [], [];
    }

    method AddRoute(eventNameMatch: string, target: string)
      modifies this`routes
      ensures routes == old(routes) + [Route(eventNameMatch, target)]
    {
      routes := routes + [Route(eventNameMatch, target)];
    }

    /** Waits for room and queues the event; the waiting is the subject of `UploadQueue`. */
    method EnqueueEvent(event: EnqueuedEvent) returns (rc: ReturnCode)
      modifies this`accepted
      ensures accepted == old(accepted) + [event] && rc.Success?
    {
      accepted := accepted + [event];
      return Success;
    }

    /**
     Queues the event once for each matching route, in order, up to the first
     one whose target is not of the form database/table.
     */
    method EmitEvent(eventName: string, eventData: string) returns (rc: ReturnCode, ghost n: nat)
      modifies this`accepted
      ensures n <= |Matching(routes, eventName)| && AllTargets(Matching(routes, eventName)[..n])
      ensures accepted == old(accepted) + AllRouted(Matching(routes, eventName)[..n], eventData)
      ensures rc.Success? <==> n == |Matching(routes, eventName)|
      ensures rc.Error? ==> !IsTarget(Matching(routes, eventName)[n].target)
      ensures |accepted| == |old(accepted)| + n
      ensures exists places ::
                && RoutesAt(places, routes, eventName) && |places| == |Matching(routes, eventName)|
                && QueuedFor(accepted[|old(accepted)|..], places, routes, eventData)
    {
      hide Parts, Matching, QueuedFor, RoutesAt;
      n := 0;
      NoMatching(eventName);
      ghost var ms := Matching(routes, eventName);
      assert ms[..0] == [] == routes[..0];
      for k := 0 to |routes|
        invariant n <= |ms| && Matching(routes[..k], eventName) == ms[..n]
        invariant AllTargets(ms[..n])
        invariant accepted == old(accepted) + AllRouted(ms[..n], eventData)
      {
        MatchingNext(routes, k, eventName);
        MatchingPrefix(routes, k + 1, eventName);
        var route := routes[k];
        if route.eventNameMatch != eventName {
          continue;
        }
        assert |Matching(routes[..k + 1], eventName)| == n + 1 <= |ms|;
        assert Matching(routes[..k + 1], eventName) == ms[..n + 1] && ms[n] == route;
        var target := Split(route.target, "/");
        if |target| != 2 {
          QueuedForRoutes(routes, eventName, eventData, n);
          assert accepted[|old(accepted)|..] == AllRouted(ms[..n], eventData);
          return Error("EINVAL"), n;
        }
        var e := EnqueuedEvent(target[0], target[1], eventData);
        rc := EnqueueEvent(e);
        if !rc.Success? {
          return;
        }
        AllRoutedNext(ms, n, eventData);
        n := n + 1;
      }
      assert routes[..|routes|] == routes;
      assert ms[..|ms|] == ms;
      QueuedForRoutes(routes, eventName, eventData, n);
      assert accepted[|old(accepted)|..] == AllRouted(ms[..n], eventData);
      return Success, n;
    }

    /**
     The double loop of `pluginAttach`: reads the `route` properties cell by
     cell up to the first empty one; one that is not a pair is an error.
     */
    method ReadRoutes(cfg: PropertyList) returns (ok: bool)
      modifies this`routes
      ensures var rows := Rows(cfg.properties, "route");
              var n := FirstNonPair(rows);
              && (ok <==> n == |rows| || rows[n] == [])
              && routes == old(routes) + AsRoutes(rows[..n])
    {
      ghost var rows := Rows(cfg.properties, "route");
      var i := 0;
      assert rows[..0] == [];
      while true
        invariant i <= FirstNonPair(rows)
        invariant routes == old(routes) + AsRoutes(rows[..i])
        decreases |rows| - i
      {
        var route := ReadRow(cfg, i);
        if route == [] {
          return true;
        }
        if |route| != 2 {
          return false;
        }
        PairBelow(rows, i);
        AddRoute(route[0], route[1]);
        assert AsRoutes(rows[..i + 1]) == AsRoutes(rows[..i]) + [Route(route[0], route[1])];
        i := i + 1;
      }
    }

    /** The inner loop: one property, argument by argument. */
    method ReadRow(cfg: PropertyList, i: nat) returns (route: seq<string>)
      ensures var rows := Rows(cfg.properties, "route");
              route == if i < |rows| then rows[i] else []
    {
      ghost var rows := Rows(cfg.properties, "route");
      ghost var row := if i < |rows| then rows[i] else [];
      route := [];
      var j := 0;
      while true
        invariant j <= |row| && route == row[..j]
        decreases |row| - j
      {
        var arg := cfg.Getv("route", i, j);
        if arg.None? {
          break;
        }
        route := route + [arg.value];
        j := j + 1;
      }
    }
  }

  function AsRoutes(rows: seq<seq<string>>): (rs: seq<Route>)
    requires forall i :: 0 <= i < |rows| ==> |rows[i]| == 2
    ensures |rs| == |rows| && forall i :: 0 <= i < |rs| ==> rs[i] == Route(rows[i][0], rows[i][1])
  {
    seq(|rows|, i requires 0 <= i < |rows| => Route(rows[i][0], rows[i][1]))
  }

  lemma {:induction false} PairBelow(rows: seq<seq<string>>, i: nat)
    requires i <= FirstNonPair(rows) && i < |rows| && |rows[i]| == 2
    ensures i < FirstNonPair(rows)
  {
  }
}
