/** How one route stands to another: ancestry is a forest whose roots are the tabs' homes. */
module RouteRelation {
  import opened Wrappers
  import opened RouteTable
  import opened RouteParsing
  import opened RouteIdentity
  import opened RouteAncestry
  import opened Ancestry

  datatype Relation = Descend | Ascend | Swap | TabChange

  predicate RouteEquals(codec: Codec, a: Route, b: Route) {
    RouteUrl(codec, a) == RouteUrl(codec, b)
  }

  function EqualsBy(codec: Codec): (Route, Route) -> bool {
    (a: Route, b: Route) => RouteEquals(codec, a, b)
  }

  /** The routes addresses name, of one tab. */
  ghost function InTab(tab: Tab): Route -> bool {
    (r: Route) => Canonical(r) && TabOfKind(r.kind) == tab
  }

  ghost function TabOf(r: Route): Tab {
    TabOfKind(r.kind)
  }

  lemma RoutesRanked(tab: Tab)
    ensures Ranked(ParentRoute, InTab(tab), Level)
  {
    forall r | InTab(tab)(r) && ParentRoute(r).Some?
      ensures InTab(tab)(ParentRoute(r).value) && Level(ParentRoute(r).value) < Level(r)
    {
      ParentStep(r);
    }
  }

  ghost const NAMED: Route -> bool := (r: Route) => Canonical(r)

  lemma AllRanked()
    ensures Ranked(ParentRoute, NAMED, Level)
  {
    forall r | NAMED(r) && ParentRoute(r).Some?
      ensures NAMED(ParentRoute(r).value) && Level(ParentRoute(r).value) < Level(r)
    {
      ParentStep(r);
    }
  }

  lemma EqualsFaithful(codec: Codec)
    requires GoodCodec(codec)
    ensures Faithful(EqualsBy(codec), NAMED)
  {
    forall a, b | NAMED(a) && NAMED(b) ensures EqualsBy(codec)(a, b) <==> a == b {
      if RouteEquals(codec, a, b) { RouteUrlInjective(codec, a, b); }
    }
  }

  /** The number of parents from a route up to another, if it is above. */
  function AscentSteps(codec: Codec, from: Route, to: Route): Option<nat>
    requires Canonical(from)
  {
    AllRanked();
    Steps(ParentRoute, EqualsBy(codec), NAMED, Level, from, to)
  }

  method RouteAscentSteps(codec: Codec, from: Option<Route>, to: Option<Route>) returns (steps: Option<nat>)
    requires from.Some? ==> Canonical(from.value)
    ensures steps == if from.Some? && to.Some? then AscentSteps(codec, from.value, to.value) else None
  {
    if from.None? || to.None? {
      return None;
    }
    AllRanked();
    steps := ClimbTo(ParentRoute, EqualsBy(codec), NAMED, Level, from.value, to.value);
  }

  function RouteRelationOf(codec: Codec, from: Option<Route>, to: Option<Route>): Option<Relation>
    requires from.Some? ==> Canonical(from.value)
    requires to.Some? ==> Canonical(to.value)
  {
    if from.None? || to.None? then None
    else if RouteTab(from.value) != RouteTab(to.value) then Some(TabChange)
    else if AscentSteps(codec, to.value, from.value).Some? then Some(Descend)
    else if AscentSteps(codec, from.value, to.value).Some? then Some(Ascend)
    else Some(Swap)
  }

  // ----- chains of routes

  /** Every chain of parents stays in its tab and ends at the tab's home. */
  lemma EndsAtHome(r: Route) returns (k: nat)
    requires Canonical(r)
    ensures k <= Level(r) && Climb(ParentRoute, r, k) == Some(TabHome(TabOf(r)))
  {
    RoutesRanked(TabOf(r));
    k := ClimbEnds(ParentRoute, InTab(TabOf(r)), Level, r);
    ClimbStays(ParentRoute, InTab(TabOf(r)), Level, r, k);
    ParentStep(Climb(ParentRoute, r, k).value);
  }

  /** The step count is the position of the other route in the chain of parents. */
  lemma AscentMeaning(codec: Codec, from: Route, to: Route, n: nat)
    requires GoodCodec(codec) && Canonical(from) && Canonical(to)
    ensures AscentSteps(codec, from, to) == Some(n) <==> n > 0 && Climb(ParentRoute, from, n) == Some(to)
  {
    AllRanked();
    EqualsFaithful(codec);
    StepsMeaning(ParentRoute, EqualsBy(codec), NAMED, Level, from, to, n);
  }

  /** Steps add up along a chain. */
  lemma AscentAdds(codec: Codec, a: Route, b: Route, c: Route, m: nat, n: nat)
    requires GoodCodec(codec) && Canonical(a) && Canonical(b) && Canonical(c)
    requires AscentSteps(codec, a, b) == Some(m) && AscentSteps(codec, b, c) == Some(n)
    ensures AscentSteps(codec, a, c) == Some(m + n)
  {
    AllRanked();
    EqualsFaithful(codec);
    StepsAdd(ParentRoute, EqualsBy(codec), NAMED, Level, a, b, c, m, n);
  }

  /** A route above another is not below it. */
  lemma AscentStrict(codec: Codec, a: Route, b: Route)
    requires GoodCodec(codec) && Canonical(a) && Canonical(b)
    requires AscentSteps(codec, a, b).Some?
    ensures a != b && AscentSteps(codec, b, a).None?
  {
    AllRanked();
    EqualsFaithful(codec);
    StepsStrict(ParentRoute, EqualsBy(codec), NAMED, Level, a, b);
  }

  /** A route above another is in its tab. */
  lemma AscentInTab(codec: Codec, a: Route, b: Route)
    requires GoodCodec(codec) && Canonical(a) && Canonical(b)
    requires AscentSteps(codec, a, b).Some?
    ensures RouteTab(a) == RouteTab(b)
  {
    var m := AscentSteps(codec, a, b).value;
    AscentMeaning(codec, a, b, m);
    RoutesRanked(TabOf(a));
    ClimbStays(ParentRoute, InTab(TabOf(a)), Level, a, m);
    ParentStep(a);
    ParentStep(b);
  }

  /** Descending one way is ascending the other; staying at one place and changing tabs go both ways. */
  lemma RelationDual(codec: Codec, a: Route, b: Route)
    requires GoodCodec(codec) && Canonical(a) && Canonical(b)
    ensures RouteRelationOf(codec, Some(a), Some(b)) == Some(Descend)
            <==> RouteRelationOf(codec, Some(b), Some(a)) == Some(Ascend)
    ensures RouteRelationOf(codec, Some(a), Some(b)) == Some(Swap)
            <==> RouteRelationOf(codec, Some(b), Some(a)) == Some(Swap)
    ensures RouteRelationOf(codec, Some(a), Some(b)) == Some(TabChange)
            <==> RouteRelationOf(codec, Some(b), Some(a)) == Some(TabChange)
  {
    OneWayOnly(codec, a, b);
    RelationMeans(codec, a, b);
    RelationMeans(codec, b, a);
  }

  lemma OneWayOnly(codec: Codec, a: Route, b: Route)
    requires GoodCodec(codec) && Canonical(a) && Canonical(b)
    ensures AscentSteps(codec, a, b).None? || AscentSteps(codec, b, a).None?
  {
    if AscentSteps(codec, a, b).Some? { AscentStrict(codec, a, b); }
  }

  lemma RelationMeans(codec: Codec, from: Route, to: Route)
    requires Canonical(from) && Canonical(to)
    ensures var relation, same := RouteRelationOf(codec, Some(from), Some(to)), RouteTab(from) == RouteTab(to);
            var down, up := AscentSteps(codec, to, from).Some?, AscentSteps(codec, from, to).Some?;
            && (relation == Some(TabChange) <==> !same)
            && (relation == Some(Descend) <==> same && down)
            && (relation == Some(Ascend) <==> same && up && !down)
            && (relation == Some(Swap) <==> same && !up && !down)
  {
  }

  /** A route is above another when the other's chain of parents comes to it. */
  ghost predicate IsAbove(a: Route, b: Route) {
    exists n: nat :: n > 0 && Climb(ParentRoute, b, n) == Some(a)
  }

  lemma AboveIff(codec: Codec, a: Route, b: Route)
    requires GoodCodec(codec) && Canonical(a) && Canonical(b)
    ensures IsAbove(a, b) <==> AscentSteps(codec, b, a).Some?
  {
    if AscentSteps(codec, b, a).Some? {
      AscentMeaning(codec, b, a, AscentSteps(codec, b, a).value);
    }
    forall n: nat | n > 0 && Climb(ParentRoute, b, n) == Some(a) ensures AscentSteps(codec, b, a).Some? {
      AscentMeaning(codec, b, a, n);
    }
  }

  /** From above one descends, from below one ascends, between tabs one changes tabs, and otherwise one swaps. */
  lemma RelationIff(codec: Codec, a: Route, b: Route)
    requires GoodCodec(codec) && Canonical(a) && Canonical(b)
    ensures var relation := RouteRelationOf(codec, Some(a), Some(b));
            && (relation == Some(Descend) <==> IsAbove(a, b))
            && (relation == Some(Ascend) <==> IsAbove(b, a))
            && (relation == Some(TabChange) <==> TabOf(a) != TabOf(b))
            && (relation == Some(Swap) <==> TabOf(a) == TabOf(b) && !IsAbove(a, b) && !IsAbove(b, a))
  {
    ParentStep(a);
    ParentStep(b);
    AboveIff(codec, a, b);
    AboveIff(codec, b, a);
    OneWayOnly(codec, a, b);
    RelationMeans(codec, a, b);
    if AscentSteps(codec, a, b).Some? { AscentInTab(codec, a, b); }
    if AscentSteps(codec, b, a).Some? { AscentInTab(codec, b, a); }
  }

  /** Descent composes. */
  lemma DescendComposes(codec: Codec, a: Route, b: Route, c: Route)
    requires GoodCodec(codec) && Canonical(a) && Canonical(b) && Canonical(c)
    requires RouteRelationOf(codec, Some(a), Some(b)) == Some(Descend)
    requires RouteRelationOf(codec, Some(b), Some(c)) == Some(Descend)
    ensures RouteRelationOf(codec, Some(a), Some(c)) == Some(Descend)
  {
    AscentAdds(codec, c, b, a, AscentSteps(codec, c, b).value, AscentSteps(codec, b, a).value);
  }

  /** Two routes above one route are above one another: ancestry branches downwards only. */
  lemma AncestorsInLine(codec: Codec, r: Route, a: Route, b: Route)
    requires GoodCodec(codec) && Canonical(r) && Canonical(a) && Canonical(b)
    requires AscentSteps(codec, r, a).Some? && AscentSteps(codec, r, b).Some?
    ensures a == b || AscentSteps(codec, a, b).Some? || AscentSteps(codec, b, a).Some?
  {
    AllRanked();
    EqualsFaithful(codec);
    StepsInLine(ParentRoute, EqualsBy(codec), NAMED, Level, r, a, b);
  }
}
