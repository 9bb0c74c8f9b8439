/** Owner groups of frozen targets, retired together when the page under them changes. */
module HintReconcile {
  import opened Wrappers
  import opened Lists
  import opened HintWords
  import opened HintAllocation

  /** A DOM element, compared by identity. */
  datatype Element = Element(identity: nat)

  datatype Rect = Rect(left: real, top: real, right: real, bottom: real)

  /** What ties a target to its control; a change in any field retires the target. */
  datatype Binding = Binding(
    target: HintTarget,
    activationKey: string,
    owner: Element,
    control: Element,
    anchor: Element,
    clipRoots: seq<Element>,
    occlusionRoots: seq<Element>)

  /** A target as measured now. */
  datatype Descriptor = Descriptor(binding: Binding, labelText: string, actionable: bool, visibleRect: Option<Rect>)

  /** A target of a session, with the code it was given when the session opened. */
  datatype Frozen = Frozen(binding: Binding, labelText: string, visibleRect: Rect, code: string)

  // ----- element sets

  predicate SameElementSet(left: seq<Element>, right: seq<Element>) {
    |left| == |right| && forall e :: e in left ==> e in right
  }

  ghost function Elements(s: seq<Element>): set<Element> {
    set e | e in s
  }

  lemma {:induction false} DistinctCount(s: seq<Element>)
    ensures |Elements(s)| <= |s|
    ensures |Elements(s)| == |s| <==> Distinct(s)
  {
    if s != [] {
      var last, init := s[|s| - 1], s[..|s| - 1];
      DistinctCount(init);
      assert s == init + [last];
      assert Elements(s) == Elements(init) + {last};
      if last in init {
        assert Elements(s) == Elements(init);
        assert !Distinct(s);
      } else {
        assert Distinct(init) <==> Distinct(s) by {
          assert forall i :: 0 <= i < |init| ==> init[i] == s[i] && init[i] in init;
        }
      }
    }
  }

  lemma SubsetOfSameSize(a: set<Element>, b: set<Element>)
    requires a <= b && |b| <= |a|
    ensures a == b
  {
    assert |b - a| == |b| - |a|;
  }

  /** By pigeonhole a one-sided inclusion of a duplicate-free list is equality of sets. */
  lemma SameElementSetMeaning(left: seq<Element>, right: seq<Element>)
    requires Distinct(left)
    ensures SameElementSet(left, right) <==> Distinct(right) && Elements(left) == Elements(right)
  {
    DistinctCount(left);
    DistinctCount(right);
    if SameElementSet(left, right) {
      SubsetOfSameSize(Elements(left), Elements(right));
    }
    assert Elements(left) == Elements(right) ==> forall e :: e in left ==> e in Elements(right);
  }

  lemma SameElementSetEquivalence(a: seq<Element>, b: seq<Element>, c: seq<Element>)
    requires Distinct(a) && Distinct(b)
    ensures SameElementSet(a, a)
    ensures SameElementSet(a, b) <==> SameElementSet(b, a)
    ensures SameElementSet(a, b) && SameElementSet(b, c) ==> SameElementSet(a, c)
  {
    SameElementSetMeaning(a, b);
    SameElementSetMeaning(b, a);
  }

  lemma {:induction false} SomeOtherElement(s: seq<Element>) returns (e: Element)
    ensures e !in s
    ensures forall other :: other in s ==> other.identity < e.identity
  {
    e := Element(0);
    if s != [] {
      var last, init := s[|s| - 1], s[..|s| - 1];
      var above := SomeOtherElement(init);
      assert s == init + [last];
      e := Element(above.identity + last.identity + 1);
    }
  }

  /** The lists the test is symmetric from, whatever they are compared with, are exactly the duplicate-free ones. */
  lemma SameElementSetSymmetricIff(a: seq<Element>)
    ensures (forall b :: SameElementSet(a, b) ==> SameElementSet(b, a)) <==> Distinct(a)
  {
    if Distinct(a) {
      forall b | SameElementSet(a, b) ensures SameElementSet(b, a) {
        SameElementSetTurned(a, b);
      }
    } else {
      var i, j :| 0 <= i < j < |a| && a[i] == a[j];
      var e := SomeOtherElement(a);
      var b := a[i := e];
      forall x | x in a ensures x in b {
        var k :| 0 <= k < |a| && a[k] == x;
        assert b[if k == i then j else k] == x;
      }
      assert b[i] == e && SameElementSet(a, b) && !SameElementSet(b, a);
    }
  }

  lemma SameElementSetTurned(a: seq<Element>, b: seq<Element>)
    requires Distinct(a) && SameElementSet(a, b)
    ensures Distinct(b) && SameElementSet(b, a)
  {
    SameElementSetMeaning(a, b);
    assert forall e :: e in b ==> e in Elements(a);
  }

  /** The elements in order of first occurrence. */
  function FirstOccurrences(elements: seq<Element>): (unique: seq<Element>)
    ensures forall e :: e in unique <==> e in elements
    ensures Distinct(unique)
  {
    if elements == [] then []
    else
      var last, init := elements[|elements| - 1], elements[..|elements| - 1];
      assert elements == init + [last];
      if last in init then FirstOccurrences(init) else FirstOccurrences(init) + [last]
  }

  /** An entry of a list of elements: missing, or one that can or cannot be measured. */
  datatype Entry = Missing | Present(element: Element, measurable: bool)

  function Usable(entries: seq<Entry>): seq<Element> {
    if entries == [] then []
    else
      var last, init := entries[|entries| - 1], entries[..|entries| - 1];
      if last.Present? && last.measurable then Usable(init) + [last.element] else Usable(init)
  }

  lemma UsableStep(entries: seq<Entry>, i: nat)
    requires i < |entries|
    ensures Usable(entries[..i + 1])
            == if entries[i].Present? && entries[i].measurable
               then Usable(entries[..i]) + [entries[i].element] else Usable(entries[..i])
  {
    assert entries[..i + 1][..i] == entries[..i];
  }

  lemma FirstOccurrencesStep(before: seq<Element>, e: Element)
    ensures FirstOccurrences(before + [e]) == if e in before then FirstOccurrences(before) else FirstOccurrences(before) + [e]
    ensures Elements(before + [e]) == Elements(before) + {e}
  {
    assert (before + [e])[..|before|] == before;
  }

  method UniqueElements(entries: seq<Entry>) returns (unique: seq<Element>)
    ensures unique == FirstOccurrences(Usable(entries))
    ensures Distinct(unique) && forall e :: e in unique <==> Present(e, true) in entries
  {
    unique := [];
    var seen: set<Element> := {};
    var i := 0;
    while i < |entries|
      invariant 0 <= i <= |entries|
      invariant unique == FirstOccurrences(Usable(entries[..i]))
      invariant seen == Elements(Usable(entries[..i]))
    {
      var entry := entries[i];
      UsableStep(entries, i);
      ghost var before := Usable(entries[..i]);
      i := i + 1;
      if entry.Missing? || !entry.measurable {
        continue;
      }
      FirstOccurrencesStep(before, entry.element);
      if entry.element !in seen {
        seen := seen + {entry.element};
        unique := unique + [entry.element];
      }
    }
    assert entries[..|entries|] == entries;
    UsableMember(entries);
  }

  lemma {:induction false} UsableMember(entries: seq<Entry>)
    ensures forall e :: e in Usable(entries) <==> Present(e, true) in entries
  {
    if entries != [] {
      var last, init := entries[|entries| - 1], entries[..|entries| - 1];
      assert entries == init + [last];
      UsableMember(init);
    }
  }

  // ----- matching

  predicate SameBinding(left: Binding, right: Binding) {
    && left.target == right.target
    && left.activationKey == right.activationKey
    && left.owner == right.owner
    && left.control == right.control
    && left.anchor == right.anchor
    && SameElementSet(left.clipRoots, right.clipRoots)
    && SameElementSet(left.occlusionRoots, right.occlusionRoots)
  }

  ghost predicate GoodDescriptorIds(current: seq<Descriptor>) {
    && (forall i :: 0 <= i < |current| ==> current[i].binding.target.id != "")
    && (forall i, j :: 0 <= i < j < |current| ==> current[i].binding.target.id != current[j].binding.target.id)
  }

  function Find(current: seq<Descriptor>, id: string): (found: Option<Descriptor>)
    ensures found.Some? ==> found.value in current && found.value.binding.target.id == id
    ensures found.None? ==> forall d :: d in current ==> d.binding.target.id != id
  {
    if current == [] then None
    else if current[|current| - 1].binding.target.id == id then Some(current[|current| - 1])
    else
      assert current == current[..|current| - 1] + [current[|current| - 1]];
      Find(current[..|current| - 1], id)
  }

  /** The page still shows the target, as it was, and it can be used. */
  predicate Matched(frozen: Frozen, current: seq<Descriptor>) {
    var found := Find(current, frozen.binding.target.id);
    && found.Some?
    && found.value.actionable
    && found.value.visibleRect.Some?
    && SameBinding(frozen.binding, found.value.binding)
  }

  /** Every target of the owner is matched. */
  ghost predicate OwnerLives(frozen: seq<Frozen>, current: seq<Descriptor>, owner: Element) {
    forall f :: f in frozen && f.binding.owner == owner ==> Matched(f, current)
  }

  function Refresh(frozen: Frozen, current: seq<Descriptor>): (updated: Frozen)
    ensures updated.binding == frozen.binding && updated.code == frozen.code
  {
    var found := Find(current, frozen.binding.target.id);
    if found.Some? && found.value.visibleRect.Some?
    then frozen.(labelText := found.value.labelText, visibleRect := found.value.visibleRect.value)
    else frozen
  }

  function RetiredOwners(frozen: seq<Frozen>, current: seq<Descriptor>): (owners: seq<Element>)
    ensures Distinct(owners)
  {
    if frozen == [] then []
    else
      var last, owners := frozen[|frozen| - 1], RetiredOwners(frozen[..|frozen| - 1], current);
      if Matched(last, current) || last.binding.owner in owners then owners else owners + [last.binding.owner]
  }

  /** Of `group`, the targets whose owner lives among all the frozen targets, in order, measured anew. */
  ghost function Survivors(group: seq<Frozen>, frozen: seq<Frozen>, current: seq<Descriptor>): seq<Frozen> {
    if group == [] then []
    else
      (if OwnerLives(frozen, current, group[0].binding.owner) then [Refresh(group[0], current)] else [])
      + Survivors(group[1..], frozen, current)
  }

  datatype Reconciliation = Reconciliation(retiredOwners: seq<Element>, targets: seq<Frozen>)

  ghost function Reconcile(frozen: seq<Frozen>, current: seq<Descriptor>): Option<Reconciliation> {
    if GoodDescriptorIds(current)
    then Some(Reconciliation(RetiredOwners(frozen, current), Survivors(frozen, frozen, current)))
    else None
  }

  /** An owner is retired exactly when one of its targets no longer matches. */
  lemma {:induction false} RetiredOwnersMeaning(frozen: seq<Frozen>, current: seq<Descriptor>, owner: Element)
    ensures owner in RetiredOwners(frozen, current) <==> !OwnerLives(frozen, current, owner)
  {
    if frozen != [] {
      var last, init := frozen[|frozen| - 1], frozen[..|frozen| - 1];
      assert frozen == init + [last];
      RetiredOwnersMeaning(init, current, owner);
    }
  }

  // ----- the reconciliation loops

  /** The table finds what a search of the list would. */
  ghost predicate Indexed(current: seq<Descriptor>, table: map<string, Descriptor>) {
    forall id :: if id in table then Find(current, id) == Some(table[id]) else Find(current, id).None?
  }

  lemma IndexStep(before: seq<Descriptor>, d: Descriptor, table: map<string, Descriptor>)
    requires GoodDescriptorIds(before) && Indexed(before, table)
    requires d.binding.target.id != "" && d.binding.target.id !in table
    ensures GoodDescriptorIds(before + [d])
    ensures Indexed(before + [d], table[d.binding.target.id := d])
  {
    var id := d.binding.target.id;
    assert Find(before, id).None?;
    assert forall k :: 0 <= k < |before| ==> before[k] in before;
    FindLast(before, d);
  }

  lemma FindLast(before: seq<Descriptor>, d: Descriptor)
    ensures forall id :: Find(before + [d], id) == if d.binding.target.id == id then Some(d) else Find(before, id)
  {
    assert (before + [d])[..|before|] == before;
  }

  lemma BadId(current: seq<Descriptor>, i: nat, table: map<string, Descriptor>)
    requires i < |current| && Indexed(current[..i], table)
    requires current[i].binding.target.id == "" || current[i].binding.target.id in table
    ensures !GoodDescriptorIds(current)
  {
    var id := current[i].binding.target.id;
    if id in table {
      var found := Find(current[..i], id).value;
      var k :| 0 <= k < i && current[..i][k] == found;
      assert current[k].binding.target.id == id;
    }
  }

  method IndexById(current: seq<Descriptor>) returns (byId: Option<map<string, Descriptor>>)
    ensures byId.Some? <==> GoodDescriptorIds(current)
    ensures byId.Some? ==> Indexed(current, byId.value)
  {
    var table: map<string, Descriptor> := map[];
    var i := 0;
    while i < |current|
      invariant 0 <= i <= |current|
      invariant GoodDescriptorIds(current[..i])
      invariant Indexed(current[..i], table)
    {
      var id := current[i].binding.target.id;
      if id == "" || id in table {
        BadId(current, i, table);
        return None;
      }
      IndexStep(current[..i], current[i], table);
      assert current[..i + 1] == current[..i] + [current[i]];
      table := table[id := current[i]];
      i := i + 1;
    }
    assert current[..|current|] == current;
    return Some(table);
  }

  method ReconcileActionHintTargets(frozen: seq<Frozen>, current: seq<Descriptor>)
    returns (r: Option<Reconciliation>)
    ensures r == Reconcile(frozen, current)
  {
    var byId := IndexById(current);
    if byId.None? {
      return None;
    }
    var retired: seq<Element> := [];
    var i := 0;
    while i < |frozen|
      invariant 0 <= i <= |frozen|
      invariant retired == RetiredOwners(frozen[..i], current)
    {
      assert frozen[..i + 1][..i] == frozen[..i];
      var id := frozen[i].binding.target.id;
      var found := if id in byId.value then Some(byId.value[id]) else None;
      if found.None? || !found.value.actionable || found.value.visibleRect.None?
         || !SameBinding(frozen[i].binding, found.value.binding) {
        if frozen[i].binding.owner !in retired {
          retired := retired + [frozen[i].binding.owner];
        }
      }
      i := i + 1;
    }
    assert frozen[..|frozen|] == frozen;
    var targets := KeepLiving(frozen, current, byId.value, retired);
    return Some(Reconciliation(retired, targets));
  }

  method KeepLiving(frozen: seq<Frozen>, current: seq<Descriptor>, byId: map<string, Descriptor>, retired: seq<Element>)
    returns (targets: seq<Frozen>)
    requires retired == RetiredOwners(frozen, current)
    requires Indexed(current, byId)
    ensures targets == Survivors(frozen, frozen, current)
  {
    targets := [];
    var i := 0;
    while i < |frozen|
      invariant 0 <= i <= |frozen|
      invariant Survivors(frozen, frozen, current) == targets + Survivors(frozen[i..], frozen, current)
    {
      var target := frozen[i];
      var id := target.binding.target.id;
      NextSurvivor(frozen, i, current, targets);
      if target.binding.owner !in retired && id in byId && byId[id].visibleRect.Some? {
        targets := targets + [target.(labelText := byId[id].labelText, visibleRect := byId[id].visibleRect.value)];
      }
      i := i + 1;
    }
    assert targets + [] == targets;
  }

  /** The survivors from a position on begin with the target there, measured anew, if its owner is not retired. */
  lemma NextSurvivor(frozen: seq<Frozen>, i: nat, current: seq<Descriptor>, sofar: seq<Frozen>)
    requires i < |frozen|
    ensures var lives := frozen[i].binding.owner !in RetiredOwners(frozen, current);
            && (lives ==> Matched(frozen[i], current))
            && sofar + Survivors(frozen[i..], frozen, current)
               == (if lives then sofar + [Refresh(frozen[i], current)] else sofar) + Survivors(frozen[i + 1..], frozen, current)
  {
    RetiredOwnersMeaning(frozen, current, frozen[i].binding.owner);
    assert frozen[i] in frozen && frozen[i..][0] == frozen[i] && frozen[i..][1..] == frozen[i + 1..];
  }

  // ----- what reconciling keeps

  /** What of a target never changes while it lives. */
  function Core(frozen: Frozen): Frozen {
    frozen.(labelText := "", visibleRect := Rect(0.0, 0.0, 0.0, 0.0))
  }

  function Cores(frozen: seq<Frozen>): seq<Frozen> {
    seq(|frozen|, i requires 0 <= i < |frozen| => Core(frozen[i]))
  }

  lemma {:induction false} SurvivorMember(group: seq<Frozen>, frozen: seq<Frozen>, current: seq<Descriptor>, g: Frozen)
    ensures g in Survivors(group, frozen, current)
            <==> exists f :: f in group && OwnerLives(frozen, current, f.binding.owner) && g == Refresh(f, current)
  {
    if group != [] {
      SurvivorMember(group[1..], frozen, current, g);
      assert group == [group[0]] + group[1..];
    }
  }

  /** The group of a living owner is intact among the survivors, so it matches later exactly when it did before. */
  lemma GroupIntact(frozen: seq<Frozen>, current: seq<Descriptor>, owner: Element, later: seq<Descriptor>)
    requires OwnerLives(frozen, current, owner)
    ensures OwnerLives(Survivors(frozen, frozen, current), later, owner) <==> OwnerLives(frozen, later, owner)
  {
    var survivors := Survivors(frozen, frozen, current);
    forall f | f in frozen && f.binding.owner == owner
      ensures Refresh(f, current) in survivors && Matched(Refresh(f, current), later) == Matched(f, later)
    {
      SurvivorMember(frozen, frozen, current, Refresh(f, current));
    }
    forall g | g in survivors && g.binding.owner == owner
      ensures exists f :: f in frozen && f.binding.owner == owner && Matched(f, later) == Matched(g, later)
    {
      SurvivorMember(frozen, frozen, current, g);
      var f :| f in frozen && OwnerLives(frozen, current, f.binding.owner) && g == Refresh(f, current);
      assert Matched(f, later) == Matched(g, later);
    }
  }

  /** Successive reconciliations, stopping at the first that is refused. */
  ghost function RunReconcile(frozen: seq<Frozen>, pages: seq<seq<Descriptor>>): Option<seq<Frozen>>
    decreases |pages|
  {
    if pages == [] then Some(frozen)
    else
      match Reconcile(frozen, pages[0])
      case None => None
      case Some(r) => RunReconcile(r.targets, pages[1..])
  }

  ghost predicate AlwaysLives(frozen: seq<Frozen>, pages: seq<seq<Descriptor>>, owner: Element) {
    forall k :: 0 <= k < |pages| ==> OwnerLives(frozen, pages[k], owner)
  }

  /** The targets of `group` whose owner's whole original group matched on every page. */
  ghost function Enduring(group: seq<Frozen>, frozen: seq<Frozen>, pages: seq<seq<Descriptor>>): seq<Frozen> {
    if group == [] then []
    else
      (if AlwaysLives(frozen, pages, group[0].binding.owner) then [group[0]] else [])
      + Enduring(group[1..], frozen, pages)
  }

  lemma AlwaysLivesStep(frozen: seq<Frozen>, pages: seq<seq<Descriptor>>, owner: Element)
    requires pages != []
    ensures AlwaysLives(frozen, pages, owner)
            <==> && OwnerLives(frozen, pages[0], owner)
                 && AlwaysLives(Survivors(frozen, frozen, pages[0]), pages[1..], owner)
  {
    var survivors := Survivors(frozen, frozen, pages[0]);
    assert forall k :: 0 <= k < |pages| - 1 ==> pages[1..][k] == pages[k + 1];
    if OwnerLives(frozen, pages[0], owner) {
      forall k | 0 <= k < |pages| - 1
        ensures OwnerLives(survivors, pages[1..][k], owner) <==> OwnerLives(frozen, pages[k + 1], owner)
      {
        GroupIntact(frozen, pages[0], owner, pages[k + 1]);
      }
      forall k | 0 < k < |pages|
        ensures OwnerLives(frozen, pages[k], owner) <==> OwnerLives(survivors, pages[1..][k - 1], owner)
      {
        GroupIntact(frozen, pages[0], owner, pages[k]);
      }
    }
  }

  lemma {:induction false} EnduringStep(group: seq<Frozen>, frozen: seq<Frozen>, pages: seq<seq<Descriptor>>)
    requires pages != []
    ensures var survivors := Survivors(frozen, frozen, pages[0]);
            Cores(Enduring(Survivors(group, frozen, pages[0]), survivors, pages[1..]))
            == Cores(Enduring(group, frozen, pages))
  {
    if group != [] {
      var survivors := Survivors(frozen, frozen, pages[0]);
      EnduringStep(group[1..], frozen, pages);
      AlwaysLivesStep(frozen, pages, group[0].binding.owner);
      var rest := Survivors(group[1..], frozen, pages[0]);
      if OwnerLives(frozen, pages[0], group[0].binding.owner) {
        var list := [Refresh(group[0], pages[0])] + rest;
        assert list[1..] == rest;
        CoresConcat([list[0]], Enduring(rest, survivors, pages[1..]));
        CoresConcat([group[0]], Enduring(group[1..], frozen, pages));
        CoresConcat([], Enduring(rest, survivors, pages[1..]));
        CoresConcat([], Enduring(group[1..], frozen, pages));
      } else {
        assert [] + rest == rest;
        assert [] + Enduring(group[1..], frozen, pages) == Enduring(group[1..], frozen, pages);
      }
    }
  }

  lemma CoresConcat(a: seq<Frozen>, b: seq<Frozen>)
    ensures Cores(a + b) == Cores(a) + Cores(b)
  {
  }

  /**
   * After any run of reconciliations the survivors are exactly the original targets whose
   * owner's whole group matched every time, in their order and with their codes.
   */
  lemma {:induction false} GroupsLiveOrDieTogether(frozen: seq<Frozen>, pages: seq<seq<Descriptor>>)
    ensures RunReconcile(frozen, pages).Some? <==> forall k :: 0 <= k < |pages| ==> GoodDescriptorIds(pages[k])
    ensures RunReconcile(frozen, pages).Some? ==>
              Cores(RunReconcile(frozen, pages).value) == Cores(Enduring(frozen, frozen, pages))
    decreases |pages|
  {
    if pages == [] {
      EnduringAll(frozen, frozen);
    } else {
      assert pages == [pages[0]] + pages[1..];
      var survivors := Survivors(frozen, frozen, pages[0]);
      GroupsLiveOrDieTogether(survivors, pages[1..]);
      EnduringStep(frozen, frozen, pages);
    }
  }

  lemma {:induction false} EnduringAll(group: seq<Frozen>, frozen: seq<Frozen>)
    ensures Enduring(group, frozen, []) == group
  {
    if group != [] {
      EnduringAll(group[1..], frozen);
    }
  }

  /** Reconciling again with an unchanged page retires nothing and changes nothing. */
  lemma ReconcileIdempotent(frozen: seq<Frozen>, current: seq<Descriptor>)
    requires GoodDescriptorIds(current)
    ensures var once := Reconcile(frozen, current).value.targets;
            Reconcile(once, current) == Some(Reconciliation([], once))
  {
    var once := Survivors(frozen, frozen, current);
    forall g | g in once ensures OwnerLives(once, current, g.binding.owner) && Refresh(g, current) == g {
      SurvivorMember(frozen, frozen, current, g);
      GroupIntact(frozen, current, g.binding.owner, current);
    }
    AllSurvive(once, once, current);
    NoneRetired(once, current);
  }

  lemma {:induction false} AllSurvive(group: seq<Frozen>, frozen: seq<Frozen>, current: seq<Descriptor>)
    requires forall g :: g in group ==> OwnerLives(frozen, current, g.binding.owner) && Refresh(g, current) == g
    ensures Survivors(group, frozen, current) == group
  {
    if group != [] {
      AllSurvive(group[1..], frozen, current);
    }
  }

  lemma NoneRetired(frozen: seq<Frozen>, current: seq<Descriptor>)
    requires forall g :: g in frozen ==> OwnerLives(frozen, current, g.binding.owner)
    ensures RetiredOwners(frozen, current) == []
  {
    forall owner ensures owner !in RetiredOwners(frozen, current) {
      RetiredOwnersMeaning(frozen, current, owner);
    }
    SomeMember(RetiredOwners(frozen, current));
  }

  // ----- what a match and a survivor show

  /** Bindings are the same when they differ at most in the order of their lists of roots. */
  lemma SameBindingMeans(left: Binding, right: Binding)
    requires Distinct(left.clipRoots) && Distinct(left.occlusionRoots)
    ensures SameBinding(left, right) <==>
              && right.(clipRoots := left.clipRoots, occlusionRoots := left.occlusionRoots) == left
              && Distinct(right.clipRoots) && Elements(right.clipRoots) == Elements(left.clipRoots)
              && Distinct(right.occlusionRoots) && Elements(right.occlusionRoots) == Elements(left.occlusionRoots)
  {
    SameElementSetMeaning(left.clipRoots, right.clipRoots);
    SameElementSetMeaning(left.occlusionRoots, right.occlusionRoots);
  }

  ghost predicate ShownBy(binding: Binding, d: Descriptor) {
    && d.binding.target.id == binding.target.id
    && d.actionable && d.visibleRect.Some? && SameBinding(binding, d.binding)
  }

  /** A target matches exactly when a usable, visible descriptor of the page has its id and its binding. */
  lemma MatchedMeans(frozen: Frozen, current: seq<Descriptor>)
    requires GoodDescriptorIds(current)
    ensures Matched(frozen, current) <==> exists d :: d in current && ShownBy(frozen.binding, d)
  {
    if exists d :: d in current && ShownBy(frozen.binding, d) {
      var d :| d in current && ShownBy(frozen.binding, d);
      var found := Find(current, frozen.binding.target.id);
      SameIdSameDescriptor(current, d, found.value);
    }
  }

  lemma SameIdSameDescriptor(current: seq<Descriptor>, a: Descriptor, b: Descriptor)
    requires GoodDescriptorIds(current) && a in current && b in current
    requires a.binding.target.id == b.binding.target.id
    ensures a == b
  {
    var i :| 0 <= i < |current| && current[i] == a;
    var j :| 0 <= j < |current| && current[j] == b;
    assert i == j;
  }

  /** The target looks as the descriptor does, and is what it was. */
  ghost predicate LooksAs(g: Frozen, d: Descriptor) {
    ShownBy(g.binding, d) && g.labelText == d.labelText && Some(g.visibleRect) == d.visibleRect
  }

  /** Every survivor carries the label and the place the page shows now. */
  lemma SurvivorShown(frozen: seq<Frozen>, current: seq<Descriptor>, g: Frozen)
    requires Reconcile(frozen, current).Some? && g in Reconcile(frozen, current).value.targets
    ensures exists d :: d in current && LooksAs(g, d)
  {
    SurvivorMember(frozen, frozen, current, g);
    var f :| f in frozen && OwnerLives(frozen, current, f.binding.owner) && g == Refresh(f, current);
    assert Matched(f, current);
    var d := Find(current, f.binding.target.id).value;
    assert LooksAs(g, d);
  }

  /** After a run of reconciliations every survivor carries what the last page shows. */
  lemma {:induction false} RunSurvivorShown(frozen: seq<Frozen>, pages: seq<seq<Descriptor>>, g: Frozen)
    requires pages != [] && RunReconcile(frozen, pages).Some? && g in RunReconcile(frozen, pages).value
    ensures exists d :: d in pages[|pages| - 1] && LooksAs(g, d)
    decreases |pages|
  {
    var once := Reconcile(frozen, pages[0]).value.targets;
    if |pages| == 1 {
      assert RunReconcile(once, pages[1..]) == Some(once);
      SurvivorShown(frozen, pages[0], g);
    } else {
      RunSurvivorShown(once, pages[1..], g);
    }
  }
}
