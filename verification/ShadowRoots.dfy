/** The shadow roots of the document, and what is attached to the document and to each of them. */
module ShadowRootsModel {
  import opened Lists

  datatype Tree = Document | ShadowRoot(id: nat)

  /** One call of `attach`; calls are numbered in the order they are made. */
  datatype Attachment = Attachment(subscription: nat, tree: Tree)

  /** One entry of a subscription's map: a tree, and the attachment its detacher undoes. */
  datatype Entry = Entry(tree: Tree, attachment: nat)

  /**
   * Sets and maps keep the order of insertion. A subscription is known by its number, is followed while it is
   * in `watchers`, and keeps its entries in `detachers`; `made` and `undone` are the calls so far.
   */
  datatype Ledger = Ledger(
    shadowRoots: seq<Tree>,
    watchers: seq<nat>,
    detachers: seq<seq<Entry>>,
    made: seq<Attachment>,
    undone: seq<nat>)

  datatype Event = Add(root: Tree) | Remove(root: Tree) | Subscribe | Stop(subscription: nat)

  const START: Ledger := Ledger([], [], [], [], [])

  // ----- insertion-ordered sets and maps

  function Position<T(==)>(items: seq<T>, item: T): (i: nat)
    ensures i <= |items|
    ensures i < |items| ==> items[i] == item
    ensures item in items <==> i < |items|
  {
    if items == [] then 0 else if items[0] == item then 0 else 1 + Position(items[1..], item)
  }

  function Delete<T>(items: seq<T>, i: nat): seq<T> {
    if i < |items| then items[..i] + items[i + 1..] else items
  }

  function Without<T(==)>(items: seq<T>, item: T): seq<T> {
    Delete(items, Position(items, item))
  }

  function Keys(entries: seq<Entry>): (keys: seq<Tree>)
    ensures |keys| == |entries|
    ensures forall i :: 0 <= i < |keys| ==> keys[i] == entries[i].tree
  {
    seq(|entries|, i requires 0 <= i < |entries| => entries[i].tree)
  }

  function Values(entries: seq<Entry>): (values: seq<nat>)
    ensures |values| == |entries|
    ensures forall i :: 0 <= i < |values| ==> values[i] == entries[i].attachment
  {
    seq(|entries|, i requires 0 <= i < |entries| => entries[i].attachment)
  }

  function Put(entries: seq<Entry>, entry: Entry): seq<Entry> {
    var i := Position(Keys(entries), entry.tree);
    if i < |entries| then entries[i := entry] else entries + [entry]
  }

  // ----- what each operation does

  function Trees(l: Ledger): seq<Tree> {
    [Document] + l.shadowRoots
  }

  predicate Known(l: Ledger, subscriptions: seq<nat>) {
    forall i :: 0 <= i < |subscriptions| ==> subscriptions[i] < |l.detachers|
  }

  function Attached(l: Ledger, subscription: nat, tree: Tree): Ledger
    requires subscription < |l.detachers|
  {
    l.(detachers := l.detachers[subscription := Put(l.detachers[subscription], Entry(tree, |l.made|))],
       made := l.made + [Attachment(subscription, tree)])
  }

  function EntryDeleted(l: Ledger, subscription: nat, i: nat): Ledger
    requires subscription < |l.detachers| && i < |l.detachers[subscription]|
  {
    var entries := l.detachers[subscription];
    l.(detachers := l.detachers[subscription := Delete(entries, i)], undone := l.undone + [entries[i].attachment])
  }

  function Detached(l: Ledger, subscription: nat, tree: Tree): Ledger
    requires subscription < |l.detachers|
  {
    var entries := l.detachers[subscription];
    var i := Position(Keys(entries), tree);
    if i == |entries| then l
    else EntryDeleted(l, subscription, i)
  }

  function AttachedToAll(l: Ledger, subscription: nat, trees: seq<Tree>): (r: Ledger)
    requires subscription < |l.detachers|
    ensures |r.detachers| == |l.detachers| && r.watchers == l.watchers && r.shadowRoots == l.shadowRoots
  {
    if trees == [] then l
    else Attached(AttachedToAll(l, subscription, trees[..|trees| - 1]), subscription, trees[|trees| - 1])
  }

  lemma AttachedToAllStep(l: Ledger, subscription: nat, trees: seq<Tree>, i: nat)
    requires subscription < |l.detachers| && i < |trees|
    ensures AttachedToAll(l, subscription, trees[..i + 1])
            == Attached(AttachedToAll(l, subscription, trees[..i]), subscription, trees[i])
  {
    assert trees[..i + 1][..i] == trees[..i];
  }

  function AddedForAll(l: Ledger, watchers: seq<nat>, root: Tree): (r: Ledger)
    requires Known(l, watchers)
    ensures |r.detachers| == |l.detachers| && r.watchers == l.watchers && r.shadowRoots == l.shadowRoots
  {
    if watchers == [] then l
    else Attached(AddedForAll(l, watchers[..|watchers| - 1], root), watchers[|watchers| - 1], root)
  }

  function RemovedForAll(l: Ledger, watchers: seq<nat>, root: Tree): (r: Ledger)
    requires Known(l, watchers)
    ensures |r.detachers| == |l.detachers| && r.watchers == l.watchers && r.shadowRoots == l.shadowRoots
  {
    if watchers == [] then l
    else Detached(RemovedForAll(l, watchers[..|watchers| - 1], root), watchers[|watchers| - 1], root)
  }

  function Added(l: Ledger, root: Tree): Ledger
    requires Known(l, l.watchers)
  {
    if root in l.shadowRoots then l
    else AddedForAll(l.(shadowRoots := l.shadowRoots + [root]), l.watchers, root)
  }

  function Removed(l: Ledger, root: Tree): Ledger
    requires Known(l, l.watchers)
  {
    if root !in l.shadowRoots then l
    else RemovedForAll(l.(shadowRoots := Without(l.shadowRoots, root)), l.watchers, root)
  }

  function Subscribed(l: Ledger): Ledger {
    var subscription := |l.detachers|;
    var all := AttachedToAll(l.(detachers := l.detachers + [[]]), subscription, Trees(l));
    all.(watchers := all.watchers + [subscription])
  }

  function Stopped(l: Ledger, subscription: nat): Ledger
    requires subscription < |l.detachers|
  {
    l.(watchers := Without(l.watchers, subscription),
       undone := l.undone + Values(l.detachers[subscription]),
       detachers := l.detachers[subscription := []])
  }

  // ----- the module's state, changed in place

  class ShadowRoots {
    var shadowRoots: seq<Tree>
    var watchers: seq<nat>
    var detachers: seq<seq<Entry>>
    var made: seq<Attachment>
    var undone: seq<nat>

    function View(): Ledger
      reads this
    {
      Ledger(shadowRoots, watchers, detachers, made, undone)
    }

    constructor ()
      ensures View() == START
    {
      shadowRoots, watchers, detachers, made, undone := [], [], [], [], [];
    }

    method Attach(subscription: nat, tree: Tree)
      requires subscription < |detachers|
      modifies this
      ensures View() == Attached(old(View()), subscription, tree)
    {
      var attachment := |made|;
      made := made + [Attachment(subscription, tree)];
      detachers := detachers[subscription := Put(detachers[subscription], Entry(tree, attachment))];
    }

    method Detach(subscription: nat, tree: Tree)
      requires subscription < |detachers|
      modifies this
      ensures View() == Detached(old(View()), subscription, tree)
    {
      var entries := detachers[subscription];
      var i := Position(Keys(entries), tree);
      if i < |entries| {
        undone := undone + [entries[i].attachment];
        detachers := detachers[subscription := Delete(entries, i)];
      }
    }

    method AddShadowRoot(root: Tree)
      requires Known(View(), watchers)
      modifies this
      ensures View() == Added(old(View()), root)
    {
      if root in shadowRoots {
        return;
      }
      shadowRoots := shadowRoots + [root];
      ghost var begun := View();
      for i := 0 to |watchers|
        invariant watchers == begun.watchers
        invariant View() == AddedForAll(begun, begun.watchers[..i], root)
      {
        assert begun.watchers[..i + 1][..i] == begun.watchers[..i];
        Attach(watchers[i], root);
      }
      assert begun.watchers[..|watchers|] == begun.watchers;
    }

    method RemoveShadowRoot(root: Tree)
      requires Known(View(), watchers)
      modifies this
      ensures View() == Removed(old(View()), root)
    {
      if root !in shadowRoots {
        return;
      }
      shadowRoots := Without(shadowRoots, root);
      ghost var begun := View();
      for i := 0 to |watchers|
        invariant watchers == begun.watchers
        invariant View() == RemovedForAll(begun, begun.watchers[..i], root)
      {
        assert begun.watchers[..i + 1][..i] == begun.watchers[..i];
        Detach(watchers[i], root);
      }
      assert begun.watchers[..|watchers|] == begun.watchers;
    }

    method EachDocumentTree() returns (subscription: nat)
      modifies this
      ensures subscription == |old(detachers)| && View() == Subscribed(old(View()))
    {
      subscription := |detachers|;
      detachers := detachers + [[]];
      var trees := [Document] + shadowRoots;
      ghost var begun := View();
      for i := 0 to |trees|
        invariant |detachers| == |begun.detachers|
        invariant View() == AttachedToAll(begun, subscription, trees[..i])
      {
        AttachedToAllStep(begun, subscription, trees, i);
        Attach(subscription, trees[i]);
      }
      assert trees[..|trees|] == trees;
      watchers := watchers + [subscription];
    }

    /** The function a subscription is given to end it. */
    method StopFollowing(subscription: nat)
      requires subscription < |detachers|
      modifies this
      ensures View() == Stopped(old(View()), subscription)
    {
      watchers := Without(watchers, subscription);
      var entries := detachers[subscription];
      ghost var before := undone;
      for i := 0 to |entries|
        invariant View() == old(View()).(watchers := watchers, undone := before + Values(entries[..i]))
        invariant watchers == Without(old(watchers), subscription)
      {
        assert Values(entries[..i + 1]) == Values(entries[..i]) + [entries[i].attachment];
        undone := undone + [entries[i].attachment];
      }
      assert entries[..|entries|] == entries;
      detachers := detachers[subscription := []];
    }
  }

  // ----- the books: entries are the attachments made and not undone

  ghost predicate EntryKept(l: Ledger, subscription: nat, entry: Entry) {
    && entry.attachment < |l.made|
    && l.made[entry.attachment] == Attachment(subscription, entry.tree)
    && entry.attachment !in l.undone
  }

  predicate Active(l: Ledger, attachment: nat) {
    attachment < |l.made| && attachment !in l.undone
  }

  ghost predicate HasEntry(l: Ledger, attachment: nat)
    requires attachment < |l.made|
  {
    var a := l.made[attachment];
    a.subscription < |l.detachers| && Entry(a.tree, attachment) in l.detachers[a.subscription]
  }

  ghost predicate Books(l: Ledger) {
    && (forall s, i :: 0 <= s < |l.detachers| && 0 <= i < |l.detachers[s]| ==> EntryKept(l, s, l.detachers[s][i]))
    && (forall s :: 0 <= s < |l.detachers| ==> Distinct(Keys(l.detachers[s])))
    && (forall a :: Active(l, a) ==> HasEntry(l, a))
    && Distinct(l.undone) && (forall i :: 0 <= i < |l.undone| ==> l.undone[i] < |l.made|)
  }

  lemma AttachKeeps(l: Ledger, subscription: nat, tree: Tree)
    requires Books(l) && subscription < |l.detachers| && tree !in Keys(l.detachers[subscription])
    ensures var next := Attached(l, subscription, tree);
            && Books(next)
            && Keys(next.detachers[subscription]) == Keys(l.detachers[subscription]) + [tree]
  {
    var next := Attached(l, subscription, tree);
    var entries := l.detachers[subscription];
    assert next.detachers[subscription] == entries + [Entry(tree, |l.made|)];
    forall a: nat | Active(next, a) ensures HasEntry(next, a) {
      if a < |l.made| {
        assert Active(l, a) && HasEntry(l, a);
      } else {
        assert (entries + [Entry(tree, |l.made|)])[|entries|] == Entry(tree, a);
      }
    }
  }

  lemma DeleteDistinct<T>(items: seq<T>, i: nat)
    requires Distinct(items)
    ensures Distinct(Delete(items, i))
  {
  }

  lemma WithoutKeeps<T>(items: seq<T>, gone: T)
    requires Distinct(items)
    ensures Distinct(Without(items, gone))
    ensures forall item :: item in Without(items, gone) <==> item in items && item != gone
  {
    var left, i := Without(items, gone), Position(items, gone);
    forall item | item in items && item != gone ensures item in left {
      var k :| 0 <= k < |items| && items[k] == item;
      assert left[if k < i then k else k - 1] == item;
    }
  }

  lemma DetachKeeps(l: Ledger, subscription: nat, tree: Tree)
    requires Books(l) && subscription < |l.detachers|
    ensures var next, keys := Detached(l, subscription, tree), Keys(l.detachers[subscription]);
            && Books(next)
            && Keys(next.detachers[subscription]) == Without(keys, tree)
            && (forall s :: 0 <= s < |l.detachers| && s != subscription ==> next.detachers[s] == l.detachers[s])
  {
    var entries := l.detachers[subscription];
    var i := Position(Keys(entries), tree);
    if i < |entries| {
      DeleteEntry(l, subscription, i);
    }
    assert Keys(Delete(entries, i)) == Delete(Keys(entries), i);
  }

  lemma DeleteEntry(l: Ledger, subscription: nat, i: nat)
    requires Books(l) && subscription < |l.detachers| && i < |l.detachers[subscription]|
    ensures Books(EntryDeleted(l, subscription, i))
  {
    var next, entries := EntryDeleted(l, subscription, i), l.detachers[subscription];
    assert EntryKept(l, subscription, entries[i]);
    forall s, k | 0 <= s < |next.detachers| && 0 <= k < |next.detachers[s]|
      ensures EntryKept(next, s, next.detachers[s][k])
    {
      DeletedEntryKept(l, subscription, i, s, k);
    }
    forall s | 0 <= s < |next.detachers| ensures Distinct(Keys(next.detachers[s])) {
      if s == subscription {
        assert Keys(Delete(entries, i)) == Delete(Keys(entries), i);
        DeleteDistinct(Keys(entries), i);
      } else {
        assert next.detachers[s] == l.detachers[s];
      }
    }
    forall a: nat | Active(next, a) ensures HasEntry(next, a) {
      assert Active(l, a) && HasEntry(l, a);
      assert next.undone[|l.undone|] == entries[i].attachment;
      DeletedElsewhere(entries, i, Entry(l.made[a].tree, a));
    }
  }

  lemma DeletedEntryKept(l: Ledger, subscription: nat, i: nat, s: nat, k: nat)
    requires Books(l) && subscription < |l.detachers| && i < |l.detachers[subscription]|
    requires var next := EntryDeleted(l, subscription, i); s < |next.detachers| && k < |next.detachers[s]|
    ensures var next := EntryDeleted(l, subscription, i); EntryKept(next, s, next.detachers[s][k])
  {
    var next, entries := EntryDeleted(l, subscription, i), l.detachers[subscription];
    var was := if s == subscription && k >= i then k + 1 else k;
    assert next.detachers[s][k] == l.detachers[s][was] && EntryKept(l, s, l.detachers[s][was]);
    assert EntryKept(l, subscription, entries[i]);
    if s == subscription {
      assert Keys(entries)[was] != Keys(entries)[i];
    }
  }

  lemma DeletedElsewhere(entries: seq<Entry>, i: nat, entry: Entry)
    requires i < |entries| && entry != entries[i]
    ensures entry in entries ==> entry in Delete(entries, i)
  {
    if entry in entries {
      var k :| 0 <= k < |entries| && entries[k] == entry;
      assert Delete(entries, i)[if k < i then k else k - 1] == entry;
    }
  }

  lemma StopKeeps(l: Ledger, subscription: nat)
    requires Books(l) && subscription < |l.detachers|
    ensures Books(Stopped(l, subscription))
  {
    var next, entries := Stopped(l, subscription), l.detachers[subscription];
    var values := Values(entries);
    forall i | 0 <= i < |entries| ensures EntryKept(l, subscription, entries[i]) {}
    forall i, j | 0 <= i < j < |next.undone| ensures next.undone[i] != next.undone[j] {
      if |l.undone| <= i {
        var x, y := i - |l.undone|, j - |l.undone|;
        assert Keys(entries)[x] != Keys(entries)[y];
        assert EntryKept(l, subscription, entries[x]) && EntryKept(l, subscription, entries[y]);
      } else if |l.undone| <= j {
        assert EntryKept(l, subscription, entries[j - |l.undone|]);
      }
    }
    forall i | 0 <= i < |next.undone| ensures next.undone[i] < |next.made| {
      if |l.undone| <= i { assert EntryKept(l, subscription, entries[i - |l.undone|]); }
    }
    forall s, k | 0 <= s < |next.detachers| && 0 <= k < |next.detachers[s]|
      ensures EntryKept(next, s, next.detachers[s][k])
    {
      assert EntryKept(l, s, l.detachers[s][k]);
      assert s != subscription;
      forall i | 0 <= i < |values| ensures values[i] != l.detachers[s][k].attachment {
        assert EntryKept(l, subscription, entries[i]);
      }
    }
    forall k | 0 <= k < |entries| ensures entries[k].attachment in next.undone {
      assert next.undone[|l.undone| + k] == values[k];
    }
    forall a: nat | Active(next, a) ensures HasEntry(next, a) {
      assert Active(l, a) && HasEntry(l, a);
    }
  }

  // ----- whole operations

  lemma {:induction false} AttachAllKeeps(l: Ledger, subscription: nat, trees: seq<Tree>)
    requires Books(l) && subscription < |l.detachers| && l.detachers[subscription] == [] && Distinct(trees)
    ensures var next := AttachedToAll(l, subscription, trees);
            && Books(next) && Keys(next.detachers[subscription]) == trees
            && (forall s :: 0 <= s < |l.detachers| && s != subscription ==> next.detachers[s] == l.detachers[s])
  {
    if trees != [] {
      var shorter := trees[..|trees| - 1];
      AttachAllKeeps(l, subscription, shorter);
      AttachKeeps(AttachedToAll(l, subscription, shorter), subscription, trees[|trees| - 1]);
    }
  }

  lemma {:induction false} AddAllKeeps(l: Ledger, watchers: seq<nat>, root: Tree)
    requires Books(l) && Known(l, watchers) && Distinct(watchers)
    requires forall w :: w in watchers ==> root !in Keys(l.detachers[w])
    ensures var next := AddedForAll(l, watchers, root);
            && Books(next)
            && (forall s :: 0 <= s < |l.detachers| && s !in watchers ==> next.detachers[s] == l.detachers[s])
            && (forall w :: w in watchers ==> Keys(next.detachers[w]) == Keys(l.detachers[w]) + [root])
  {
    if watchers != [] {
      var shorter, w := watchers[..|watchers| - 1], watchers[|watchers| - 1];
      assert w !in shorter;
      AddAllKeeps(l, shorter, root);
      AttachKeeps(AddedForAll(l, shorter, root), w, root);
    }
  }

  lemma {:induction false} RemoveAllKeeps(l: Ledger, watchers: seq<nat>, root: Tree)
    requires Books(l) && Known(l, watchers) && Distinct(watchers)
    ensures var next := RemovedForAll(l, watchers, root);
            Books(next) && RemovedOnly(l, watchers, root, next)
  {
    if watchers != [] {
      var shorter, w := watchers[..|watchers| - 1], watchers[|watchers| - 1];
      RemoveAllKeeps(l, shorter, root);
      var before := RemovedForAll(l, shorter, root);
      DetachKeeps(before, w, root);
      RemovedMore(l, watchers, root, before, Detached(before, w, root));
    }
  }

  ghost predicate RemovedOnly(l: Ledger, watchers: seq<nat>, root: Tree, next: Ledger) {
    && |next.detachers| == |l.detachers|
    && (forall s :: 0 <= s < |l.detachers| && s !in watchers ==> next.detachers[s] == l.detachers[s])
    && (forall s :: 0 <= s < |l.detachers| && s in watchers ==>
          Keys(next.detachers[s]) == Without(Keys(l.detachers[s]), root))
  }

  lemma RemovedMore(l: Ledger, watchers: seq<nat>, root: Tree, before: Ledger, next: Ledger)
    requires Known(l, watchers) && Distinct(watchers) && watchers != []
    requires RemovedOnly(l, watchers[..|watchers| - 1], root, before) && |next.detachers| == |l.detachers|
    requires var w := watchers[|watchers| - 1];
             && Keys(next.detachers[w]) == Without(Keys(before.detachers[w]), root)
             && (forall s :: 0 <= s < |l.detachers| && s != w ==> next.detachers[s] == before.detachers[s])
    ensures RemovedOnly(l, watchers, root, next)
  {
    var shorter, w := watchers[..|watchers| - 1], watchers[|watchers| - 1];
    assert watchers == shorter + [w] && w !in shorter;
  }

  // ----- over every run

  /** A followed subscription has an entry for each tree, in the trees' order; one not followed has none. */
  ghost predicate Followed(l: Ledger) {
    && Distinct(l.shadowRoots) && Document !in l.shadowRoots
    && Known(l, l.watchers) && Distinct(l.watchers)
    && (forall w :: w in l.watchers ==> Keys(l.detachers[w]) == Trees(l))
    && (forall s :: 0 <= s < |l.detachers| && s !in l.watchers ==> l.detachers[s] == [])
  }

  ghost predicate Inv(l: Ledger) {
    Books(l) && Followed(l)
  }

  lemma TreesDistinct(l: Ledger)
    requires Distinct(l.shadowRoots) && Document !in l.shadowRoots
    ensures Distinct(Trees(l))
  {
  }

  lemma AddInv(l: Ledger, root: Tree)
    requires Inv(l) && root != Document
    ensures Inv(Added(l, root))
  {
    if root !in l.shadowRoots {
      var begun := l.(shadowRoots := l.shadowRoots + [root]);
      assert Books(begun) by { SameBooks(l, begun); }
      AddAllKeeps(begun, l.watchers, root);
      assert Trees(begun) == Trees(l) + [root];
    }
  }

  lemma SameBooks(l: Ledger, next: Ledger)
    requires Books(l) && next.detachers == l.detachers && next.made == l.made && next.undone == l.undone
    ensures Books(next)
  {
    forall s, i | 0 <= s < |l.detachers| && 0 <= i < |l.detachers[s]| ensures EntryKept(next, s, next.detachers[s][i]) {
      assert EntryKept(l, s, l.detachers[s][i]);
    }
    forall a: nat | Active(next, a) ensures HasEntry(next, a) {
      assert Active(l, a) && HasEntry(l, a);
    }
  }

  lemma TreesWithout(l: Ledger, root: Tree)
    requires root != Document
    ensures Without(Trees(l), root) == [Document] + Without(l.shadowRoots, root)
  {
    assert Trees(l)[1..] == l.shadowRoots;
    assert Position(Trees(l), root) == 1 + Position(l.shadowRoots, root);
  }

  lemma RemoveInv(l: Ledger, root: Tree)
    requires Inv(l) && root != Document
    ensures Inv(Removed(l, root))
  {
    if root in l.shadowRoots {
      var begun := l.(shadowRoots := Without(l.shadowRoots, root));
      assert Books(begun) by { SameBooks(l, begun); }
      RemoveAllKeeps(begun, l.watchers, root);
      WithoutKeeps(l.shadowRoots, root);
      TreesWithout(l, root);
    }
  }

  lemma OpenBooks(l: Ledger)
    requires Books(l)
    ensures Books(l.(detachers := l.detachers + [[]]))
  {
    var begun := l.(detachers := l.detachers + [[]]);
    forall s, i | 0 <= s < |begun.detachers| && 0 <= i < |begun.detachers[s]|
      ensures EntryKept(begun, s, begun.detachers[s][i])
    {
      assert EntryKept(l, s, l.detachers[s][i]);
    }
    forall s | 0 <= s < |begun.detachers| ensures Distinct(Keys(begun.detachers[s])) {
      if s < |l.detachers| { assert begun.detachers[s] == l.detachers[s]; }
    }
    forall a: nat | Active(begun, a) ensures HasEntry(begun, a) {
      assert Active(l, a) && HasEntry(l, a);
    }
  }

  lemma SubscribeInv(l: Ledger)
    requires Inv(l)
    ensures Inv(Subscribed(l))
  {
    var subscription := |l.detachers|;
    var begun := l.(detachers := l.detachers + [[]]);
    OpenBooks(l);
    TreesDistinct(l);
    AttachAllKeeps(begun, subscription, Trees(l));
    var all := AttachedToAll(begun, subscription, Trees(l));
    SameBooks(all, Subscribed(l));
    SubscribeFollows(l, all);
  }

  lemma SubscribeFollows(l: Ledger, all: Ledger)
    requires Followed(l) && |all.detachers| == |l.detachers| + 1
    requires all.watchers == l.watchers && all.shadowRoots == l.shadowRoots
    requires forall s :: 0 <= s < |l.detachers| ==> all.detachers[s] == l.detachers[s]
    requires Keys(all.detachers[|l.detachers|]) == Trees(l)
    ensures Followed(all.(watchers := all.watchers + [|l.detachers|]))
  {
    assert |l.detachers| !in l.watchers;
  }

  lemma StopInv(l: Ledger, subscription: nat)
    requires Inv(l) && subscription < |l.detachers|
    ensures Inv(Stopped(l, subscription))
  {
    StopKeeps(l, subscription);
    StopFollows(l, subscription);
  }

  lemma StopFollows(l: Ledger, subscription: nat)
    requires Followed(l) && subscription < |l.detachers|
    ensures Followed(Stopped(l, subscription))
  {
    WithoutKeeps(l.watchers, subscription);
    var next := Stopped(l, subscription);
    forall w | w in next.watchers ensures Keys(next.detachers[w]) == Trees(next) {
      assert w in l.watchers;
    }
  }

  /** What may happen: roots come and go, and a subscription stops, perhaps again, after it began. */
  predicate CanHappen(l: Ledger, event: Event) {
    match event
    case Add(root) => root.ShadowRoot?
    case Remove(root) => root.ShadowRoot?
    case Subscribe => true
    case Stop(subscription) => subscription < |l.detachers|
  }

  function Step(l: Ledger, event: Event): (r: Ledger)
    requires Known(l, l.watchers)
    ensures Known(r, r.watchers)
  {
    if !CanHappen(l, event) then l
    else
      match event
      case Add(root) => Added(l, root)
      case Remove(root) => Removed(l, root)
      case Subscribe => Subscribed(l)
      case Stop(subscription) => Stopped(l, subscription)
  }

  function After(events: seq<Event>): (l: Ledger)
    ensures Known(l, l.watchers)
  {
    if events == [] then START else Step(After(events[..|events| - 1]), events[|events| - 1])
  }

  lemma {:induction false} EveryRunKeeps(events: seq<Event>)
    ensures Inv(After(events))
  {
    if events != [] {
      var before, event := After(events[..|events| - 1]), events[|events| - 1];
      EveryRunKeeps(events[..|events| - 1]);
      if CanHappen(before, event) {
        match event
        case Add(root) => AddInv(before, root);
        case Remove(root) => RemoveInv(before, root);
        case Subscribe => SubscribeInv(before);
        case Stop(subscription) => StopInv(before, subscription);
      }
    }
  }

  /** A root is in the document when the last event about it added it. */
  predicate InDocument(events: seq<Event>, root: Tree) {
    if events == [] then false
    else
      match events[|events| - 1]
      case Add(other) => (root == other && root.ShadowRoot?) || InDocument(events[..|events| - 1], root)
      case Remove(other) => root != other && InDocument(events[..|events| - 1], root)
      case _ => InDocument(events[..|events| - 1], root)
  }

  function Subscriptions(events: seq<Event>): nat {
    if events == [] then 0
    else Subscriptions(events[..|events| - 1]) + if events[|events| - 1].Subscribe? then 1 else 0
  }

  /** A subscription is live when it has begun and has not been stopped since. */
  predicate Live(events: seq<Event>, subscription: nat) {
    if events == [] then false
    else
      match events[|events| - 1]
      case Subscribe => subscription == Subscriptions(events[..|events| - 1]) || Live(events[..|events| - 1], subscription)
      case Stop(other) => subscription != other && Live(events[..|events| - 1], subscription)
      case _ => Live(events[..|events| - 1], subscription)
  }

  /** The sets follow the events. */
  lemma {:induction false} SetsFollowEvents(events: seq<Event>)
    ensures var l := After(events);
            && |l.detachers| == Subscriptions(events)
            && (forall root :: root in l.shadowRoots <==> InDocument(events, root))
            && (forall s: nat :: s in l.watchers <==> Live(events, s))
  {
    if events != [] {
      var before, event := After(events[..|events| - 1]), events[|events| - 1];
      SetsFollowEvents(events[..|events| - 1]);
      EveryRunKeeps(events[..|events| - 1]);
      match event
      case Remove(root) => if root.ShadowRoot? { WithoutKeeps(before.shadowRoots, root); }
      case Stop(subscription) => WithoutKeeps(before.watchers, subscription);
      case _ =>
    }
  }

  ghost predicate IsAttached(l: Ledger, subscription: nat, tree: Tree) {
    exists a: nat :: Active(l, a) && l.made[a] == Attachment(subscription, tree)
  }

  /**
   * Over every run: a subscription is attached to a tree exactly while it is live and the tree is the
   * document or a root in it; it is attached there once; and no attachment is undone twice.
   */
  lemma AttachmentsBalance(events: seq<Event>)
    ensures var l := After(events);
            && (forall s: nat, tree ::
                  IsAttached(l, s, tree) <==> Live(events, s) && (tree == Document || InDocument(events, tree)))
            && (forall a: nat, b: nat :: Active(l, a) && Active(l, b) && l.made[a] == l.made[b] ==> a == b)
            && Distinct(l.undone)
  {
    EveryRunKeeps(events);
    SetsFollowEvents(events);
    var l := After(events);
    forall s: nat, tree
      ensures IsAttached(l, s, tree) <==> Live(events, s) && (tree == Document || InDocument(events, tree))
    {
      AttachedWhere(l, s, tree);
    }
    forall a: nat, b: nat | Active(l, a) && Active(l, b) && l.made[a] == l.made[b] ensures a == b {
      AttachedOnce(l, a, b);
    }
  }

  lemma AttachedOnce(l: Ledger, a: nat, b: nat)
    requires Books(l) && Active(l, a) && Active(l, b) && l.made[a] == l.made[b]
    ensures a == b
  {
    assert HasEntry(l, a) && HasEntry(l, b);
    var s, tree := l.made[a].subscription, l.made[a].tree;
    var i :| 0 <= i < |l.detachers[s]| && l.detachers[s][i] == Entry(tree, a);
    var j :| 0 <= j < |l.detachers[s]| && l.detachers[s][j] == Entry(tree, b);
    assert Keys(l.detachers[s])[i] == Keys(l.detachers[s])[j];
  }

  lemma AttachedWhere(l: Ledger, subscription: nat, tree: Tree)
    requires Inv(l)
    ensures IsAttached(l, subscription, tree)
            <==> subscription in l.watchers && (tree == Document || tree in l.shadowRoots)
  {
    assert tree in Trees(l) <==> tree == Document || tree in l.shadowRoots;
    if IsAttached(l, subscription, tree) {
      var a: nat :| Active(l, a) && l.made[a] == Attachment(subscription, tree);
      assert HasEntry(l, a);
      var entries := l.detachers[subscription];
      var i :| 0 <= i < |entries| && entries[i] == Entry(tree, a);
      assert Keys(entries)[i] == tree;
    }
    if subscription in l.watchers && tree in Trees(l) {
      var entries := l.detachers[subscription];
      var i :| 0 <= i < |Keys(entries)| && Keys(entries)[i] == tree;
      assert EntryKept(l, subscription, entries[i]);
    }
  }

  /** Adding a root that is in, removing one that is not, and stopping again change nothing. */
  lemma RepeatsDoNothing(l: Ledger, event: Event)
    requires Inv(l) && !event.Subscribe?
    ensures Step(Step(l, event), event) == Step(l, event)
  {
    if CanHappen(l, event) {
      match event
      case Add(root) =>
      case Remove(root) => if root in l.shadowRoots { WithoutKeeps(l.shadowRoots, root); }
      case Stop(subscription) =>
        WithoutKeeps(l.watchers, subscription);
        StoppedTwice(l, subscription);
    }
  }

  lemma StoppedTwice(l: Ledger, subscription: nat)
    requires subscription < |l.detachers| && subscription !in Without(l.watchers, subscription)
    ensures Stopped(Stopped(l, subscription), subscription) == Stopped(l, subscription)
  {
    assert Values([]) == [];
  }
}
