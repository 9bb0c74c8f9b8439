/** What holds in every reachable state of an Action Hint controller. */
module HintSessionRuns {
  import opened Wrappers
  import opened HintWords
  import opened HintAllocation
  import opened HintReconcile
  import opened HintSession

  // ----- the invariant

  /** Every target is one of the original ones, apart from where it now shows and what it is called. */
  ghost predicate FromOrigin(targets: seq<Frozen>, origin: seq<Frozen>) {
    forall t :: t in targets ==> exists o :: o in origin && Core(o) == Core(t)
  }

  /** The buffer begins some live code and is none itself. */
  ghost predicate Undecided(buffer: string, targets: seq<Frozen>) {
    && (exists t :: t in targets && buffer < t.code)
    && (forall t :: t in targets ==> t.code != buffer)
  }

  ghost predicate LiveInv(live: Live) {
    && Prepared(live.origin)
    && FromOrigin(live.targets, live.origin)
    && live.buffer == Spelled(live.keys)
    && Undecided(live.buffer, live.targets)
  }

  function Activations(exits: seq<Exit>): nat {
    if exits == [] then 0
    else Activations(exits[..|exits| - 1]) + if exits[|exits| - 1].activated then 1 else 0
  }

  /** A target the keyboard activated has the code the accepted keys spell. */
  ghost predicate SpeltOut(fired: seq<Fired>) {
    forall i :: 0 <= i < |fired| && fired[i].keys.Some? ==> fired[i].target.code == Spelled(fired[i].keys.value)
  }

  ghost predicate Inv(s: State) {
    && (s.session.Some? ==> LiveInv(s.session.value))
    && s.starts == |s.exits| + (if s.session.Some? then 1 else 0)
    && |s.fired| <= Activations(s.exits)
    && SpeltOut(s.fired)
  }

  // ----- revalidation

  lemma CodeMember(targets: seq<Frozen>, code: string)
    ensures code in CodesOf(targets) <==> exists t :: t in targets && t.code == code
  {
    if code in CodesOf(targets) {
      var i :| 0 <= i < |targets| && CodesOf(targets)[i] == code;
      assert targets[i] in targets;
    }
    forall t | t in targets && t.code == code ensures code in CodesOf(targets) {
      var i :| 0 <= i < |targets| && targets[i] == t;
      assert CodesOf(targets)[i] == code;
    }
  }

  lemma SurvivorsFromOrigin(targets: seq<Frozen>, origin: seq<Frozen>, current: seq<Descriptor>)
    ensures FromOrigin(targets, origin) ==> FromOrigin(Survivors(targets, targets, current), origin)
    ensures forall t :: t in Survivors(targets, targets, current) ==> exists u :: u in targets && u.code == t.code
  {
    forall t | t in Survivors(targets, targets, current)
      ensures exists u :: u in targets && u.code == t.code && Core(u) == Core(t)
    {
      SurvivorMember(targets, targets, current, t);
    }
  }

  lemma RevalidatedFromOrigin(targets: seq<Frozen>, origin: seq<Frozen>, buffer: string, page: Page, refresh: bool)
    requires FromOrigin(targets, origin)
    ensures FromOrigin(Revalidated(targets, buffer, page, refresh).targets, origin)
  {
    if page.descriptors.Some? {
      SurvivorsFromOrigin(targets, origin, page.descriptors.value);
    }
  }

  lemma RevalidatedUndecided(targets: seq<Frozen>, buffer: string, page: Page, refresh: bool)
    requires forall t :: t in targets ==> t.code != buffer
    requires Revalidated(targets, buffer, page, refresh).valid
    ensures Undecided(buffer, Revalidated(targets, buffer, page, refresh).targets)
  {
    var after := Revalidated(targets, buffer, page, refresh).targets;
    SurvivorsFromOrigin(targets, targets, page.descriptors.value);
    var matches := StartingWith(CodesOf(after), buffer);
    assert Typed(buffer, "") == buffer;
    var code := matches[0];
    CodeMember(after, code);
    var t :| t in after && t.code == code;
    assert t.code != buffer;
  }

  // ----- one step

  lemma ActivatedInv(s: State, code: string, page: Page, keys: Option<seq<string>>)
    requires s.starts == |s.exits| + (if s.session.Some? then 1 else 0)
    requires s.session.None? ==> Inv(s)
    requires |s.fired| <= Activations(s.exits) && SpeltOut(s.fired)
    requires s.session.Some? && FindCode(s.session.value.targets, code).None? ==> Inv(s)
    requires keys.Some? ==> code == Spelled(keys.value)
    ensures Inv(Activated(s, code, page, keys))
  {
    var next := Activated(s, code, page, keys);
    if next != s {
      assert next.exits[..|next.exits| - 1] == s.exits;
    }
  }

  lemma CancelledInv(s: State, reason: string)
    requires s.session.None? ==> Inv(s)
    requires s.starts == |s.exits| + (if s.session.Some? then 1 else 0)
    requires |s.fired| <= Activations(s.exits) && SpeltOut(s.fired)
    ensures Inv(Cancelled(s, reason))
  {
    var next := Cancelled(s, reason);
    if next != s {
      assert next.exits[..|next.exits| - 1] == s.exits;
    }
  }

  lemma InputInv(s: State, key: string, page: Page)
    requires Inv(s)
    ensures Inv(InputApplied(s, key, page))
  {
    if s.session.Some? {
      var live := s.session.value;
      var progress := AdvanceHintBuffer(live.buffer, key, CodesOf(live.targets));
      var keys := live.keys + [key];
      assert keys[..|keys| - 1] == live.keys;
      if progress.status.NoMatch? {
        CancelledInv(s, "no-match");
      } else if progress.exact != "" {
        CodeMember(live.targets, progress.exact);
        var typed := s.(session := Some(live.(buffer := progress.buffer, keys := keys)));
        assert FindCode(live.targets, progress.exact).Some?;
        ActivatedInv(typed, progress.exact, page, Some(keys));
      } else {
        StillUndecided(live, key);
      }
    }
  }

  lemma StillUndecided(live: Live, key: string)
    requires LiveInv(live)
    requires var progress := AdvanceHintBuffer(live.buffer, key, CodesOf(live.targets));
             !progress.status.NoMatch? && progress.exact == ""
    ensures Undecided(Typed(live.buffer, key), live.targets)
  {
    var next := Typed(live.buffer, key);
    CodeMember(live.targets, next);
    forall t | t in live.targets ensures t.code != "" {
      var o :| o in live.origin && Core(o) == Core(t);
    }
    var t: Frozen;
    if next == "" {
      t :| t in live.targets && live.buffer < t.code;
    } else {
      var matches := StartingWith(CodesOf(live.targets), next);
      CodeMember(live.targets, matches[0]);
      t :| t in live.targets && t.code == matches[0];
    }
    assert next < t.code;
  }

  lemma RevisedInv(s: State, page: Page)
    requires s.session.Some? ==> && Prepared(s.session.value.origin)
                                 && FromOrigin(s.session.value.targets, s.session.value.origin)
                                 && s.session.value.buffer == Spelled(s.session.value.keys)
                                 && forall t :: t in s.session.value.targets ==> t.code != s.session.value.buffer
    requires s.starts == |s.exits| + (if s.session.Some? then 1 else 0)
    requires |s.fired| <= Activations(s.exits) && SpeltOut(s.fired)
    ensures Inv(Revised(s, page))
  {
    if s.session.Some? {
      var live := s.session.value;
      var verdict := Revalidated(live.targets, live.buffer, page, true);
      var revised := s.(session := Some(live.(targets := verdict.targets)));
      if verdict.valid {
        RevalidatedFromOrigin(live.targets, live.origin, live.buffer, page, true);
        RevalidatedUndecided(live.targets, live.buffer, page, true);
      } else {
        CancelledInv(revised, "snapshot-invalidated");
      }
    }
  }

  lemma StartedInv(s: State, targets: seq<Frozen>, dialog: DialogState, page: Page)
    requires Inv(s) && Prepared(targets)
    ensures Inv(Started(s, targets, dialog, page))
  {
    if s.session.None? && targets != [] && !dialog.NoDialog? {
      var open := s.(session := Some(Live(targets, "", targets, [])), starts := s.starts + 1);
      if dialog.OpenFails? {
        var next := Closed(open, Exit(false, "open-failed", None));
        assert next.exits[..|next.exits| - 1] == s.exits;
      } else {
        RevisedInv(open, page);
      }
    }
  }

  lemma StepInv(s: State, event: Event)
    requires Inv(s)
    requires event.Start? ==> Prepared(event.targets)
    ensures Inv(Step(s, event))
  {
    match event
    case Start(targets, dialog, page) => StartedInv(s, targets, dialog, page);
    case Keydown(key, page) =>
      InputInv(s, "Backspace", page);
      InputInv(s, NormalizeKey(key), page);
      CancelledInv(s, "escape");
      CancelledInv(s, "no-match");
    case Choose(code, page) => ActivatedInv(s, code, page, None);
    case Revalidate(page) => RevisedInv(s, page);
    case Cancel(reason) => CancelledInv(s, reason);
  }

  // ----- every run

  /**
   * In every reachable state: an open session's buffer is what its keys spell, begins a live code and equals
   * none; every live target is an original one; each session has had one exit if closed and none if open;
   * no more targets were activated than sessions ended in an activation; and every keyboard activation hit
   * the target whose code the keys spell.
   */
  lemma {:induction false} RunsDecode(events: seq<Event>)
    requires forall i :: 0 <= i < |events| && events[i].Start? ==> Prepared(events[i].targets)
    ensures Inv(Run(INITIAL, events))
  {
    if events != [] {
      RunsDecode(events[..|events| - 1]);
      StepInv(Run(INITIAL, events[..|events| - 1]), events[|events| - 1]);
    }
  }

  /** A code means the same target as when the session opened, however many targets have been retired since. */
  lemma CodeKeepsItsTarget(live: Live, t: Frozen, o: Frozen)
    requires LiveInv(live) && t in live.targets && o in live.origin && t.code == o.code
    ensures Core(t) == Core(o)
  {
    var p :| p in live.origin && Core(p) == Core(t);
    assert p.code == Core(p).code;
    SameCodeSameTarget(live.origin, p, o);
  }

  lemma SameCodeSameTarget(origin: seq<Frozen>, p: Frozen, o: Frozen)
    requires Prepared(origin) && p in origin && o in origin && p.code == o.code
    ensures p == o
  {
    var i :| 0 <= i < |origin| && origin[i] == p;
    var j :| 0 <= j < |origin| && origin[j] == o;
    assert CodesOf(origin)[i] <= CodesOf(origin)[j];
  }

  // ----- when an activation fires

  /** The page a revalidation sees still shows the owner's whole group. */
  ghost predicate PageShows(targets: seq<Frozen>, page: Page, owner: Element) {
    && !page.otherOwner && page.sameBinding && page.scopeReady && page.sameViewport
    && page.descriptors.Some? && GoodDescriptorIds(page.descriptors.value)
    && OwnerLives(targets, page.descriptors.value, owner)
  }

  /** A code is left among the survivors exactly when its target's owner lives. */
  lemma SurvivingCode(live: Live, current: seq<Descriptor>, t: Frozen)
    requires Prepared(live.origin) && FromOrigin(live.targets, live.origin) && t in live.targets
    ensures t.code in CodesOf(Survivors(live.targets, live.targets, current))
            <==> OwnerLives(live.targets, current, t.binding.owner)
  {
    var left := Survivors(live.targets, live.targets, current);
    CodeMember(left, t.code);
    if t.code in CodesOf(left) {
      var g :| g in left && g.code == t.code;
      SurvivorMember(live.targets, live.targets, current, g);
      var f :| f in live.targets && OwnerLives(live.targets, current, f.binding.owner) && g == Refresh(f, current);
      SameCodeSameBinding(live, f, t);
    }
    if OwnerLives(live.targets, current, t.binding.owner) {
      SurvivorMember(live.targets, live.targets, current, Refresh(t, current));
    }
  }

  lemma SameCodeSameBinding(live: Live, f: Frozen, t: Frozen)
    requires Prepared(live.origin) && FromOrigin(live.targets, live.origin)
    requires f in live.targets && t in live.targets && f.code == t.code
    ensures f.binding == t.binding
  {
    var p :| p in live.origin && Core(p) == Core(f);
    var o :| o in live.origin && Core(o) == Core(t);
    assert p.code == Core(p).code && o.code == Core(o).code;
    SameCodeSameTarget(live.origin, p, o);
    assert f.binding == Core(f).binding && t.binding == Core(t).binding;
  }

  /** Some target that lives on could still be typed. */
  ghost predicate StillTypable(live: Live, current: seq<Descriptor>) {
    exists u :: u in live.targets && live.buffer <= u.code && OwnerLives(live.targets, current, u.binding.owner)
  }

  /** The revalidation finds a code to go on with exactly when a target that lives on could be typed. */
  lemma MatchesLeftIff(live: Live, current: seq<Descriptor>)
    requires Prepared(live.origin) && FromOrigin(live.targets, live.origin)
    ensures var left := Survivors(live.targets, live.targets, current);
            StartingWith(CodesOf(left), live.buffer) != [] <==> StillTypable(live, current)
  {
    var left := Survivors(live.targets, live.targets, current);
    var matches := StartingWith(CodesOf(left), live.buffer);
    if matches != [] {
      var code := matches[0];
      assert code in matches;
      CodeMember(left, code);
      var g :| g in left && g.code == code;
      SurvivorMember(live.targets, live.targets, current, g);
    }
    if StillTypable(live, current) {
      var u :| u in live.targets && live.buffer <= u.code && OwnerLives(live.targets, current, u.binding.owner);
      SurvivingCode(live, current, u);
      assert u.code in matches;
    }
  }

  /** What makes a revalidation before an activation succeed, and leave the target. */
  lemma ActivationValidIff(live: Live, t: Frozen, page: Page)
    requires Prepared(live.origin) && FromOrigin(live.targets, live.origin) && t in live.targets
    ensures var verdict := Revalidated(live.targets, live.buffer, page, false);
            verdict.valid && FindCode(verdict.targets, t.code).Some?
            <==> PageShows(live.targets, page, t.binding.owner) && StillTypable(live, page.descriptors.value)
  {
    var verdict := Revalidated(live.targets, live.buffer, page, false);
    CodeMember(verdict.targets, t.code);
    if page.descriptors.Some? {
      SurvivingCode(live, page.descriptors.value, t);
      MatchesLeftIff(live, page.descriptors.value);
      assert Typed(live.buffer, "") == live.buffer;
    }
  }

  /**
   * An activation always reports its exit. It fires its target exactly when the page, looked at once more,
   * still shows the target's whole group and some target that could be typed; a code that the buffer begins
   * is one itself.
   */
  lemma ActivationFiresIff(s: State, code: string, page: Page, keys: Option<seq<string>>)
    requires s.session.Some? && FindCode(s.session.value.targets, code).Some?
    requires Prepared(s.session.value.origin) && FromOrigin(s.session.value.targets, s.session.value.origin)
    ensures var live := s.session.value;
            var t := FindCode(live.targets, code).value;
            var after := Activated(s, code, page, keys);
            var shows := PageShows(live.targets, page, t.binding.owner);
            && after.session.None? && after.exits == s.exits + [Exit(true, "", Some(t))]
            && (after.fired != s.fired <==> shows && StillTypable(live, page.descriptors.value))
            && (after.fired != s.fired ==> |after.fired| == |s.fired| + 1)
            && (live.buffer <= code ==> (after.fired != s.fired <==> shows))
  {
    var live := s.session.value;
    ActivationValidIff(live, FindCode(live.targets, code).value, page);
    assert |Activated(s, code, page, keys).fired| == |s.fired| ==> Activated(s, code, page, keys).fired == s.fired;
  }

  // A session with one target, which the page shows when it opens and cannot measure when its key is pressed.
  const LONE_BINDING: Binding :=
    Binding(HintTarget("save", ButtonActivate, Button), "", Element(0), Element(0), Element(0), [], [])
  const LONE_RECT: Rect := Rect(0.0, 0.0, 1.0, 1.0)
  const LONE: Frozen := Frozen(LONE_BINDING, "", LONE_RECT, "A")
  const SHOWN: Page := Page.Page(false, true, true, true, Some([Descriptor(LONE_BINDING, "", true, Some(LONE_RECT))]), true)
  const GONE: Page := SHOWN.(descriptors := None)

  lemma LoneShown()
    ensures Revalidated([LONE], "", SHOWN, true) == Verdict(true, [LONE])
  {
    var current := SHOWN.descriptors.value;
    assert Find(current, "save") == Some(current[0]);
    assert Matched(LONE, current);
    assert OwnerLives([LONE], current, Element(0));
    assert [LONE][1..] == [] && Survivors([LONE], [LONE], current) == [Refresh(LONE, current)] == [LONE];
    assert CodesOf([LONE]) == ["A"];
    assert "A" in StartingWith(["A"], "");
  }

  /** A session that ends with an activation although nothing is activated. */
  lemma ActivatedWithoutTarget()
    ensures var s := Run(INITIAL, [Start([LONE], Opens, SHOWN), Choose("A", GONE)]);
            s.session.None? && s.exits == [Exit(true, "", Some(LONE))] && s.fired == []
  {
    LoneShown();
    var open := Step(INITIAL, Start([LONE], Opens, SHOWN));
    var events := [Start([LONE], Opens, SHOWN), Choose("A", GONE)];
    assert events[..1] == [events[0]] && events[..1][..0] == [];
    assert Run(INITIAL, events[..1]) == open;
    assert open.session == Some(Live([LONE], "", [LONE], []));
    assert FindCode([LONE], "A") == Some(LONE);
    assert [] + [Exit(true, "", Some(LONE))] == [Exit(true, "", Some(LONE))];
  }

  // ----- a code typed in full

  function TypeWord(word: string, page: Page): seq<Event> {
    seq(|word|, i requires 0 <= i < |word| => Keydown(KeyEvent(false, false, [word[i]], ""), page))
  }

  ghost predicate UpperCase(word: string) {
    forall c :: c in word ==> 'A' <= c <= 'Z'
  }

  /** Before its last letter, a code being typed leaves the session open and the buffer one letter longer each time. */
  lemma {:induction false} TypingAhead(s: State, t: Frozen, page: Page, typed: nat)
    requires Inv(s) && s.session.Some? && s.session.value.buffer == ""
    requires t in s.session.value.targets && UpperCase(t.code) && typed < |t.code|
    ensures var live := s.session.value;
            var after := Run(s, TypeWord(t.code, page)[..typed]);
            && after.session.Some?
            && after == s.(session := Some(live.(buffer := t.code[..typed], keys := after.session.value.keys)))
            && Inv(after)
  {
    if typed > 0 {
      var events := TypeWord(t.code, page)[..typed];
      TypingAhead(s, t, page, typed - 1);
      assert events[..typed - 1] == TypeWord(t.code, page)[..typed - 1];
      OneLetterOn(Run(s, events[..typed - 1]), t, page, typed - 1);
    }
  }

  lemma OneLetterOn(s: State, t: Frozen, page: Page, typed: nat)
    requires Inv(s) && s.session.Some? && typed + 1 < |t.code|
    requires t in s.session.value.targets && UpperCase(t.code) && s.session.value.buffer == t.code[..typed]
    ensures var live := s.session.value;
            var after := Step(s, TypeWord(t.code, page)[typed]);
            && after.session.Some?
            && after == s.(session := Some(live.(buffer := t.code[..typed + 1], keys := after.session.value.keys)))
            && Inv(after)
  {
    var live := s.session.value;
    NextLetter(live, t, typed);
    InputInv(s, [t.code[typed]], page);
    if t.code[..typed + 1] in CodesOf(live.targets) {
      CodeMember(live.targets, t.code[..typed + 1]);
      var u :| u in live.targets && u.code == t.code[..typed + 1];
      LivePrefixFree(live, u, t);
    }
  }

  lemma NextLetter(live: Live, t: Frozen, typed: nat)
    requires t in live.targets && UpperCase(t.code) && typed < |t.code| && live.buffer == t.code[..typed]
    ensures var letter := [t.code[typed]];
            && NormalizeKey(KeyEvent(false, false, letter, "")) == letter
            && Typed(live.buffer, letter) == t.code[..typed + 1]
            && t.code in StartingWith(CodesOf(live.targets), t.code[..typed + 1])
  {
    assert t.code[typed] in t.code;
    CodeMember(live.targets, t.code);
  }

  lemma LivePrefixFree(live: Live, u: Frozen, t: Frozen)
    requires LiveInv(live) && u in live.targets && t in live.targets && u.code <= t.code
    ensures u.code == t.code
  {
    var p :| p in live.origin && Core(p) == Core(u);
    var o :| o in live.origin && Core(o) == Core(t);
    assert p.code == Core(p).code && o.code == Core(o).code;
    var i :| 0 <= i < |live.origin| && live.origin[i] == p;
    var j :| 0 <= j < |live.origin| && live.origin[j] == o;
    assert CodesOf(live.origin)[i] <= CodesOf(live.origin)[j];
  }

  /**
   * Typing a live target's code activates that target and ends the session, provided the page still
   * shows it when the last letter is typed.
   */
  lemma TypingCodeActivates(s: State, t: Frozen, page: Page)
    requires Inv(s) && s.session.Some? && s.session.value.buffer == ""
    requires t in s.session.value.targets && UpperCase(t.code)
    requires var verdict := Revalidated(s.session.value.targets, t.code, page, false);
             verdict.valid && FindCode(verdict.targets, t.code).Some?
    ensures var after := Run(s, TypeWord(t.code, page));
            && after.session.None?
            && |after.exits| == |s.exits| + 1 && after.exits[|s.exits|].activated
            && |after.fired| == |s.fired| + 1
            && Core(after.fired[|s.fired|].target) == Core(t)
            && after.fired[|s.fired|].keys.Some?
  {
    var live := s.session.value;
    var o :| o in live.origin && Core(o) == Core(t);
    assert o.code == Core(o).code == t.code;
    var last := |t.code| - 1;
    var events := TypeWord(t.code, page);
    TypingAhead(s, t, page, last);
    assert events[..|events| - 1] == events[..last];
    LastLetter(Run(s, events[..last]), t, page);
  }

  lemma LastLetter(s: State, t: Frozen, page: Page)
    requires s.session.Some? && LiveInv(s.session.value)
    requires t in s.session.value.targets && UpperCase(t.code) && t.code != ""
    requires s.session.value.buffer == t.code[..|t.code| - 1]
    requires var verdict := Revalidated(s.session.value.targets, t.code, page, false);
             verdict.valid && FindCode(verdict.targets, t.code).Some?
    ensures var after := Step(s, TypeWord(t.code, page)[|t.code| - 1]);
            && after.session.None?
            && |after.exits| == |s.exits| + 1 && after.exits[|s.exits|].activated
            && |after.fired| == |s.fired| + 1
            && Core(after.fired[|s.fired|].target) == Core(t)
            && after.fired[|s.fired|].keys.Some?
  {
    var live := s.session.value;
    var verdict := Revalidated(live.targets, t.code, page, false);
    LastLetterActivates(s, t, page);
    RevalidatedFromOrigin(live.targets, live.origin, t.code, page, false);
    var u := FindCode(verdict.targets, t.code).value;
    var p :| p in live.origin && Core(p) == Core(u);
    assert p.code == Core(p).code == u.code;
    CodeKeepsItsTarget(live, t, p);
  }

  lemma LastLetterActivates(s: State, t: Frozen, page: Page)
    requires s.session.Some? && LiveInv(s.session.value)
    requires t in s.session.value.targets && UpperCase(t.code) && t.code != ""
    requires s.session.value.buffer == t.code[..|t.code| - 1]
    ensures var live := s.session.value;
            var last := |t.code| - 1;
            var keys := live.keys + [[t.code[last]]];
            && FindCode(live.targets, t.code).Some?
            && Step(s, TypeWord(t.code, page)[last])
               == Activated(s.(session := Some(live.(buffer := t.code, keys := keys))), t.code, page, Some(keys))
  {
    var last := |t.code| - 1;
    NextLetter(s.session.value, t, last);
    assert t.code[..last + 1] == t.code;
  }

  lemma AlphabetUpperCase(word: string)
    requires Over(word, TASK_HINT_ALPHABET)
    ensures UpperCase(word)
  {
  }

  /** A page that shows the targets unchanged keeps them all, at the open and at any later key. */
  lemma StillShown(targets: seq<Frozen>, page: Page, t: Frozen)
    requires Revalidated(targets, "", page, true) == Verdict(true, targets) && t in targets
    ensures Revalidated(targets, t.code, page, false) == Verdict(true, targets)
  {
    CodeMember(targets, t.code);
    assert t.code in StartingWith(CodesOf(targets), t.code);
  }

  /**
   * From capture to activation: open a session on the visible targets, type the code target `i` was
   * allocated, and that target is activated, as long as the page still shows them all.
   */
  lemma AllocatedCodeActivates(s: State, ordered: seq<Descriptor>, reserved: seq<string>, page: Page, i: nat)
    requires Inv(s) && s.session.None? && Visible(ordered) && i < |ordered|
    requires var hints := TargetsOf(ordered);
             && AllSupported(hints) && GoodIds(hints) && !FixedCodeTwice(Policies(hints))
             && RootsRemain(hints, reserved)
    requires var targets := Freeze(ordered, ScopeCodes(TargetsOf(ordered), reserved));
             Revalidated(targets, "", page, true) == Verdict(true, targets)
    ensures var targets := Freeze(ordered, ScopeCodes(TargetsOf(ordered), reserved));
            var begun := Step(s, Start(targets, Opens, page));
            var after := Run(begun, TypeWord(targets[i].code, page));
            && after.session.None?
            && |after.fired| == |s.fired| + 1
            && Core(after.fired[|s.fired|].target) == Core(targets[i])
  {
    var hints := TargetsOf(ordered);
    var codes := ScopeCodes(hints, reserved);
    AllocationOutcome(hints, reserved, Allocated(codes));
    FreezePrepared(ordered, codes);
    CodesOverAlphabet(hints, reserved, i);
    AlphabetUpperCase(codes[i]);
    var targets := Freeze(ordered, codes);
    OpenedThenTyped(s, targets, targets[i], page);
  }

  lemma OpenedThenTyped(s: State, targets: seq<Frozen>, t: Frozen, page: Page)
    requires Inv(s) && s.session.None? && Prepared(targets) && t in targets && UpperCase(t.code)
    requires Revalidated(targets, "", page, true) == Verdict(true, targets)
    ensures var after := Run(Step(s, Start(targets, Opens, page)), TypeWord(t.code, page));
            && after.session.None?
            && |after.fired| == |s.fired| + 1
            && Core(after.fired[|s.fired|].target) == Core(t)
  {
    var open := Step(s, Start(targets, Opens, page));
    StartedInv(s, targets, Opens, page);
    assert open == s.(session := Some(Live(targets, "", targets, [])), starts := s.starts + 1);
    StillShown(targets, page, t);
    TypingCodeActivates(open, t, page);
  }
}
