/** What each event does to an Action Hint session, told by the session, its exits and what was activated. */
module HintSessionSteps {
  import opened Wrappers
  import opened HintAllocation
  import opened HintReconcile
  import opened HintSession
  import opened HintSessionRuns

  // ----- outcomes

  /** The session ended for a reason, with nothing activated. */
  ghost predicate EndedFor(s: State, after: State, reason: string) {
    && after.session.None? && after.starts == s.starts
    && after.exits == s.exits + [Exit(false, reason, None)]
    && after.fired == s.fired
  }

  /** The session goes on with another buffer and nothing else changed but the keys on record. */
  ghost predicate GoesOnWith(s: State, after: State, buffer: string) {
    && s.session.Some? && after.session.Some?
    && after.session.value.buffer == buffer
    && after.session.value.targets == s.session.value.targets
    && after.session.value.origin == s.session.value.origin
    && after.starts == s.starts && after.exits == s.exits && after.fired == s.fired
  }

  /** The session ended in an activation of one of its targets, reported whether or not it is still there. */
  ghost predicate ActivatedAs(s: State, after: State, code: string, page: Page) {
    && s.session.Some? && after.session.None? && after.starts == s.starts
    && exists t :: && t in s.session.value.targets && t.code == code
                   && after.exits == s.exits + [Exit(true, "", Some(t))]
                   && if PageShows(s.session.value.targets, page, t.binding.owner)
                      then FiredNow(s, after, t, page) else after.fired == s.fired
  }

  /** One more target was activated: this one, looking as the page shows it. */
  ghost predicate FiredNow(s: State, after: State, t: Frozen, page: Page) {
    && |after.fired| == |s.fired| + 1 && after.fired[..|s.fired|] == s.fired
    && Core(after.fired[|s.fired|].target) == Core(t)
    && page.descriptors.Some?
    && exists d :: d in page.descriptors.value && LooksAs(after.fired[|s.fired|].target, d)
  }

  // ----- keys

  /** A keydown the session reads. */
  predicate Heard(event: KeyEvent) {
    !event.suppressed && !event.nativeActivation
  }

  predicate Letter(c: char) {
    'A' <= c <= 'Z' || 'a' <= c <= 'z'
  }

  /** A key that types a letter: by what it prints, in either case, or else by its place on the keyboard. */
  predicate Types(event: KeyEvent, letter: char)
    requires 'A' <= letter <= 'Z'
  {
    && event.key != "Escape" && event.key != "Backspace"
    && (event.key == [letter] || event.key == [(letter as int + 32) as char]
        || (event.code == "Key" + [letter] && !(|event.key| == 1 && Letter(event.key[0]))))
  }

  ghost predicate TypesNothing(event: KeyEvent) {
    && event.key != "Escape" && event.key != "Backspace"
    && forall letter :: 'A' <= letter <= 'Z' ==> !Types(event, letter)
  }

  lemma TypesKey(event: KeyEvent, letter: char)
    requires 'A' <= letter <= 'Z' && Heard(event) && Types(event, letter)
    ensures NormalizeKey(event) == [letter]
  {
    NormalizeKeyMeaning(event, letter);
  }

  lemma TypesNoKey(event: KeyEvent)
    requires Heard(event) && TypesNothing(event)
    ensures NormalizeKey(event) == ""
  {
    KeyIsTyped(event);
  }

  lemma KeyIsTyped(event: KeyEvent)
    requires Heard(event) && event.key != "Escape" && event.key != "Backspace"
    ensures NormalizeKey(event) != "" ==>
              exists letter :: 'A' <= letter <= 'Z' && Types(event, letter)
  {
    var key := NormalizeKey(event);
    if key != "" {
      assert key == [key[0]];
      NormalizeKeyMeaning(event, key[0]);
      assert Types(event, key[0]);
    }
  }

  lemma UnheardIgnored(s: State, event: KeyEvent, page: Page)
    requires s.session.None? || !Heard(event)
    ensures Step(s, Keydown(event, page)) == s
  {
  }

  lemma EscapeEnds(s: State, event: KeyEvent, page: Page)
    requires s.session.Some? && Heard(event) && event.key == "Escape"
    ensures EndedFor(s, Step(s, Keydown(event, page)), "escape")
  {
  }

  /** Backspace never ends a session: a shorter buffer still begins the live codes the longer one did. */
  lemma BackspaceTrims(s: State, event: KeyEvent, page: Page)
    requires Inv(s) && s.session.Some? && Heard(event) && event.key == "Backspace"
    ensures var buffer := s.session.value.buffer;
            GoesOnWith(s, Step(s, Keydown(event, page)), if buffer == "" then "" else buffer[..|buffer| - 1])
  {
    var live := s.session.value;
    var shorter := Typed(live.buffer, "Backspace");
    var t :| t in live.targets && live.buffer < t.code;
    CodeMember(live.targets, t.code);
    assert shorter <= live.buffer <= t.code;
    assert t.code in StartingWith(CodesOf(live.targets), shorter);
    ShorterIsNoCode(live, t, shorter);
    CodeMember(live.targets, shorter);
  }

  lemma ShorterIsNoCode(live: Live, t: Frozen, shorter: string)
    requires LiveInv(live) && t in live.targets && shorter < t.code
    ensures forall u :: u in live.targets ==> u.code != shorter
  {
    forall u | u in live.targets ensures u.code != shorter {
      if u.code <= t.code { LivePrefixFree(live, u, t); }
    }
  }

  lemma StrayCharacterEnds(s: State, event: KeyEvent, page: Page)
    requires s.session.Some? && Heard(event) && |event.key| == 1 && TypesNothing(event)
    ensures EndedFor(s, Step(s, Keydown(event, page)), "no-match")
  {
    TypesNoKey(event);
  }

  lemma OtherKeysIgnored(s: State, event: KeyEvent, page: Page)
    requires Heard(event) && |event.key| != 1 && TypesNothing(event)
    ensures Step(s, Keydown(event, page)) == s
  {
    TypesNoKey(event);
  }

  ghost predicate SomeBegins(targets: seq<Frozen>, start: string) {
    exists t :: t in targets && start <= t.code
  }

  ghost predicate SomeIs(targets: seq<Frozen>, code: string) {
    exists t :: t in targets && t.code == code
  }

  /** A letter ends the session when no live code goes on so, activates when it completes one, and else waits. */
  lemma LetterTyped(s: State, event: KeyEvent, page: Page, letter: char)
    requires Inv(s) && s.session.Some? && Heard(event) && 'A' <= letter <= 'Z' && Types(event, letter)
    ensures var targets, typed := s.session.value.targets, s.session.value.buffer + [letter];
            var after := Step(s, Keydown(event, page));
            && (!SomeBegins(targets, typed) ==> EndedFor(s, after, "no-match"))
            && (SomeIs(targets, typed) ==> ActivatedAs(s, after, typed, page))
            && (SomeBegins(targets, typed) && !SomeIs(targets, typed) ==> GoesOnWith(s, after, typed))
  {
    TypesKey(event, letter);
    LetterApplied(s, letter, page);
  }

  lemma MatchesMean(targets: seq<Frozen>, start: string)
    ensures SomeBegins(targets, start) <==> StartingWith(CodesOf(targets), start) != []
    ensures SomeIs(targets, start) <==> start in StartingWith(CodesOf(targets), start)
  {
    var matches := StartingWith(CodesOf(targets), start);
    CodeMember(targets, start);
    if matches != [] {
      CodeMember(targets, matches[0]);
      assert matches[0] in matches;
    }
    forall t | t in targets && start <= t.code ensures t.code in matches {
      CodeMember(targets, t.code);
    }
  }

  lemma LetterApplied(s: State, letter: char, page: Page)
    requires Inv(s) && s.session.Some? && 'A' <= letter <= 'Z'
    ensures var targets, typed := s.session.value.targets, s.session.value.buffer + [letter];
            var after := InputApplied(s, [letter], page);
            && (!SomeBegins(targets, typed) ==> EndedFor(s, after, "no-match"))
            && (SomeIs(targets, typed) ==> ActivatedAs(s, after, typed, page))
            && (SomeBegins(targets, typed) && !SomeIs(targets, typed) ==> GoesOnWith(s, after, typed))
  {
    var live := s.session.value;
    var typed := live.buffer + [letter];
    MatchesMean(live.targets, typed);
    var keys := live.keys + [[letter]];
    if SomeIs(live.targets, typed) {
      var ready := s.(session := Some(live.(buffer := typed, keys := keys)));
      CodeMember(live.targets, typed);
      ActivationMeans(ready, typed, page, Some(keys));
    }
  }

  /** An activation of a code that the buffer begins. */
  lemma ActivationMeans(s: State, code: string, page: Page, keys: Option<seq<string>>)
    requires s.session.Some? && SomeIs(s.session.value.targets, code) && s.session.value.buffer <= code
    requires Prepared(s.session.value.origin) && FromOrigin(s.session.value.targets, s.session.value.origin)
    ensures ActivatedAs(s, Activated(s, code, page, keys), code, page)
  {
    var live := s.session.value;
    var t := FindCode(live.targets, code).value;
    var after := Activated(s, code, page, keys);
    ActivationFiresIff(s, code, page, keys);
    if PageShows(live.targets, page, t.binding.owner) {
      FiredTarget(s, code, page, keys);
    }
  }

  lemma FiredTarget(s: State, code: string, page: Page, keys: Option<seq<string>>)
    requires s.session.Some? && FindCode(s.session.value.targets, code).Some?
    requires Prepared(s.session.value.origin) && FromOrigin(s.session.value.targets, s.session.value.origin)
    requires Activated(s, code, page, keys).fired != s.fired
    ensures FiredNow(s, Activated(s, code, page, keys), FindCode(s.session.value.targets, code).value, page)
  {
    var u := FiredFound(s, code, page, keys);
    var live := s.session.value;
    SurvivorLooks(live, page.descriptors.value, u, FindCode(live.targets, code).value);
  }

  /** What is activated is found among the targets the revalidation left. */
  lemma FiredFound(s: State, code: string, page: Page, keys: Option<seq<string>>) returns (u: Frozen)
    requires s.session.Some? && FindCode(s.session.value.targets, code).Some?
    requires Activated(s, code, page, keys).fired != s.fired
    ensures page.descriptors.Some? && GoodDescriptorIds(page.descriptors.value)
    ensures u in Survivors(s.session.value.targets, s.session.value.targets, page.descriptors.value) && u.code == code
    ensures Activated(s, code, page, keys).fired == s.fired + [Fired(u, keys)]
  {
    var verdict := Revalidated(s.session.value.targets, s.session.value.buffer, page, false);
    u := FindCode(verdict.targets, code).value;
  }

  lemma SurvivorLooks(live: Live, current: seq<Descriptor>, u: Frozen, t: Frozen)
    requires Prepared(live.origin) && FromOrigin(live.targets, live.origin) && GoodDescriptorIds(current)
    requires u in Survivors(live.targets, live.targets, current) && t in live.targets && u.code == t.code
    ensures Core(u) == Core(t) && exists d :: d in current && LooksAs(u, d)
  {
    SurvivorMember(live.targets, live.targets, current, u);
    var f :| f in live.targets && OwnerLives(live.targets, current, f.binding.owner) && u == Refresh(f, current);
    SameCodeSameCore(live, f, t);
    SurvivorShown(live.targets, current, u);
  }

  lemma SameCodeSameCore(live: Live, f: Frozen, t: Frozen)
    requires Prepared(live.origin) && FromOrigin(live.targets, live.origin)
    requires f in live.targets && t in live.targets && f.code == t.code
    ensures Core(f) == Core(t)
  {
    var p :| p in live.origin && Core(p) == Core(f);
    var o :| o in live.origin && Core(o) == Core(t);
    assert p.code == Core(p).code && o.code == Core(o).code;
    SameCodeSameTarget(live.origin, p, o);
  }

  // ----- choosing, opening and revalidating

  /** Choosing a target in the dialog: an unknown code does nothing, a known one ends the session. */
  lemma ChoiceMeans(s: State, code: string, page: Page)
    requires Inv(s) && s.session.Some?
    ensures var after := Step(s, Choose(code, page));
            && (!SomeIs(s.session.value.targets, code) ==> after == s)
            && (SomeIs(s.session.value.targets, code) && s.session.value.buffer <= code ==> ActivatedAs(s, after, code, page))
  {
    if SomeIs(s.session.value.targets, code) && s.session.value.buffer <= code {
      ActivationMeans(s, code, page, None);
    }
  }

  /** The page is as the session needs it: nothing else in charge, the same binding and view, good measurements. */
  ghost predicate PageHolds(page: Page) {
    && !page.otherOwner && page.sameBinding && page.scopeReady && page.sameViewport
    && page.descriptors.Some? && GoodDescriptorIds(page.descriptors.value)
  }

  /** The targets left are the ones whose whole group the page shows, as it shows them. */
  ghost predicate LeftBy(before: seq<Frozen>, after: seq<Frozen>, current: seq<Descriptor>) {
    && Reconcile(before, current).Some?
    && after == Reconcile(before, current).value.targets
  }

  /** A revalidation lets the session go on exactly when the page holds, some live code can still be typed and the dialog takes the targets. */
  lemma RevalidationMeans(s: State, page: Page)
    requires Inv(s) && s.session.Some?
    ensures var live := s.session.value;
            var after := Step(s, Revalidate(page));
            var holds := PageHolds(page) && StillTypable(live, page.descriptors.value) && page.dialogAccepts;
            && (!holds ==> EndedFor(s, after, "snapshot-invalidated"))
            && (holds ==> && after.session.Some? && LeftBy(live.targets, after.session.value.targets, page.descriptors.value)
                          && after == s.(session := Some(live.(targets := after.session.value.targets))))
  {
    var live := s.session.value;
    RevisedMeans(s, page);
  }

  lemma RevisedMeans(s: State, page: Page)
    requires s.session.Some?
    requires Prepared(s.session.value.origin) && FromOrigin(s.session.value.targets, s.session.value.origin)
    ensures var live := s.session.value;
            var after := Revised(s, page);
            var holds := PageHolds(page) && StillTypable(live, page.descriptors.value) && page.dialogAccepts;
            && (!holds ==> EndedFor(s, after, "snapshot-invalidated"))
            && (holds ==> && after.session.Some? && LeftBy(live.targets, after.session.value.targets, page.descriptors.value)
                          && after == s.(session := Some(live.(targets := after.session.value.targets))))
  {
    var live := s.session.value;
    if page.descriptors.Some? {
      MatchesLeftIff(live, page.descriptors.value);
      assert Typed(live.buffer, "") == live.buffer;
    }
  }

  /** Opening: refused while one is open, without targets or without a dialog; otherwise counted, and then revalidated. */
  lemma OpeningMeans(s: State, targets: seq<Frozen>, dialog: DialogState, page: Page)
    requires Inv(s) && Prepared(targets)
    ensures var after := Step(s, Start(targets, dialog, page));
            var open := s.(session := Some(Live(targets, "", targets, [])), starts := s.starts + 1);
            var holds := PageHolds(page) && StillTypable(open.session.value, page.descriptors.value) && page.dialogAccepts;
            && (s.session.Some? || targets == [] || dialog.NoDialog? ==> after == s)
            && (s.session.None? && targets != [] && dialog.OpenFails? ==> EndedFor(open, after, "open-failed"))
            && (s.session.None? && targets != [] && dialog.Opens? && !holds ==>
                  EndedFor(open, after, "snapshot-invalidated"))
            && (s.session.None? && targets != [] && dialog.Opens? && holds ==>
                  && after.session.Some? && LeftBy(targets, after.session.value.targets, page.descriptors.value)
                  && after == open.(session := Some(Live(after.session.value.targets, "", targets, []))))
  {
    var open := s.(session := Some(Live(targets, "", targets, [])), starts := s.starts + 1);
    RevisedMeans(open, page);
  }

  lemma CancelMeans(s: State, reason: string)
    ensures var after := Step(s, Cancel(reason));
            && (s.session.None? ==> after == s) && (s.session.Some? ==> EndedFor(s, after, reason))
  {
  }

  // ----- the buffer

  /** What the buffer becomes, which codes go on from it, and what the user is told. */
  lemma BufferMeans(buffer: string, key: string, codes: seq<string>)
    ensures var progress := AdvanceHintBuffer(buffer, key, codes);
            var next := progress.buffer;
            && (key == "Backspace" && buffer != "" ==> next == buffer[..|buffer| - 1])
            && (|key| == 1 && 'A' <= key[0] <= 'Z' ==> next == buffer + key)
            && (key == "" || (buffer == "" && key == "Backspace") ==> next == buffer)
            && (forall code :: code in progress.matches <==> code in codes && next <= code)
            && (progress.exact != "" <==> next != "" && next in codes)
            && (progress.exact != "" ==> progress.exact == next)
            && (progress.status.NoMatch? <==> next != "" && forall code :: code in codes ==> !(next <= code))
            && (progress.status.Exact? <==> next != "" && next in codes)
            && (progress.status.Idle? <==> next == "")
  {
    var matches := AdvanceHintBuffer(buffer, key, codes).matches;
    assert matches != [] ==> matches[0] in matches;
  }

  /** The codes that go on keep their order. */
  lemma {:induction false} MatchesInOrder(first: seq<string>, second: seq<string>, start: string)
    ensures StartingWith(first + second, start) == StartingWith(first, start) + StartingWith(second, start)
    ensures |first| == 1 ==> StartingWith(first, start) == if start <= first[0] then first else []
  {
    if first == [] {
      assert first + second == second;
    } else {
      assert (first + second)[1..] == first[1..] + second;
      MatchesInOrder(first[1..], second, start);
    }
  }
}
