/** The Action Hint session: keys gather in a buffer until they spell one code or match none. */
module HintSession {
  import opened Wrappers
  import opened HintWords
  import opened HintAllocation
  import opened HintReconcile

  // ----- the buffer

  datatype Status = Idle | Partial | Exact | NoMatch

  datatype Progress = Progress(buffer: string, matches: seq<string>, exact: string, status: Status)

  predicate LetterKey(key: string) {
    |key| == 1 && 'A' <= key[0] <= 'Z'
  }

  function Typed(buffer: string, key: string): string {
    if key == "Backspace" then (if buffer == "" then "" else buffer[..|buffer| - 1])
    else if LetterKey(key) then buffer + key
    else buffer
  }

  function StartingWith(codes: seq<string>, start: string): (matches: seq<string>)
    ensures forall c :: c in matches <==> c in codes && start <= c
  {
    if codes == [] then []
    else if start <= codes[0] then [codes[0]] + StartingWith(codes[1..], start)
    else StartingWith(codes[1..], start)
  }

  function AdvanceHintBuffer(buffer: string, key: string, codes: seq<string>): Progress {
    var next := Typed(buffer, key);
    var matches := StartingWith(codes, next);
    var exact := if next in matches then next else "";
    var status :=
      if next != "" && matches == [] then NoMatch
      else if exact != "" then Exact
      else if next != "" then Partial
      else Idle;
    Progress(next, matches, exact, status)
  }

  /** What a sequence of accepted keys spells, each Backspace taking back the last letter that stands. */
  function Spelled(keys: seq<string>): string {
    if keys == [] then "" else Typed(Spelled(keys[..|keys| - 1]), keys[|keys| - 1])
  }

  lemma {:induction false} SpelledOn(before: seq<string>, after: seq<string>, other: seq<string>)
    requires Spelled(before) == Spelled(other)
    ensures Spelled(before + after) == Spelled(other + after)
  {
    if after == [] {
      assert before + after == before && other + after == other;
    } else {
      var init, last := after[..|after| - 1], after[|after| - 1];
      SpelledOn(before, init, other);
      assert (before + after)[..|before + after| - 1] == before + init;
      assert (other + after)[..|other + after| - 1] == other + init;
    }
  }

  /** A letter followed by Backspace leaves no trace in what the keys spell. */
  lemma BackspaceCancels(before: seq<string>, letter: string, after: seq<string>)
    requires LetterKey(letter)
    ensures Spelled(before + [letter, "Backspace"] + after) == Spelled(before + after)
  {
    var one := before + [letter];
    var two := before + [letter, "Backspace"];
    assert two[..|two| - 1] == one && one[..|one| - 1] == before;
    assert (Spelled(before) + letter)[..|Spelled(before)|] == Spelled(before);
    SpelledOn(two, after, before);
  }

  function Upper(c: char): char {
    if 'a' <= c <= 'z' then (c as int - 32) as char else c
  }

  /** A keydown as far as the session reads it. `suppressed`: composing, repeating, or with a modifier held. */
  datatype KeyEvent = KeyEvent(suppressed: bool, nativeActivation: bool, key: string, code: string)

  function NormalizeKey(event: KeyEvent): (key: string)
    ensures key == "" || LetterKey(key)
  {
    if event.suppressed then ""
    else if |event.key| == 1 && 'A' <= Upper(event.key[0]) <= 'Z' then [Upper(event.key[0])]
    else if |event.code| == 4 && event.code[..3] == "Key" && 'A' <= event.code[3] <= 'Z' then event.code[3..]
    else ""
  }

  /** A letter comes from the key itself in either case, or else from the place of the key on the keyboard. */
  lemma NormalizeKeyMeaning(event: KeyEvent, letter: char)
    requires 'A' <= letter <= 'Z'
    ensures NormalizeKey(event) == [letter] <==>
              && !event.suppressed
              && (event.key == [letter] || event.key == [(letter as int + 32) as char]
                  || (event.code == "Key" + [letter]
                      && !(|event.key| == 1 && ('A' <= event.key[0] <= 'Z' || 'a' <= event.key[0] <= 'z'))))
  {
    if |event.code| == 4 {
      assert event.code == event.code[..3] + event.code[3..] && event.code[3..] == [event.code[3]];
    }
  }

  // ----- the page a revalidation sees

  /** `descriptors` is None when the page could not be measured. */
  datatype Page = Page(
    otherOwner: bool,
    sameBinding: bool,
    scopeReady: bool,
    sameViewport: bool,
    descriptors: Option<seq<Descriptor>>,
    dialogAccepts: bool)

  function CodesOf(targets: seq<Frozen>): seq<string> {
    seq(|targets|, i requires 0 <= i < |targets| => targets[i].code)
  }

  datatype Verdict = Verdict(valid: bool, targets: seq<Frozen>)

  /** The targets after a revalidation, and whether the session may go on. */
  ghost function Revalidated(targets: seq<Frozen>, buffer: string, page: Page, refreshPresentation: bool): Verdict {
    if page.otherOwner || !page.sameBinding || !page.scopeReady then Verdict(false, targets)
    else if page.descriptors.None? || !page.sameViewport then Verdict(false, targets)
    else
      var reconciled := Reconcile(targets, page.descriptors.value);
      if reconciled.None? || reconciled.value.targets == [] then Verdict(false, targets)
      else if AdvanceHintBuffer(buffer, "", CodesOf(reconciled.value.targets)).matches == [] then Verdict(false, targets)
      else Verdict(!refreshPresentation || page.dialogAccepts, reconciled.value.targets)
  }

  // ----- the session as a state machine

  /** An open session. `origin` and `keys` record the targets it starts with and the keys it accepted since. */
  datatype Live = Live(targets: seq<Frozen>, buffer: string, origin: seq<Frozen>, keys: seq<string>)

  datatype Exit = Exit(activated: bool, reason: string, target: Option<Frozen>)

  /** An activated target; `keys` are the accepted keys when the keyboard chose it. */
  datatype Fired = Fired(target: Frozen, keys: Option<seq<string>>)

  datatype State = State(session: Option<Live>, starts: nat, exits: seq<Exit>, fired: seq<Fired>)

  datatype DialogState = NoDialog | OpenFails | Opens

  datatype Event =
    | Start(targets: seq<Frozen>, dialog: DialogState, page: Page)
    | Keydown(event: KeyEvent, page: Page)
    | Choose(code: string, page: Page)
    | Revalidate(page: Page)
    | Cancel(reason: string)

  function FindCode(targets: seq<Frozen>, code: string): (found: Option<Frozen>)
    ensures found.Some? ==> found.value in targets && found.value.code == code
    ensures found.None? ==> forall t :: t in targets ==> t.code != code
  {
    if targets == [] then None
    else if targets[0].code == code then Some(targets[0])
    else FindCode(targets[1..], code)
  }

  function Closed(s: State, exit: Exit): State {
    s.(session := None, exits := s.exits + [exit])
  }

  function Cancelled(s: State, reason: string): State {
    if s.session.None? then s else Closed(s, Exit(false, reason, None))
  }

  ghost function Activated(s: State, code: string, page: Page, keys: Option<seq<string>>): State {
    if s.session.None? || FindCode(s.session.value.targets, code).None? then s
    else
      var live := s.session.value;
      var closed := Closed(s, Exit(true, "", FindCode(live.targets, code)));
      var verdict := Revalidated(live.targets, live.buffer, page, false);
      var target := FindCode(verdict.targets, code);
      if !verdict.valid || target.None? then closed
      else closed.(fired := closed.fired + [Fired(target.value, keys)])
  }

  ghost function InputApplied(s: State, key: string, page: Page): State {
    if s.session.None? then s
    else
      var live := s.session.value;
      var progress := AdvanceHintBuffer(live.buffer, key, CodesOf(live.targets));
      if progress.status.NoMatch? then Cancelled(s, "no-match")
      else
        var keys := live.keys + [key];
        var typed := s.(session := Some(live.(buffer := progress.buffer, keys := keys)));
        if progress.exact != "" then Activated(typed, progress.exact, page, Some(keys)) else typed
  }

  ghost function KeyHandled(s: State, event: KeyEvent, page: Page): State {
    if event.suppressed || event.nativeActivation then s
    else if event.key == "Escape" then Cancelled(s, "escape")
    else if event.key == "Backspace" then InputApplied(s, "Backspace", page)
    else if NormalizeKey(event) != "" then InputApplied(s, NormalizeKey(event), page)
    else if |event.key| == 1 then Cancelled(s, "no-match")
    else s
  }

  ghost function Revised(s: State, page: Page): State {
    if s.session.None? then s
    else
      var live := s.session.value;
      var verdict := Revalidated(live.targets, live.buffer, page, true);
      var revised := s.(session := Some(live.(targets := verdict.targets)));
      if verdict.valid then revised else Cancelled(revised, "snapshot-invalidated")
  }

  ghost function Started(s: State, targets: seq<Frozen>, dialog: DialogState, page: Page): State {
    if s.session.Some? || targets == [] || dialog.NoDialog? then s
    else
      var open := s.(session := Some(Live(targets, "", targets, [])), starts := s.starts + 1);
      if dialog.OpenFails? then Closed(open, Exit(false, "open-failed", None)) else Revised(open, page)
  }

  ghost function Step(s: State, event: Event): State {
    match event
    case Start(targets, dialog, page) => Started(s, targets, dialog, page)
    case Keydown(key, page) => KeyHandled(s, key, page)
    case Choose(code, page) => Activated(s, code, page, None)
    case Revalidate(page) => Revised(s, page)
    case Cancel(reason) => Cancelled(s, reason)
  }

  ghost function Run(s: State, events: seq<Event>): State {
    if events == [] then s else Step(Run(s, events[..|events| - 1]), events[|events| - 1])
  }

  const INITIAL: State := State(None, 0, [], [])

  // ----- the controller

  class Session {
    var targets: seq<Frozen>
    var buffer: string
    ghost const origin: seq<Frozen>
    ghost var keys: seq<string>

    constructor (targets: seq<Frozen>)
      ensures View() == Live(targets, "", targets, [])
    {
      this.targets := targets;
      buffer := "";
      origin := targets;
      keys := [];
    }

    ghost function View(): Live
      reads this
    {
      Live(targets, buffer, origin, keys)
    }
  }

  class ActionHintController {
    var session: Session?
    var exits: seq<Exit>
    ghost var starts: nat
    ghost var fired: seq<Fired>

    constructor ()
      ensures View() == INITIAL
    {
      session := null;
      exits := [];
      starts := 0;
      fired := [];
    }

    ghost function View(): State
      reads this, session
    {
      State(if session == null then None else Some(session.View()), starts, exits, fired)
    }

    method HandleHintKeydown(event: KeyEvent, page: Page)
      modifies this, session
      ensures View() == Step(old(View()), Keydown(event, page))
    {
      if event.suppressed || event.nativeActivation {
        return;
      }
      if event.key == "Escape" {
        var _ := CancelSession("escape");
        return;
      }
      if event.key == "Backspace" {
        ApplyInput("Backspace", page);
        return;
      }
      var key := NormalizeKey(event);
      if key == "" {
        if |event.key| == 1 {
          var _ := CancelSession("no-match");
        }
        return;
      }
      ApplyInput(key, page);
    }

    method ApplyInput(key: string, page: Page)
      modifies this, session
      ensures View() == InputApplied(old(View()), key, page)
    {
      if session == null {
        return;
      }
      var progress := AdvanceHintBuffer(session.buffer, key, CodesOf(session.targets));
      if progress.status.NoMatch? {
        var _ := CancelSession("no-match");
        return;
      }
      session.buffer := progress.buffer;
      session.keys := session.keys + [key];
      if progress.exact != "" {
        var _ := Activate(progress.exact, page, Some(session.keys));
      }
    }

    method StartSession(targets: seq<Frozen>, dialog: DialogState, page: Page) returns (open: bool)
      modifies this, session
      ensures View() == Step(old(View()), Start(targets, dialog, page))
      ensures open <==> old(session) == null && session != null
    {
      if session != null || targets == [] || dialog.NoDialog? {
        return false;
      }
      session := new Session(targets);
      starts := starts + 1;
      if dialog.OpenFails? {
        CloseSession();
        exits := exits + [Exit(false, "open-failed", None)];
        return false;
      }
      var valid := RevalidateSnapshot(session, page, true);
      if !valid {
        var _ := CancelSession("snapshot-invalidated");
      }
      return session != null;
    }

    method CancelSession(reason: string) returns (cancelled: bool)
      modifies this
      ensures View() == Cancelled(old(View()), reason)
      ensures cancelled <==> old(session) != null
      ensures session == null
    {
      if session == null {
        return false;
      }
      CloseSession();
      exits := exits + [Exit(false, reason, None)];
      return true;
    }

    method Activate(code: string, page: Page, ghost keys: Option<seq<string>>) returns (activated: bool)
      modifies this, session
      ensures View() == Activated(old(View()), code, page, keys)
      ensures activated <==> |fired| > |old(fired)|
    {
      if session == null {
        return false;
      }
      var closing := session;
      var requested := FindCode(closing.targets, code);
      if requested.None? {
        return false;
      }
      CloseSession();
      exits := exits + [Exit(true, "", requested)];
      var valid := RevalidateSnapshot(closing, page, false);
      if !valid {
        return false;
      }
      var target := FindCode(closing.targets, code);
      if target.None? {
        return false;
      }
      fired := fired + [Fired(target.value, keys)];
      return true;
    }

    method ReviseSession(page: Page)
      modifies this, session
      ensures View() == Step(old(View()), Revalidate(page))
    {
      if session != null {
        var valid := RevalidateSnapshot(session, page, true);
        if !valid {
          var _ := CancelSession("snapshot-invalidated");
        }
      }
    }

    method CloseSession()
      requires session != null
      modifies this`session
      ensures session == null
    {
      session := null;
    }

    method RevalidateSnapshot(snapshot: Session, page: Page, refreshPresentation: bool) returns (valid: bool)
      modifies snapshot`targets
      ensures Verdict(valid, snapshot.targets)
              == Revalidated(old(snapshot.targets), snapshot.buffer, page, refreshPresentation)
    {
      if page.otherOwner || !page.sameBinding || !page.scopeReady {
        return false;
      }
      if page.descriptors.None? || !page.sameViewport {
        return false;
      }
      var reconciled := ReconcileActionHintTargets(snapshot.targets, page.descriptors.value);
      if reconciled.None? || reconciled.value.targets == [] {
        return false;
      }
      if AdvanceHintBuffer(snapshot.buffer, "", CodesOf(reconciled.value.targets)).matches == [] {
        return false;
      }
      snapshot.targets := reconciled.value.targets;
      return !refreshPresentation || page.dialogAccepts;
    }
  }

  // ----- opening

  /** The targets a session opens with, made from what can be seen and used, in visual order. */
  ghost predicate Prepared(targets: seq<Frozen>) {
    && PrefixFree(CodesOf(targets))
    && forall t :: t in targets ==> t.code != ""
  }

  function TargetsOf(visible: seq<Descriptor>): seq<HintTarget> {
    seq(|visible|, i requires 0 <= i < |visible| => visible[i].binding.target)
  }

  predicate Visible(descriptors: seq<Descriptor>) {
    forall i :: 0 <= i < |descriptors| ==> descriptors[i].actionable && descriptors[i].visibleRect.Some?
  }

  function Freeze(ordered: seq<Descriptor>, codes: seq<string>): seq<Frozen>
    requires Visible(ordered) && |codes| == |ordered|
  {
    seq(|ordered|, i requires 0 <= i < |ordered| =>
      Frozen(ordered[i].binding, ordered[i].labelText, ordered[i].visibleRect.value, codes[i]))
  }

  /** A target is what its descriptor shows. */
  predicate FrozenFrom(target: Frozen, d: Descriptor) {
    target.binding == d.binding && target.labelText == d.labelText && Some(target.visibleRect) == d.visibleRect
  }

  lemma FreezePrepared(ordered: seq<Descriptor>, codes: seq<string>)
    requires Visible(ordered) && |codes| == |ordered| && PrefixFree(codes) && "" !in codes
    ensures Prepared(Freeze(ordered, codes)) && CodesOf(Freeze(ordered, codes)) == codes
  {
    assert CodesOf(Freeze(ordered, codes)) == codes;
    forall t | t in Freeze(ordered, codes) ensures t.code != "" {
      assert t.code in codes;
    }
  }

  /** The descriptors a target can be made from. */
  function Capturable(descriptors: seq<Descriptor>): (visible: seq<Descriptor>)
    ensures Visible(visible)
    ensures forall d :: d in visible <==> d in descriptors && d.actionable && d.visibleRect.Some?
  {
    if descriptors == [] then []
    else
      var first := descriptors[0];
      (if first.actionable && first.visibleRect.Some? then [first] else []) + Capturable(descriptors[1..])
  }

  /** Each such descriptor is taken as often as it is listed. */
  lemma {:induction false} CapturableAll(descriptors: seq<Descriptor>, d: Descriptor)
    ensures multiset(Capturable(descriptors))[d]
            == if d.actionable && d.visibleRect.Some? then multiset(descriptors)[d] else 0
  {
    if descriptors != [] {
      CapturableAll(descriptors[1..], d);
      assert descriptors == [descriptors[0]] + descriptors[1..];
    }
  }

  /** An order puts the same descriptors in some order. */
  ghost predicate Orders(order: seq<Descriptor> -> seq<Descriptor>) {
    forall ds :: multiset(order(ds)) == multiset(ds)
  }

  lemma OrderedVisible(ds: seq<Descriptor>, ordered: seq<Descriptor>)
    requires Visible(ds) && multiset(ordered) == multiset(ds)
    ensures Visible(ordered) && |ordered| == |ds|
  {
    assert |multiset(ordered)| == |ordered| && |multiset(ds)| == |ds|;
    forall i | 0 <= i < |ordered| ensures ordered[i].actionable && ordered[i].visibleRect.Some? {
      assert ordered[i] in multiset(ordered);
    }
  }

  /** `states` is None when the page cannot be measured; `order` is the visual order. */
  method CaptureTargets(states: Option<seq<Descriptor>>, order: seq<Descriptor> -> seq<Descriptor>, reserved: seq<string>)
    returns (targets: Option<seq<Frozen>>)
    requires Orders(order)
    requires states.Some? && AllSupported(TargetsOf(order(Capturable(states.value)))) ==>
               RootsRemain(TargetsOf(order(Capturable(states.value))), reserved)
    ensures targets.Some? <==> && states.Some?
                               && var hints := TargetsOf(order(Capturable(states.value)));
                                  AllSupported(hints) && GoodIds(hints) && !FixedCodeTwice(Policies(hints))
    ensures targets.Some? ==> && Prepared(targets.value)
                              && var ordered := order(Capturable(states.value));
                                 && Visible(ordered)
                                 && CodesOf(targets.value) == ScopeCodes(TargetsOf(ordered), reserved)
                                 && |targets.value| == |ordered|
                                 && forall i :: 0 <= i < |ordered| ==> FrozenFrom(targets.value[i], ordered[i])
  {
    if states.None? {
      return None;
    }
    ghost var capturable := Capturable(states.value);
    var ordered := order(Capturable(states.value));
    assert multiset(order(capturable)) == multiset(capturable);
    OrderedVisible(capturable, ordered);
    var r := AllocateActionHintCodes(TargetsOf(ordered), reserved);
    AllocationOutcome(TargetsOf(ordered), reserved, r);
    if !r.Allocated? {
      return None;
    }
    targets := Some(Freeze(ordered, r.codes));
    FreezePrepared(ordered, r.codes);
  }
}
