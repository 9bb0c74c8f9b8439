/** The coalescing refresh coordinator: one refresh at a time, and none asked for is lost. */
module RefreshCoordinatorModel {
  import opened Wrappers

  datatype RefreshState = Refreshing | Idle | Error

  // ----- what happened, by step of the event loop

  /** One call of `refresh`: the step it began and, once settled, the step it ended and whether it succeeded. */
  datatype Refresh = Refresh(began: nat, ended: Option<nat>, succeeded: bool)

  /** One call of `request`: its step and the run whose promise it was given. */
  datatype Call = Call(made: nat, run: nat)

  /** One promise: the step it resolved, once it has, and whether its last refresh failed. */
  datatype Run = Run(resolved: Option<nat>, failed: bool)

  datatype History = History(
    now: nat,
    active: Option<nat>,
    dirty: bool,
    refreshes: seq<Refresh>,
    requests: seq<Call>,
    runs: seq<Run>,
    states: seq<RefreshState>)

  datatype Event = Ask | Settle(succeeded: bool)

  const START: History := History(0, None, false, [], [], [], [])

  function Begin(h: History): History {
    h.(refreshes := h.refreshes + [Refresh(h.now, None, false)])
  }

  function Asked(h: History): History {
    if h.active.Some? then
      h.(now := h.now + 1, dirty := true, requests := h.requests + [Call(h.now, h.active.value)])
    else
      var run := |h.runs|;
      Begin(h).(
        now := h.now + 1,
        active := Some(run),
        dirty := false,
        requests := h.requests + [Call(h.now, run)],
        runs := h.runs + [Run(None, false)],
        states := h.states + [Refreshing])
  }

  /** A run can only be waiting for a refresh in flight; otherwise nothing can settle. */
  predicate InFlight(h: History) {
    h.active.Some? && h.active.value < |h.runs| && h.refreshes != [] && h.refreshes[|h.refreshes| - 1].ended.None?
  }

  function Settled(h: History, succeeded: bool): History {
    if !InFlight(h) then h
    else
      var last := |h.refreshes| - 1;
      var done := h.(refreshes := h.refreshes[last := h.refreshes[last].(ended := Some(h.now), succeeded := succeeded)]);
      if succeeded && h.dirty then Begin(done).(now := h.now + 1, dirty := false)
      else
        done.(
          now := h.now + 1,
          active := None,
          runs := h.runs[h.active.value := Run(Some(h.now), !succeeded)],
          states := h.states + [if succeeded then Idle else Error])
  }

  function Step(h: History, event: Event): History {
    match event
    case Ask => Asked(h)
    case Settle(succeeded) => Settled(h, succeeded)
  }

  function After(h: History, events: seq<Event>): History {
    if events == [] then h else Step(After(h, events[..|events| - 1]), events[|events| - 1])
  }

  // ----- the coordinator

  class RefreshCoordinator {
    var active: Option<nat>
    var dirty: bool
    // Promises are numbered in the order they are made.
    var nextRun: nat
    ghost var history: History

    ghost predicate Valid()
      reads this
    {
      && active == history.active && dirty == history.dirty && nextRun == |history.runs|
      && (active.Some? ==> InFlight(history))
    }

    constructor ()
      ensures Valid() && history == START
    {
      active := None;
      dirty := false;
      nextRun := 0;
      history := START;
    }

    /** The synchronous part of `request`: joins the run in progress, or starts one and its first refresh. */
    method Request() returns (run: nat)
      requires Valid()
      modifies this
      ensures Valid() && history == Step(old(history), Ask)
      ensures history.requests == old(history).requests + [Call(old(history).now, run)]
    {
      history := Asked(history);
      if active.Some? {
        dirty := true;
        return active.value;
      }
      run := nextRun;
      nextRun := nextRun + 1;
      dirty := false;
      active := Some(run);
    }

    /** What `run` does when its refresh settles: another refresh if one was asked for meanwhile, or the end. */
    method RefreshSettled(succeeded: bool) returns (again: bool)
      requires Valid() && active.Some?
      modifies this
      ensures Valid() && history == Step(old(history), Settle(succeeded))
      ensures again <==> active.Some?
    {
      history := Settled(history, succeeded);
      again := succeeded && dirty;
      if again {
        dirty := false;
      } else {
        active := None;
      }
    }
  }

  // ----- what every run of events keeps

  ghost predicate Ended(r: Refresh, limit: nat) {
    r.ended.Some? && r.ended.value <= limit
  }

  /** A successful refresh that began no earlier than `made` and had ended by `by`. */
  ghost predicate ServedBy(refreshes: seq<Refresh>, made: nat, limit: nat) {
    exists i :: 0 <= i < |refreshes| && refreshes[i].began >= made && Ended(refreshes[i], limit) && refreshes[i].succeeded
  }

  /** A request's promise: waiting for a refresh that serves it, resolved after one, or of a failed run. */
  ghost predicate CallKept(h: History, call: Call) {
    && call.run < |h.runs| && call.made < h.now
    && match h.runs[call.run].resolved
       case None =>
         && h.active == Some(call.run)
         && (h.dirty || (h.refreshes != [] && h.refreshes[|h.refreshes| - 1].began >= call.made))
       case Some(at) => at < h.now && (h.runs[call.run].failed || ServedBy(h.refreshes, call.made, at))
  }

  /** Only the last refresh can be in flight, and it is exactly while a run is active. */
  ghost predicate OneInFlight(h: History) {
    && (forall i :: 0 <= i < |h.refreshes| ==> h.refreshes[i].began < h.now)
    && (forall i :: 0 <= i < |h.refreshes| && (h.active.None? || i < |h.refreshes| - 1) ==> h.refreshes[i].ended.Some?)
    && (h.active.Some? ==> InFlight(h) && h.runs[h.active.value].resolved.None?)
  }

  /** Every refresh was asked for: one more request than refreshes while another refresh is owed. */
  ghost predicate NotMoreThanAsked(h: History) {
    |h.refreshes| + (if h.active.Some? && h.dirty then 1 else 0) <= |h.requests|
  }

  /** The state reported last says whether a run is active. */
  ghost predicate StatesTold(h: History) {
    && (h.active.Some? <==> h.states != [] && h.states[|h.states| - 1].Refreshing?)
    && (forall i :: 0 <= i < |h.states| ==> (h.states[i].Refreshing? <==> i % 2 == 0))
  }

  /** Refreshes come one after another, each over before the next begins. */
  ghost predicate InOrder(h: History) {
    && (forall i :: 0 <= i < |h.refreshes| && h.refreshes[i].ended.Some? ==>
          h.refreshes[i].began < h.refreshes[i].ended.value < h.now)
    && (forall i, j :: 0 <= i < j < |h.refreshes| && h.refreshes[i].ended.Some? ==>
          h.refreshes[i].ended.value <= h.refreshes[j].began)
  }

  /** The refresh that ended when the run's promise resolved, with the outcome the run tells of. */
  ghost predicate EndsRun(refreshes: seq<Refresh>, k: nat, run: Run) {
    && k < |refreshes| && refreshes[k].ended.Some?
    && refreshes[k].ended == run.resolved && refreshes[k].succeeded == !run.failed
  }

  /** A promise resolves when a refresh ends, and tells of its outcome. */
  ghost predicate ResolvedByRefresh(h: History) {
    forall r :: 0 <= r < |h.runs| && h.runs[r].resolved.Some? ==>
      exists k: nat :: EndsRun(h.refreshes, k, h.runs[r])
  }

  /** A failed refresh leaves no request waiting that was made before it ended. */
  ghost predicate FailureResolves(h: History, call: Call) {
    forall i :: 0 <= i < |h.refreshes| && h.refreshes[i].ended.Some? && !h.refreshes[i].succeeded
                && call.made < h.refreshes[i].ended.value ==>
      && call.run < |h.runs| && h.runs[call.run].resolved.Some?
      && h.runs[call.run].resolved.value <= h.refreshes[i].ended.value
  }

  ghost predicate Inv(h: History) {
    && OneInFlight(h)
    && NotMoreThanAsked(h)
    && StatesTold(h)
    && (forall i :: 0 <= i < |h.requests| ==> CallKept(h, h.requests[i]))
    && InOrder(h)
    && ResolvedByRefresh(h)
    && (forall i :: 0 <= i < |h.requests| ==> FailureResolves(h, h.requests[i]))
  }

  lemma CallStaysOnAsk(h: History, call: Call)
    requires OneInFlight(h) && CallKept(h, call)
    ensures CallKept(Asked(h), call)
  {
    var next := Asked(h);
    assert next.runs[call.run] == h.runs[call.run];
    if h.runs[call.run].resolved.Some? && !h.runs[call.run].failed {
      var at := h.runs[call.run].resolved.value;
      var i :| 0 <= i < |h.refreshes| && h.refreshes[i].began >= call.made && Ended(h.refreshes[i], at)
               && h.refreshes[i].succeeded;
      assert next.refreshes[i] == h.refreshes[i];
    }
  }

  lemma AskInv(h: History)
    requires Inv(h)
    ensures Inv(Asked(h))
  {
    var next := Asked(h);
    forall i | 0 <= i < |next.requests|
      ensures CallKept(next, next.requests[i]) && FailureResolves(next, next.requests[i])
    {
      if i < |h.requests| {
        CallStaysOnAsk(h, h.requests[i]);
        AskFailureResolves(h, h.requests[i]);
      } else {
        NewCallKept(h, next.requests[i]);
      }
    }
    AskInOrder(h);
    AskResolved(h);
    AskTold(h);
  }

  lemma NewCallKept(h: History, call: Call)
    requires OneInFlight(h) && InOrder(h)
    requires call == Call(h.now, if h.active.Some? then h.active.value else |h.runs|)
    ensures CallKept(Asked(h), call) && FailureResolves(Asked(h), call)
  {
  }

  lemma AskInOrder(h: History)
    requires OneInFlight(h) && InOrder(h)
    ensures OneInFlight(Asked(h)) && InOrder(Asked(h))
  {
  }

  lemma AskTold(h: History)
    requires StatesTold(h) && NotMoreThanAsked(h)
    ensures StatesTold(Asked(h)) && NotMoreThanAsked(Asked(h))
  {
  }

  lemma AskFailureResolves(h: History, call: Call)
    requires OneInFlight(h) && CallKept(h, call) && FailureResolves(h, call)
    ensures FailureResolves(Asked(h), call)
  {
    var next := Asked(h);
    assert next.runs[call.run] == h.runs[call.run];
    assert forall i :: 0 <= i < |h.refreshes| ==> next.refreshes[i] == h.refreshes[i];
  }

  lemma AskResolved(h: History)
    requires ResolvedByRefresh(h)
    ensures ResolvedByRefresh(Asked(h))
  {
    var next := Asked(h);
    forall r | 0 <= r < |next.runs| && next.runs[r].resolved.Some?
      ensures exists k: nat :: EndsRun(next.refreshes, k, next.runs[r])
    {
      var k: nat :| EndsRun(h.refreshes, k, h.runs[r]);
      assert EndsRun(next.refreshes, k, next.runs[r]);
    }
  }

  lemma CallStaysOnSettle(h: History, call: Call, succeeded: bool)
    requires OneInFlight(h) && CallKept(h, call) && InFlight(h)
    ensures CallKept(Settled(h, succeeded), call)
  {
    var next := Settled(h, succeeded);
    var last := |h.refreshes| - 1;
    if h.runs[call.run].resolved.Some? {
      var at := h.runs[call.run].resolved.value;
      if !h.runs[call.run].failed {
        var i :| 0 <= i < |h.refreshes| && h.refreshes[i].began >= call.made && Ended(h.refreshes[i], at)
                 && h.refreshes[i].succeeded;
        assert next.refreshes[i] == h.refreshes[i];
      }
    } else if !(succeeded && h.dirty) && succeeded {
      assert next.refreshes[last].began >= call.made && Ended(next.refreshes[last], h.now)
          && next.refreshes[last].succeeded;
    }
  }

  lemma SettleInv(h: History, succeeded: bool)
    requires Inv(h)
    ensures Inv(Settled(h, succeeded))
  {
    if InFlight(h) {
      var next := Settled(h, succeeded);
      forall i | 0 <= i < |next.requests| ensures CallKept(next, next.requests[i]) {
        CallStaysOnSettle(h, h.requests[i], succeeded);
      }
      SettleInOrder(h, succeeded);
      SettleResolved(h, succeeded);
      forall i | 0 <= i < |next.requests| ensures FailureResolves(next, next.requests[i]) {
        SettleFailureResolves(h, h.requests[i], succeeded);
      }
    }
  }

  lemma SettleInOrder(h: History, succeeded: bool)
    requires OneInFlight(h) && InOrder(h) && InFlight(h)
    ensures InOrder(Settled(h, succeeded))
  {
    var next, last := Settled(h, succeeded), |h.refreshes| - 1;
    forall i, j | 0 <= i < j < |next.refreshes| && next.refreshes[i].ended.Some?
      ensures next.refreshes[i].ended.value <= next.refreshes[j].began
    {
      if j <= last {
        assert next.refreshes[i] == h.refreshes[i] && next.refreshes[j].began == h.refreshes[j].began;
      }
    }
  }

  lemma SettleResolved(h: History, succeeded: bool)
    requires OneInFlight(h) && ResolvedByRefresh(h) && InFlight(h)
    ensures ResolvedByRefresh(Settled(h, succeeded))
  {
    var next, last := Settled(h, succeeded), |h.refreshes| - 1;
    forall r | 0 <= r < |next.runs| && next.runs[r].resolved.Some?
      ensures exists k: nat :: EndsRun(next.refreshes, k, next.runs[r])
    {
      if h.runs[r].resolved.Some? {
        var k: nat :| EndsRun(h.refreshes, k, h.runs[r]);
        assert EndsRun(next.refreshes, k, next.runs[r]);
      } else {
        assert EndsRun(next.refreshes, last, next.runs[r]);
      }
    }
  }

  lemma SettleFailureResolves(h: History, call: Call, succeeded: bool)
    requires OneInFlight(h) && InFlight(h) && InOrder(h) && CallKept(h, call) && FailureResolves(h, call)
    ensures FailureResolves(Settled(h, succeeded), call)
  {
    var next, last := Settled(h, succeeded), |h.refreshes| - 1;
    forall i | 0 <= i < |next.refreshes| && next.refreshes[i].ended.Some? && !next.refreshes[i].succeeded
               && call.made < next.refreshes[i].ended.value
      ensures next.runs[call.run].resolved.Some?
      ensures next.runs[call.run].resolved.value <= next.refreshes[i].ended.value
    {
      if i < last { assert next.refreshes[i] == h.refreshes[i]; }
    }
  }

  lemma {:induction false} EveryRunKeeps(events: seq<Event>)
    ensures Inv(After(START, events))
  {
    if events != [] {
      EveryRunKeeps(events[..|events| - 1]);
      var h := After(START, events[..|events| - 1]);
      AskInv(h);
      if events[|events| - 1].Settle? { SettleInv(h, events[|events| - 1].succeeded); }
    }
  }

  /**
   * Over every interleaving: at most one refresh is in flight, refreshes do not outnumber requests, and a
   * promise that has resolved did so only after a successful refresh begun at or after its request, unless
   * the run's last refresh failed.
   */
  lemma NoLostRefresh(events: seq<Event>, i: nat)
    requires i < |After(START, events).requests|
    ensures var h := After(START, events);
            var call := h.requests[i];
            && (forall j, k ::
                  (0 <= j < |h.refreshes| && 0 <= k < |h.refreshes|
                   && h.refreshes[j].ended.None? && h.refreshes[k].ended.None?) ==> j == k)
            && |h.refreshes| <= |h.requests|
            && call.run < |h.runs|
            && (h.runs[call.run].resolved.Some? && !h.runs[call.run].failed
                ==> ServedBy(h.refreshes, call.made, h.runs[call.run].resolved.value))
  {
    EveryRunKeeps(events);
    var h := After(START, events);
    assert CallKept(h, h.requests[i]);
  }

  /** A refresh that began no earlier than `made` had ended by `limit`, successfully or not. */
  ghost predicate AttemptedBy(refreshes: seq<Refresh>, made: nat, limit: nat) {
    exists i :: 0 <= i < |refreshes| && refreshes[i].began >= made && Ended(refreshes[i], limit)
  }

  /**
   * For every request whose promise has resolved, by the refresh `k` that ended then: no refresh was made
   * for it at all exactly when that refresh failed and had begun before the request; and none succeeded
   * exactly when that refresh failed and the one before it, if any, had begun before the request.
   */
  lemma ResolvedIff(events: seq<Event>, i: nat) returns (k: nat)
    requires i < |After(START, events).requests|
    requires var h := After(START, events);
             h.requests[i].run < |h.runs| && h.runs[h.requests[i].run].resolved.Some?
    ensures var h := After(START, events);
            var call := h.requests[i];
            var at, failed := h.runs[call.run].resolved.value, h.runs[call.run].failed;
            && EndsRun(h.refreshes, k, h.runs[call.run])
            && (!AttemptedBy(h.refreshes, call.made, at) <==> failed && h.refreshes[k].began < call.made)
            && (!ServedBy(h.refreshes, call.made, at)
                <==> failed && (k == 0 || h.refreshes[k - 1].began < call.made))
  {
    EveryRunKeeps(events);
    var h := After(START, events);
    var call := h.requests[i];
    assert CallKept(h, call);
    var run := h.runs[call.run];
    k :| EndsRun(h.refreshes, k, run);
    Attempts(h, call, k);
    Serves(h, call, k);
  }

  lemma Attempts(h: History, call: Call, k: nat)
    requires OneInFlight(h) && InOrder(h) && CallKept(h, call) && h.runs[call.run].resolved.Some?
    requires EndsRun(h.refreshes, k, h.runs[call.run])
    ensures var at, failed := h.runs[call.run].resolved.value, h.runs[call.run].failed;
            !AttemptedBy(h.refreshes, call.made, at) <==> failed && h.refreshes[k].began < call.made
  {
    var at := h.runs[call.run].resolved.value;
    if h.runs[call.run].failed {
      forall i | 0 <= i < |h.refreshes| && Ended(h.refreshes[i], at) ensures h.refreshes[i].began <= h.refreshes[k].began {
        EndedFirst(h, i, k);
      }
    }
  }

  /** Of two refreshes, the one that ended no later is the other one or began before it. */
  lemma EndedFirst(h: History, i: nat, k: nat)
    requires InOrder(h) && i < |h.refreshes| && k < |h.refreshes| && h.refreshes[k].ended.Some?
    requires Ended(h.refreshes[i], h.refreshes[k].ended.value)
    ensures i <= k && h.refreshes[i].began <= h.refreshes[k].began
    ensures i < k - 1 ==> h.refreshes[i].began <= h.refreshes[k - 1].began
  {
  }

  lemma Serves(h: History, call: Call, k: nat)
    requires Inv(h) && CallKept(h, call) && FailureResolves(h, call) && h.runs[call.run].resolved.Some?
    requires EndsRun(h.refreshes, k, h.runs[call.run])
    ensures var at, failed := h.runs[call.run].resolved.value, h.runs[call.run].failed;
            !ServedBy(h.refreshes, call.made, at) <==> failed && (k == 0 || h.refreshes[k - 1].began < call.made)
  {
    var at := h.runs[call.run].resolved.value;
    if h.runs[call.run].failed {
      if ServedBy(h.refreshes, call.made, at) {
        var i :| 0 <= i < |h.refreshes| && h.refreshes[i].began >= call.made && Ended(h.refreshes[i], at)
                 && h.refreshes[i].succeeded;
        EndedFirst(h, i, k);
      }
      if k > 0 && h.refreshes[k - 1].began >= call.made {
        var before := h.refreshes[k - 1];
        assert before.ended.Some? && before.ended.value <= h.refreshes[k].began < at;
        assert before.succeeded;
        assert Ended(before, at);
      }
    }
  }

  /** With no further requests, two settlements are enough: the one in flight and the one it may owe. */
  lemma SettlesSoon(h: History, first: bool, second: bool)
    requires Inv(h)
    ensures var once := Settled(h, first);
            && Settled(once, second).active.None?
            && (!h.dirty || !first ==> once.active.None?)
  {
    SettleInv(h, first);
  }

  /** A request that a failed refresh resolves, with no refresh made for it. */
  lemma FailureLosesRefresh()
    ensures var h := After(START, [Ask, Ask, Settle(false)]);
            && h.requests == [Call(0, 0), Call(1, 0)] && h.runs == [Run(Some(2), true)]
            && !ServedBy(h.refreshes, 1, 2)
  {
    var events := [Ask, Ask, Settle(false)];
    assert events[..2] == [Ask, Ask] && events[..2][..1] == [Ask] && events[..2][..1][..0] == [];
    var one := Step(START, Ask);
    var two := Step(one, Ask);
    assert After(START, [Ask]) == one && After(START, [Ask, Ask]) == two;
    assert two.refreshes == [Refresh(0, None, false)] && two.requests == [Call(0, 0), Call(1, 0)];
  }

  // ----- the states told

  /** Each run is told of twice: that it began, and how it ended. */
  ghost predicate RunsTold(h: History) {
    && |h.states| == 2 * |h.runs| - (if h.active.Some? then 1 else 0)
    && (h.active.Some? ==> h.active.value == |h.runs| - 1)
    && (forall r :: 0 <= r < |h.runs| ==> h.states[2 * r] == Refreshing)
    && (forall r :: 0 <= r < |h.runs| && h.active != Some(r) ==>
          && h.runs[r].resolved.Some?
          && h.states[2 * r + 1] == if h.runs[r].failed then Error else Idle)
  }

  lemma StepTold(h: History, event: Event)
    requires RunsTold(h)
    ensures RunsTold(Step(h, event))
  {
    var next := Step(h, event);
    forall r | 0 <= r < |next.runs| && next.active != Some(r)
      ensures next.runs[r].resolved.Some? && next.states[2 * r + 1] == if next.runs[r].failed then Error else Idle
    {
      if h.active != Some(r) { assert next.states[2 * r + 1] == h.states[2 * r + 1]; }
    }
  }

  /** Over every interleaving the user is told of each run's start, and then whether it succeeded. */
  lemma {:induction false} StatesTell(events: seq<Event>)
    ensures RunsTold(After(START, events))
  {
    if events != [] {
      StatesTell(events[..|events| - 1]);
      StepTold(After(START, events[..|events| - 1]), events[|events| - 1]);
    }
  }
}
