/** Installing an application shell: every file of one build, or nothing. */
module ShellInstall {
  import opened Wrappers

  // ----- responses, caches and the server

  datatype Response = Response(status: nat, tag: Option<string>, body: string)

  type Cache = map<string, Response>

  /** What the one build the server runs answers for a path: a body and its tag. */
  datatype Asset = Asset(body: string, tag: string)

  type Server = map<string, Asset>

  predicate Successful(response: Response) {
    200 <= response.status < 300
  }

  /**
   * A request to the server. A conditional one is answered 304 when its tag is the asset's;
   * `fault` is a lost connection or an error status.
   */
  function Fetch(server: Server, path: string, ifNoneMatch: Option<string>, fault: bool): Option<Response> {
    if fault || path !in server then None
    else if ifNoneMatch == Some(server[path].tag) then Some(Response(304, ifNoneMatch, ""))
    else Some(Response(200, Some(server[path].tag), server[path].body))
  }

  predicate Tagged(response: Response) {
    response.tag.Some? && response.tag.value != ""
  }

  /** The first copy with a tag among earlier builds' caches. */
  function PreviousCopy(caches: seq<Cache>, path: string): (copy: Option<Response>)
    ensures copy.Some? ==> Tagged(copy.value) && exists i :: 0 <= i < |caches| && path in caches[i] && caches[i][path] == copy.value
  {
    if caches == [] then None
    else if path in caches[0] && Tagged(caches[0][path]) then Some(caches[0][path])
    else PreviousCopy(caches[1..], path)
  }

  /** The response to store for a path: the copy the server says is unchanged, or what it sent. */
  function AssetResponse(server: Server, previous: seq<Cache>, path: string, fault: bool): Option<Response> {
    var copy := PreviousCopy(previous, path);
    var response := Fetch(server, path, if copy.Some? then copy.value.tag else None, fault);
    if response.None? then None
    else if copy.Some? && response.value.status == 304 then copy
    else if !Successful(response.value) then None
    else response
  }

  method ShellAssetResponse(server: Server, previousCaches: seq<Cache>, path: string, fault: bool)
    returns (stored: Option<Response>)
    ensures stored == AssetResponse(server, previousCaches, path, fault)
  {
    var previous: Option<Response> := None;
    var previousTag := "";
    var i := 0;
    while i < |previousCaches| && previous.None?
      invariant 0 <= i <= |previousCaches|
      invariant previous.Some? ==> Tagged(previous.value) && previousTag == previous.value.tag.value
      invariant PreviousCopy(previousCaches, path)
                == if previous.Some? then previous else PreviousCopy(previousCaches[i..], path)
    {
      var cache := previousCaches[i];
      assert previousCaches[i..][0] == cache && previousCaches[i..][1..] == previousCaches[i + 1..];
      if path in cache && Tagged(cache[path]) {
        previous := Some(cache[path]);
        previousTag := cache[path].tag.value;
      }
      i := i + 1;
    }
    var response := Fetch(server, path, if previous.Some? then Some(previousTag) else None, fault);
    if response.None? {
      return None;
    }
    if previous.Some? && response.value.status == 304 {
      return previous;
    }
    if !Successful(response.value) {
      return None;
    }
    return response;
  }

  /** A tag names one body: a copy with the asset's tag has the asset's body. */
  ghost predicate StrongTags(server: Server, caches: seq<Cache>) {
    forall i, path ::
      (0 <= i < |caches| && path in caches[i] && path in server && caches[i][path].tag == Some(server[path].tag))
      ==> caches[i][path].body == server[path].body
  }

  /** Whatever was kept from before, what is stored has the body a fresh request would have. */
  lemma StoredIsFresh(server: Server, previous: seq<Cache>, path: string, fault: bool)
    requires StrongTags(server, previous)
    ensures var stored := AssetResponse(server, previous, path, fault);
            && (stored.Some? <==> !fault && path in server)
            && (stored.Some? ==> stored.value.body == server[path].body)
  {
  }

  /** The cache holds a copy of the path that a server could be asked about. */
  predicate Holds(cache: Cache, path: string) {
    path in cache && Tagged(cache[path])
  }

  lemma {:induction false} FirstCopy(caches: seq<Cache>, path: string, i: nat)
    requires i <= |caches| && forall k :: 0 <= k < i ==> !Holds(caches[k], path)
    ensures i < |caches| && Holds(caches[i], path) ==> PreviousCopy(caches, path) == Some(caches[i][path])
    ensures i == |caches| ==> PreviousCopy(caches, path).None?
  {
    if i > 0 { FirstCopy(caches[1..], path, i - 1); }
  }

  /** The first earlier copy is kept when its tag is still the asset's; in any other case the asset is sent whole. */
  lemma StoredIs(server: Server, previous: seq<Cache>, path: string, i: nat)
    requires path in server && i <= |previous| && forall k :: 0 <= k < i ==> !Holds(previous[k], path)
    requires i < |previous| ==> Holds(previous[i], path)
    ensures var asset, stored := server[path], AssetResponse(server, previous, path, false);
            stored == Some(if i < |previous| && previous[i][path].tag == Some(asset.tag)
                           then previous[i][path] else Response(200, Some(asset.tag), asset.body))
  {
    FirstCopy(previous, path, i);
  }

  // ----- installation

  datatype Task = Pending | Stored | Failed

  datatype Outcome = Running | Discarding | Installed | Rejected

  /** The named caches, the one being filled, and the tasks that fill it. */
  datatype Install = Install(
    names: map<string, nat>,
    contents: map<nat, Cache>,
    name: string,
    target: nat,
    previous: seq<Cache>,
    assets: seq<string>,
    tasks: seq<Task>,
    outcome: Outcome)

  datatype Event = Finish(task: nat, fault: bool) | Discard

  predicate WellFormed(s: Install) {
    |s.tasks| == |s.assets| && s.target in s.contents
  }

  predicate AllStored(tasks: seq<Task>) {
    forall i :: 0 <= i < |tasks| ==> tasks[i].Stored?
  }

  function Finished(s: Install, server: Server, task: nat, fault: bool): Install
    requires WellFormed(s)
  {
    if task >= |s.tasks| || !s.tasks[task].Pending? then s
    else
      var stored := AssetResponse(server, s.previous, s.assets[task], fault);
      if stored.Some? then
        var tasks := s.tasks[task := Stored];
        s.(contents := s.contents[s.target := s.contents[s.target][s.assets[task] := stored.value]],
           tasks := tasks,
           outcome := if s.outcome.Running? && AllStored(tasks) then Installed else s.outcome)
      else
        s.(tasks := s.tasks[task := Failed], outcome := if s.outcome.Running? then Discarding else s.outcome)
  }

  function Discarded(s: Install): Install {
    if s.outcome.Discarding? then s.(names := s.names - {s.name}, outcome := Rejected) else s
  }

  function Step(s: Install, server: Server, event: Event): (next: Install)
    requires WellFormed(s)
    ensures WellFormed(next)
  {
    match event
    case Finish(task, fault) => Finished(s, server, task, fault)
    case Discard => Discarded(s)
  }

  function Run(s: Install, server: Server, events: seq<Event>): (end: Install)
    requires WellFormed(s)
    ensures WellFormed(end)
  {
    if events == [] then s else Step(Run(s, server, events[..|events| - 1]), server, events[|events| - 1])
  }

  /** Opening the named cache, with a task for each asset. An empty list of assets is installed at once. */
  function Opened(names: map<string, nat>, contents: map<nat, Cache>, name: string, free: nat, previous: seq<Cache>,
                  assets: seq<string>): (s: Install)
    requires name in names ==> names[name] in contents
    ensures WellFormed(s)
  {
    var target := if name in names then names[name] else free;
    Install(
      names[name := target],
      if name in names then contents else contents[free := map[]],
      name, target, previous, assets,
      seq(|assets|, _ => Pending),
      if assets == [] then Installed else Running)
  }

  // ----- the installer

  class Installer {
    var state: Install
    const server: Server

    constructor (names: map<string, nat>, contents: map<nat, Cache>, name: string, free: nat, previous: seq<Cache>,
                 assets: seq<string>, server: Server)
      requires name in names ==> names[name] in contents
      ensures state == Opened(names, contents, name, free, previous, assets) && this.server == server
    {
      state := Opened(names, contents, name, free, previous, assets);
      this.server := server;
    }

    /** One asset's task runs to its end. */
    method FinishTask(task: nat, fault: bool)
      requires WellFormed(state)
      modifies this`state
      ensures state == Step(old(state), server, Finish(task, fault))
    {
      if task >= |state.tasks| || !state.tasks[task].Pending? {
        return;
      }
      var stored := ShellAssetResponse(server, state.previous, state.assets[task], fault);
      if stored.None? {
        state := state.(tasks := state.tasks[task := Failed]);
        if state.outcome.Running? {
          state := state.(outcome := Discarding);
        }
        return;
      }
      var cache := state.contents[state.target][state.assets[task] := stored.value];
      state := state.(contents := state.contents[state.target := cache], tasks := state.tasks[task := Stored]);
      if state.outcome.Running? && AllStored(state.tasks) {
        state := state.(outcome := Installed);
      }
    }

    /** The failure handler takes the named cache away. */
    method DiscardCache()
      modifies this`state
      ensures state == Discarded(old(state))
    {
      if state.outcome.Discarding? {
        state := state.(names := state.names - {state.name}, outcome := Rejected);
      }
    }
  }

  // ----- every completion order

  ghost predicate Inv(s: Install, server: Server) {
    && WellFormed(s)
    && (forall i :: (0 <= i < |s.tasks| && s.tasks[i].Stored?) ==>
          && s.assets[i] in s.contents[s.target] && s.assets[i] in server
          && s.contents[s.target][s.assets[i]].body == server[s.assets[i]].body)
    && (s.outcome.Rejected? <==> s.name !in s.names)
    && (s.name in s.names ==> s.names[s.name] == s.target)
    && (s.outcome.Installed? <==> AllStored(s.tasks))
    && (s.outcome.Running? ==> forall i :: 0 <= i < |s.tasks| ==> !s.tasks[i].Failed?)
    && (s.outcome.Discarding? || s.outcome.Rejected? ==> exists i :: 0 <= i < |s.tasks| && s.tasks[i].Failed?)
  }

  lemma FinishInv(s: Install, server: Server, task: nat, fault: bool)
    requires Inv(s, server) && StrongTags(server, s.previous)
    ensures Inv(Finished(s, server, task, fault), server)
  {
    if task < |s.tasks| && s.tasks[task].Pending? {
      StoredIsFresh(server, s.previous, s.assets[task], fault);
      var next := Finished(s, server, task, fault);
      if s.outcome.Discarding? || s.outcome.Rejected? {
        var i :| 0 <= i < |s.tasks| && s.tasks[i].Failed?;
        assert next.tasks[i].Failed?;
      }
      if next.tasks[task].Failed? {
        assert !AllStored(next.tasks);
      }
    }
  }

  lemma OpenedInv(names: map<string, nat>, contents: map<nat, Cache>, name: string, free: nat, previous: seq<Cache>,
                  assets: seq<string>, server: Server)
    requires name in names ==> names[name] in contents
    ensures Inv(Opened(names, contents, name, free, previous, assets), server)
  {
    var s := Opened(names, contents, name, free, previous, assets);
    if assets != [] {
      assert s.tasks[0].Pending?;
    }
  }

  /** The rest of the cache storage is never touched. */
  ghost predicate OthersKept(s: Install, t: Install) {
    && s.name == t.name && s.target == t.target && s.previous == t.previous && s.assets == t.assets
    && (forall n :: n != s.name ==> (n in s.names <==> n in t.names) && (n in s.names ==> s.names[n] == t.names[n]))
    && (forall c :: c != s.target ==> (c in s.contents <==> c in t.contents)
                                      && (c in s.contents ==> s.contents[c] == t.contents[c]))
  }

  lemma {:induction false} EveryOrder(s: Install, server: Server, events: seq<Event>)
    requires Inv(s, server) && StrongTags(server, s.previous)
    ensures Inv(Run(s, server, events), server) && OthersKept(s, Run(s, server, events))
  {
    if events != [] {
      EveryOrder(s, server, events[..|events| - 1]);
      var before := Run(s, server, events[..|events| - 1]);
      var event := events[|events| - 1];
      StepInv(before, server, event);
      KeptOn(s, before, Step(before, server, event));
    }
  }

  lemma StepInv(s: Install, server: Server, event: Event)
    requires Inv(s, server) && StrongTags(server, s.previous)
    ensures Inv(Step(s, server, event), server) && OthersKept(s, Step(s, server, event))
  {
    if event.Finish? { FinishInv(s, server, event.task, event.fault); }
  }

  lemma KeptOn(s: Install, t: Install, u: Install)
    requires OthersKept(s, t) && OthersKept(t, u)
    ensures OthersKept(s, u)
  {
  }

  /**
   * In every completion order, once the installation has settled the named cache is either absent or holds
   * every listed path with the body a fresh request would give, and no other cache has changed.
   */
  lemma AllOrNothing(names: map<string, nat>, contents: map<nat, Cache>, name: string, free: nat, previous: seq<Cache>,
                     assets: seq<string>, server: Server, events: seq<Event>)
    requires name in names ==> names[name] in contents
    requires StrongTags(server, previous)
    ensures var s := Run(Opened(names, contents, name, free, previous, assets), server, events);
            && (s.outcome.Rejected? ==> name !in s.names)
            && (s.outcome.Installed? ==>
                  && name in s.names && s.names[name] in s.contents
                  && forall path :: path in assets ==>
                       && path in s.contents[s.names[name]] && path in server
                       && s.contents[s.names[name]][path].body == server[path].body)
            && (forall n :: n != name ==> (n in names <==> n in s.names) && (n in names ==> s.names[n] == names[n]))
  {
    var start := Opened(names, contents, name, free, previous, assets);
    OpenedInv(names, contents, name, free, previous, assets, server);
    EveryOrder(start, server, events);
    var s := Run(start, server, events);
    if s.outcome.Installed? {
      forall path | path in assets
        ensures path in s.contents[s.target] && path in server && s.contents[s.target][path].body == server[path].body
      {
        var i :| 0 <= i < |assets| && assets[i] == path;
        assert s.tasks[i].Stored?;
      }
    }
  }

  /** Once every task has ended the installation has succeeded or is being undone, and it succeeds when nothing fails. */
  lemma SettlesByFailures(s: Install, server: Server)
    requires Inv(s, server) && forall i :: 0 <= i < |s.tasks| ==> !s.tasks[i].Pending?
    ensures s.outcome.Installed? <==> forall i :: 0 <= i < |s.tasks| ==> !s.tasks[i].Failed?
    ensures !s.outcome.Installed? ==> Discarded(s).outcome.Rejected?
  {
    if s.outcome.Running? {
      assert AllStored(s.tasks);
    }
  }

  // ----- serving

  /** A request is answered from this build's cache when it holds the path. */
  function ActiveShellFirst(cache: Cache, path: string, network: Option<Response>): Response {
    if path in cache then cache[path]
    else if network.Some? then network.value
    else Response(504, None, "Caffold app shell is unavailable.")
  }

  /** The cache first, then the network, and else the answer that the shell is unavailable. */
  lemma ShellAnswers(cache: Cache, path: string, network: Option<Response>)
    ensures path in cache ==> ActiveShellFirst(cache, path, network) == cache[path]
    ensures path !in cache && network.Some? ==> Some(ActiveShellFirst(cache, path, network)) == network
    ensures path !in cache && network.None? ==> ActiveShellFirst(cache, path, network).status == 504
  {
  }

  /** After an installation every listed path is answered with one build's body, whatever the network does. */
  lemma ServesOneBuild(s: Install, server: Server, path: string, network: Option<Response>)
    requires Inv(s, server) && s.outcome.Installed? && path in s.assets
    ensures path in server && ActiveShellFirst(s.contents[s.target], path, network).body == server[path].body
  {
    var i :| 0 <= i < |s.assets| && s.assets[i] == path;
    assert s.tasks[i].Stored?;
  }
}
