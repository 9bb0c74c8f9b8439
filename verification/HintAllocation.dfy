/** Which code each Action Hint target gets, and when an allocation fails. */
module HintAllocation {
  import opened Lists
  import opened HintWords
  import opened HintCodes

  const TASK_HINT_ALPHABET: string := "ASDFGHJKLQWERTYUIOPZXCVBNM"
  const RESERVED_AUTOMATIC_PREFIXES: seq<string> := ["N", "M", "P", "T"]

  datatype ControlKind =
    | Button | Textbox | Radio | Switch | Select | Range | Separator | ReorderHandle | Disclosure | Link
    | OtherKind(name: string)

  /** The actions of the policy table; `OtherAction` is any id the table does not have. */
  datatype Action =
    | TaskOpen | TaskOpenRecovery | TaskSwitch | TaskCreate | ModelChoose | PromptFocus
    | DialogTextboxFocus | TerminalFocus | ControlRadioSelect | ControlSwitchToggle | ControlSelectOpen
    | ControlRangeFocus | ControlSeparatorFocus | ControlTextboxFocus | ReorderHandleFocus
    | DisclosureToggle | LinkOpen
    | WorkspaceSelect | Parent | SettingsSection | SectionOpen | DetailView | ReviewAxis | FileOpen | NoteOpen
    | CommitOpen | GithubMode | IssueOpen | PullOpen | PullFiles | GithubTaskStart | Page | DialogButton
    | ButtonActivate | CurrentPlanDocumentOpen | CurrentPlanStatusOpen | ModelSelect | ModelProviderBrowse
    | ReasoningSelect | SpeedSelect | PermissionOpen | PermissionSelect | ReorderOpen | ReorderSelect
    | ReorderFinish | TaskSwitcherOpen | GitOpen | GitDestination | GithubOpen | GithubDestination
    | TerminalOpen | TaskDetailsOpen | TaskFork | TaskArchive | FileDetailsOpen | NoteDetailsOpen
    | OtherAction(id: string)

  datatype Policy =
    | Fixed(controlKind: ControlKind, code: string)
    | Prefixed(controlKind: ControlKind, prefix: string)
    | Automatic(controlKind: ControlKind)
    | NoPolicy

  function PolicyFor(action: Action): Policy {
    match action
    case TaskOpen => Prefixed(Button, "T")
    case TaskOpenRecovery => Prefixed(Button, "T")
    case TaskCreate => Fixed(Button, "N")
    case ModelChoose => Fixed(Button, "M")
    case PromptFocus => Fixed(Textbox, "P")
    case DialogTextboxFocus => Automatic(Textbox)
    case TerminalFocus => Automatic(Textbox)
    case ControlRadioSelect => Automatic(Radio)
    case ControlSwitchToggle => Automatic(Switch)
    case ControlSelectOpen => Automatic(Select)
    case ControlRangeFocus => Automatic(Range)
    case ControlSeparatorFocus => Automatic(Separator)
    case ControlTextboxFocus => Automatic(Textbox)
    case ReorderHandleFocus => Automatic(ReorderHandle)
    case DisclosureToggle => Automatic(Disclosure)
    case LinkOpen => Automatic(Link)
    case OtherAction(_) => NoPolicy
    case _ => Automatic(Button)
  }

  /** The policies a scope can resolve to: fixed keys N, M and P, one prefix T, and the automatic pool. */
  predicate GoodPolicy(policy: Policy) {
    match policy
    case Fixed(_, code) => code in ["N", "M", "P"]
    case Prefixed(_, prefix) => prefix == "T"
    case Automatic(_) => true
    case NoPolicy => false
  }

  predicate GoodPolicies(policies: seq<Policy>) {
    forall i :: 0 <= i < |policies| ==> GoodPolicy(policies[i])
  }

  datatype HintTarget = HintTarget(id: string, action: Action, controlKind: ControlKind)

  predicate Supported(target: HintTarget) {
    var policy := PolicyFor(target.action);
    !policy.NoPolicy? && policy.controlKind == target.controlKind
  }

  predicate AllSupported(targets: seq<HintTarget>) {
    forall i :: 0 <= i < |targets| ==> Supported(targets[i])
  }

  function Policies(targets: seq<HintTarget>): seq<Policy> {
    seq(|targets|, i requires 0 <= i < |targets| => PolicyFor(targets[i].action))
  }

  lemma SupportedPolicies(targets: seq<HintTarget>)
    requires AllSupported(targets)
    ensures GoodPolicies(Policies(targets))
  {
    forall i | 0 <= i < |targets| ensures GoodPolicy(Policies(targets)[i]) {
      assert Supported(targets[i]);
    }
  }

  datatype Allocation =
    | Allocated(codes: seq<string>)
    | UnsupportedAction(target: HintTarget)
    | BadTargetId(id: string)
    | CodesNotUnique
    | CodesNotPrefixFree

  // ----- counting targets of one policy

  function TaskCount(policies: seq<Policy>): nat {
    if policies == [] then 0
    else TaskCount(policies[..|policies| - 1]) + if policies[|policies| - 1].Prefixed? then 1 else 0
  }

  function AutomaticCount(policies: seq<Policy>): nat {
    if policies == [] then 0
    else AutomaticCount(policies[..|policies| - 1]) + if policies[|policies| - 1].Automatic? then 1 else 0
  }

  lemma {:induction false} CountsGrow(policies: seq<Policy>, i: nat, j: nat)
    requires i <= j <= |policies|
    ensures TaskCount(policies[..i]) <= TaskCount(policies[..j])
    ensures AutomaticCount(policies[..i]) <= AutomaticCount(policies[..j])
    decreases j - i
  {
    if i < j {
      assert policies[..j][..j - 1] == policies[..j - 1];
      CountsGrow(policies, i, j - 1);
    }
  }

  /** A counted target's own index in its class is below every later one's, and below the class size. */
  lemma CountedBefore(policies: seq<Policy>, i: nat, j: nat)
    requires i < j <= |policies|
    ensures policies[i].Prefixed? ==> TaskCount(policies[..i]) < TaskCount(policies[..j]) <= TaskCount(policies)
    ensures policies[i].Automatic? ==>
              AutomaticCount(policies[..i]) < AutomaticCount(policies[..j]) <= AutomaticCount(policies)
  {
    assert policies[..i + 1][..i] == policies[..i];
    assert policies[..|policies|] == policies;
    CountsGrow(policies, i + 1, j);
    CountsGrow(policies, j, |policies|);
  }

  // ----- alphabets and pools

  function Without(letters: string, banned: seq<string>): (rest: string)
    ensures forall c :: c in rest <==> c in letters && [c] !in banned
  {
    if letters == "" then ""
    else if [letters[0]] in banned then Without(letters[1..], banned)
    else [letters[0]] + Without(letters[1..], banned)
  }

  lemma {:induction false} WithoutDistinct(letters: string, banned: seq<string>)
    requires Distinct(letters)
    ensures Distinct(Without(letters, banned))
  {
    if letters != "" {
      WithoutDistinct(letters[1..], banned);
    }
  }

  function AutomaticRoot(reserved: seq<string>): (root: string)
    ensures forall c :: c in root ==> [c] !in RESERVED_AUTOMATIC_PREFIXES && [c] !in reserved
    ensures forall c :: c in root ==> c != 'N' && c != 'M' && c != 'P' && c != 'T'
  {
    assert RESERVED_AUTOMATIC_PREFIXES[0] == "N" && RESERVED_AUTOMATIC_PREFIXES[1] == "M";
    assert RESERVED_AUTOMATIC_PREFIXES[2] == "P" && RESERVED_AUTOMATIC_PREFIXES[3] == "T";
    Without(Without(TASK_HINT_ALPHABET, RESERVED_AUTOMATIC_PREFIXES), reserved)
  }

  lemma AlphabetDistinct()
    ensures |TASK_HINT_ALPHABET| == 26 && Distinct(TASK_HINT_ALPHABET)
  {
  }

  lemma WithoutTwiceDistinct(letters: string, banned: seq<string>, reserved: seq<string>)
    requires Distinct(letters)
    ensures Distinct(Without(Without(letters, banned), reserved))
  {
    WithoutDistinct(letters, banned);
    WithoutDistinct(Without(letters, banned), reserved);
  }

  lemma AlphabetsDistinct(reserved: seq<string>)
    ensures |TASK_HINT_ALPHABET| == 26 && Distinct(TASK_HINT_ALPHABET)
    ensures Distinct(AutomaticRoot(reserved))
  {
    AlphabetDistinct();
    WithoutTwiceDistinct(TASK_HINT_ALPHABET, RESERVED_AUTOMATIC_PREFIXES, reserved);
  }

  /** The generated codes of one scope: one for each prefixed target and one for each automatic target. */
  datatype Pools = Pools(task: seq<string>, automatic: seq<string>)

  predicate Enough(policies: seq<Policy>, pools: Pools) {
    |pools.task| == TaskCount(policies) && |pools.automatic| == AutomaticCount(policies)
  }

  /** Two prefix-free pools; no automatic code starts with N, M, P, T or a reserved key. */
  ghost predicate GoodPools(policies: seq<Policy>, pools: Pools, root: string) {
    && Enough(policies, pools)
    && PrefixFree(pools.task) && PrefixFree(pools.automatic)
    && (forall i :: 0 <= i < |pools.automatic| ==> pools.automatic[i] != "" && pools.automatic[i][0] in root)
    && 'N' !in root && 'M' !in root && 'P' !in root && 'T' !in root
  }

  // ----- the codes

  /** The code of target `i`: its own fixed key, or the next one its pool has left. */
  function CodeAt(policies: seq<Policy>, i: nat, pools: Pools): string
    requires i < |policies| && GoodPolicies(policies) && Enough(policies, pools)
  {
    CountedBefore(policies, i, |policies|);
    assert policies[..|policies|] == policies;
    assert GoodPolicy(policies[i]);
    match policies[i]
    case Fixed(_, code) => code
    case Prefixed(_, prefix) => prefix + pools.task[TaskCount(policies[..i])]
    case Automatic(_) => pools.automatic[AutomaticCount(policies[..i])]
  }

  function Assigned(policies: seq<Policy>, pools: Pools): seq<string>
    requires GoodPolicies(policies) && Enough(policies, pools)
  {
    seq(|policies|, i requires 0 <= i < |policies| => CodeAt(policies, i, pools))
  }

  ghost predicate SameFixedCode(a: Policy, b: Policy) {
    a.Fixed? && b.Fixed? && a.code == b.code
  }

  ghost predicate FixedCodeTwice(policies: seq<Policy>) {
    exists i, j :: 0 <= i < j < |policies| && SameFixedCode(policies[i], policies[j])
  }

  /** The first letter of a code tells its target's policy apart from the others. */
  lemma FirstLetter(policies: seq<Policy>, pools: Pools, root: string, i: nat)
    requires i < |policies| && GoodPolicies(policies) && GoodPools(policies, pools, root)
    ensures var code := CodeAt(policies, i, pools);
            && code != ""
            && (policies[i].Fixed? ==> |code| == 1 && code[0] in "NMP")
            && (policies[i].Prefixed? ==> code[0] == 'T')
            && (policies[i].Automatic? ==> code[0] in root)
  {
    CountedBefore(policies, i, |policies|);
    assert policies[..|policies|] == policies;
    assert GoodPolicy(policies[i]);
  }

  lemma CountsDiffer(policies: seq<Policy>, i: nat, j: nat)
    requires i < |policies| && j < |policies| && i != j
    ensures policies[i].Prefixed? && policies[j].Prefixed? ==> TaskCount(policies[..i]) != TaskCount(policies[..j])
    ensures policies[i].Automatic? && policies[j].Automatic? ==>
              AutomaticCount(policies[..i]) != AutomaticCount(policies[..j])
  {
    CountedBefore(policies, if i < j then i else j, if i < j then j else i);
  }

  lemma SamePoolApart(policies: seq<Policy>, pools: Pools, root: string, i: nat, j: nat)
    requires i < |policies| && j < |policies| && i != j
    requires GoodPolicies(policies) && GoodPools(policies, pools, root)
    requires (policies[i].Prefixed? && policies[j].Prefixed?) || (policies[i].Automatic? && policies[j].Automatic?)
    ensures !(CodeAt(policies, i, pools) <= CodeAt(policies, j, pools))
  {
    CountsDiffer(policies, i, j);
    CountedBefore(policies, i, |policies|);
    CountedBefore(policies, j, |policies|);
    assert policies[..|policies|] == policies;
    assert GoodPolicy(policies[i]) && GoodPolicy(policies[j]);
    if policies[i].Prefixed? {
      SamePrefix("T", pools.task[TaskCount(policies[..i])], pools.task[TaskCount(policies[..j])]);
    }
  }

  lemma SamePrefix(prefix: string, a: string, b: string)
    ensures prefix + a <= prefix + b <==> a <= b
  {
    assert (prefix + a)[|prefix|..] == a && (prefix + b)[|prefix|..] == b;
    assert prefix + a <= prefix + b ==> (prefix + b)[|prefix|..][..|a|] == (prefix + b)[..|prefix| + |a|][|prefix|..];
  }

  lemma CodesApart(policies: seq<Policy>, pools: Pools, root: string, i: nat, j: nat)
    requires i < |policies| && j < |policies| && i != j
    requires GoodPolicies(policies) && GoodPools(policies, pools, root)
    requires !SameFixedCode(policies[i], policies[j])
    ensures !(CodeAt(policies, i, pools) <= CodeAt(policies, j, pools))
  {
    FirstLetter(policies, pools, root, i);
    FirstLetter(policies, pools, root, j);
    var mine, theirs := CodeAt(policies, i, pools), CodeAt(policies, j, pools);
    if (policies[i].Prefixed? && policies[j].Prefixed?) || (policies[i].Automatic? && policies[j].Automatic?) {
      SamePoolApart(policies, pools, root, i, j);
    } else {
      assert GoodPolicy(policies[i]) && GoodPolicy(policies[j]);
      if mine <= theirs {
        FirstOfPrefix(mine, theirs);
      }
    }
  }

  lemma FirstOfPrefix(a: string, b: string)
    requires a != "" && a <= b
    ensures b != "" && a[0] == b[0] && (|b| == 1 ==> a == b)
  {
  }

  /** The codes of a whole scope collide exactly when one fixed key is asked for twice. */
  lemma CodesPrefixFreeIff(policies: seq<Policy>, pools: Pools, root: string)
    requires GoodPolicies(policies) && GoodPools(policies, pools, root)
    ensures PrefixFree(Assigned(policies, pools)) <==> !FixedCodeTwice(policies)
    ensures Distinct(Assigned(policies, pools)) <==> !FixedCodeTwice(policies)
  {
    var codes := Assigned(policies, pools);
    if FixedCodeTwice(policies) {
      var i, j :| 0 <= i < j < |policies| && SameFixedCode(policies[i], policies[j]);
      assert codes[i] == codes[j] && codes[i] <= codes[j];
    } else {
      forall i, j | 0 <= i < |codes| && 0 <= j < |codes| && i != j ensures !(codes[i] <= codes[j]) {
        assert !SameFixedCode(policies[if i < j then i else j], policies[if i < j then j else i]);
        CodesApart(policies, pools, root, i, j);
      }
      PrefixFreeDistinct(codes);
    }
  }

  lemma PrefixFreeDistinct(codes: seq<string>)
    requires PrefixFree(codes)
    ensures Distinct(codes)
  {
    assert forall i, j :: 0 <= i < j < |codes| ==> !(codes[i] <= codes[j]);
  }

  // ----- the allocation

  ghost predicate GoodIds(targets: seq<HintTarget>) {
    && (forall i :: 0 <= i < |targets| ==> targets[i].id != "")
    && (forall i, j :: 0 <= i < j < |targets| ==> targets[i].id != targets[j].id)
  }

  ghost predicate IdAt(targets: seq<HintTarget>, i: nat, id: string) {
    i < |targets| && targets[i].id == id
  }

  /** An id that is empty or belongs to two targets. */
  ghost predicate OffendingId(targets: seq<HintTarget>, id: string) {
    exists i: nat, j: nat :: i <= j && (id == "" || i < j) && IdAt(targets, i, id) && IdAt(targets, j, id)
  }

  /** assertPrefixFreeCodes: duplicates are reported before proper prefixes. */
  method CheckCodes(codes: seq<string>) returns (unique: bool, prefixFree: bool)
    ensures unique <==> Distinct(codes)
    ensures unique ==> (prefixFree <==> PrefixFree(codes))
  {
    var seen: set<string> := {};
    var i := 0;
    while i < |codes|
      invariant 0 <= i <= |codes|
      invariant seen == set k | 0 <= k < i :: codes[k]
      invariant Distinct(codes[..i])
    {
      if codes[i] in seen {
        return false, false;
      }
      seen := seen + {codes[i]};
      i := i + 1;
    }
    assert codes[..|codes|] == codes;
    i := 0;
    while i < |codes|
      invariant 0 <= i <= |codes|
      invariant forall a, b :: 0 <= a < i && 0 <= b < |codes| && codes[a] != codes[b] ==> !(codes[a] <= codes[b])
    {
      var j := 0;
      while j < |codes|
        invariant 0 <= j <= |codes|
        invariant forall b :: 0 <= b < j && codes[i] != codes[b] ==> !(codes[i] <= codes[b])
      {
        if codes[i] != codes[j] && codes[i] <= codes[j] {
          return true, false;
        }
        j := j + 1;
      }
      i := i + 1;
    }
    return true, true;
  }

  method CheckTargetIds(targets: seq<HintTarget>) returns (good: bool, badId: string)
    ensures good <==> GoodIds(targets)
    ensures !good ==> OffendingId(targets, badId)
  {
    var ids: set<string> := {};
    var i := 0;
    while i < |targets|
      invariant 0 <= i <= |targets|
      invariant ids == set k | 0 <= k < i :: targets[k].id
      invariant GoodIds(targets[..i])
    {
      var id := targets[i].id;
      if id == "" || id in ids {
        ghost var first := if id == "" then i else var k :| 0 <= k < i && targets[k].id == id; k;
        assert IdAt(targets, first, id) && IdAt(targets, i, id);
        return false, id;
      }
      ids := ids + {id};
      i := i + 1;
    }
    assert targets[..|targets|] == targets;
    return true, "";
  }

  predicate RootsRemain(targets: seq<HintTarget>, reserved: seq<string>) {
    AutomaticCount(Policies(targets)) > 0 ==> AutomaticRoot(reserved) != ""
  }

  /** The two pools of a scope, each as large as the targets that draw from it. */
  function ScopePools(targets: seq<HintTarget>, reserved: seq<string>): Pools
    requires RootsRemain(targets, reserved)
  {
    AlphabetsDistinct(reserved);
    Pools(CompactCodes(TaskCount(Policies(targets)), TASK_HINT_ALPHABET, TASK_HINT_ALPHABET),
          CompactCodes(AutomaticCount(Policies(targets)), AutomaticRoot(reserved), TASK_HINT_ALPHABET))
  }

  lemma ScopePoolsGood(targets: seq<HintTarget>, reserved: seq<string>)
    requires RootsRemain(targets, reserved)
    ensures GoodPools(Policies(targets), ScopePools(targets, reserved), AutomaticRoot(reserved))
  {
    AlphabetsDistinct(reserved);
    PoolOfSize(TaskCount(Policies(targets)), TASK_HINT_ALPHABET, TASK_HINT_ALPHABET);
    PoolOfSize(AutomaticCount(Policies(targets)), AutomaticRoot(reserved), TASK_HINT_ALPHABET);
  }

  lemma PoolOfSize(count: nat, root: string, alphabet: string)
    requires |alphabet| >= 2 && Distinct(root) && Distinct(alphabet) && (count > 0 ==> root != "")
    ensures var codes := CompactCodes(count, root, alphabet);
            && |codes| == count && PrefixFree(codes)
            && forall i :: 0 <= i < |codes| ==> codes[i] != "" && codes[i][0] in root
  {
    if count > 0 {
      CompactShape(count, root, alphabet);
      var codes := CompactCodes(count, root, alphabet);
      assert forall i :: 0 <= i < |codes| ==> codes[i] in codes;
    }
  }

  ghost function ScopeCodes(targets: seq<HintTarget>, reserved: seq<string>): seq<string>
    requires RootsRemain(targets, reserved) && AllSupported(targets)
  {
    SupportedPolicies(targets);
    ScopePoolsGood(targets, reserved);
    Assigned(Policies(targets), ScopePools(targets, reserved))
  }

  /** What an allocation must return. */
  ghost predicate AllocatesAs(targets: seq<HintTarget>, reserved: seq<string>, r: Allocation)
    requires AllSupported(targets) ==> RootsRemain(targets, reserved)
  {
    match r
    case UnsupportedAction(t) =>
      exists i :: 0 <= i < |targets| && targets[i] == t && !Supported(t) && AllSupported(targets[..i])
    case BadTargetId(id) => AllSupported(targets) && !GoodIds(targets) && OffendingId(targets, id)
    case CodesNotUnique => AllSupported(targets) && GoodIds(targets) && FixedCodeTwice(Policies(targets))
    case CodesNotPrefixFree => false
    case Allocated(codes) =>
      && AllSupported(targets) && GoodIds(targets) && !FixedCodeTwice(Policies(targets))
      && codes == ScopeCodes(targets, reserved)
  }

  method FirstUnsupported(targets: seq<HintTarget>) returns (i: nat)
    ensures i <= |targets|
    ensures i < |targets| ==> !Supported(targets[i])
    ensures AllSupported(targets[..i])
  {
    i := 0;
    while i < |targets| && Supported(targets[i])
      invariant 0 <= i <= |targets|
      invariant forall k :: 0 <= k < i ==> Supported(targets[k])
    {
      i := i + 1;
    }
  }

  method AllocateActionHintCodes(targets: seq<HintTarget>, reserved: seq<string>) returns (r: Allocation)
    requires AllSupported(targets) ==> RootsRemain(targets, reserved)
    ensures AllocatesAs(targets, reserved, r)
  {
    var unsupported := FirstUnsupported(targets);
    if unsupported < |targets| {
      return UnsupportedAction(targets[unsupported]);
    }
    var goodIds, badId := CheckTargetIds(targets);
    if !goodIds {
      return BadTargetId(badId);
    }
    var policies := Policies(targets);
    SupportedPolicies(targets);
    ScopePoolsGood(targets, reserved);
    AlphabetsDistinct(reserved);
    var taskCodes := CompactHintCodes(TaskCount(policies), TASK_HINT_ALPHABET, TASK_HINT_ALPHABET);
    var automaticCodes := CompactHintCodes(AutomaticCount(policies), AutomaticRoot(reserved), TASK_HINT_ALPHABET);
    var codes := AssignCodes(policies, Pools(taskCodes, automaticCodes));
    var unique, prefixFree := CheckCodes(codes);
    CodesPrefixFreeIff(policies, ScopePools(targets, reserved), AutomaticRoot(reserved));
    if !unique {
      return CodesNotUnique;
    }
    if !prefixFree {
      return CodesNotPrefixFree;
    }
    return Allocated(codes);
  }

  lemma CountsStep(policies: seq<Policy>, i: nat)
    requires i < |policies|
    ensures TaskCount(policies[..i + 1]) == TaskCount(policies[..i]) + if policies[i].Prefixed? then 1 else 0
    ensures AutomaticCount(policies[..i + 1]) == AutomaticCount(policies[..i]) + if policies[i].Automatic? then 1 else 0
    ensures policies[i].Prefixed? ==> TaskCount(policies[..i]) < TaskCount(policies)
    ensures policies[i].Automatic? ==> AutomaticCount(policies[..i]) < AutomaticCount(policies)
  {
    CountedBefore(policies, i, |policies|);
    assert policies[..|policies|] == policies;
    assert policies[..i + 1][..i] == policies[..i];
  }

  lemma AssignedStep(policies: seq<Policy>, pools: Pools, i: nat)
    requires GoodPolicies(policies) && Enough(policies, pools) && i < |policies|
    ensures GoodPolicy(policies[i])
    ensures Assigned(policies, pools)[..i + 1] == Assigned(policies, pools)[..i] + [CodeAt(policies, i, pools)]
  {
  }

  /** The pass that hands the pools out in target order, with one running index for each pool. */
  method AssignCodes(policies: seq<Policy>, pools: Pools) returns (codes: seq<string>)
    requires GoodPolicies(policies) && Enough(policies, pools)
    ensures codes == Assigned(policies, pools)
  {
    codes := [];
    var taskIndex, automaticIndex, i := 0, 0, 0;
    while i < |policies|
      invariant 0 <= i <= |policies|
      invariant taskIndex == TaskCount(policies[..i]) && automaticIndex == AutomaticCount(policies[..i])
      invariant codes == Assigned(policies, pools)[..i]
    {
      CountsStep(policies, i);
      AssignedStep(policies, pools, i);
      match policies[i] {
        case Fixed(_, code) =>
          codes := codes + [code];
        case Prefixed(_, prefix) =>
          codes := codes + [prefix + pools.task[taskIndex]];
          taskIndex := taskIndex + 1;
        case Automatic(_) =>
          codes := codes + [pools.automatic[automaticIndex]];
          automaticIndex := automaticIndex + 1;
      }
      i := i + 1;
    }
  }

  // ----- the whole scope

  /** An allocation succeeds exactly when every target is supported and neither an id nor a fixed key repeats. */
  lemma AllocationOutcome(targets: seq<HintTarget>, reserved: seq<string>, r: Allocation)
    requires AllSupported(targets) ==> RootsRemain(targets, reserved)
    requires AllocatesAs(targets, reserved, r)
    ensures r.Allocated? <==> AllSupported(targets) && GoodIds(targets) && !FixedCodeTwice(Policies(targets))
    ensures r.UnsupportedAction? <==> !AllSupported(targets)
    ensures r.Allocated? ==> |r.codes| == |targets| && PrefixFree(r.codes) && "" !in r.codes
  {
    if r.Allocated? {
      SupportedPolicies(targets);
      ScopePoolsGood(targets, reserved);
      var policies, pools := Policies(targets), ScopePools(targets, reserved);
      CodesPrefixFreeIff(policies, pools, AutomaticRoot(reserved));
      forall i | 0 <= i < |targets| ensures r.codes[i] != "" {
        FirstLetter(policies, pools, AutomaticRoot(reserved), i);
      }
    }
  }

  /** A reserved key other than N, M, P and T begins no code, so it is unambiguous before any letter is typed. */
  lemma ReservedKeyBeginsNoCode(targets: seq<HintTarget>, reserved: seq<string>, key: char, i: nat)
    requires RootsRemain(targets, reserved) && AllSupported(targets)
    requires [key] in reserved && key !in "NMPT"
    requires i < |targets|
    ensures !([key] <= ScopeCodes(targets, reserved)[i])
  {
    SupportedPolicies(targets);
    ScopePoolsGood(targets, reserved);
    FirstLetter(Policies(targets), ScopePools(targets, reserved), AutomaticRoot(reserved), i);
    assert GoodPolicy(Policies(targets)[i]);
  }

  ghost predicate AllOver(words: seq<string>, alphabet: string) {
    forall i :: 0 <= i < |words| ==> Over(words[i], alphabet)
  }

  lemma PoolOverAlphabet(count: nat, root: string, alphabet: string)
    requires |alphabet| >= 2 && Distinct(root) && Distinct(alphabet) && (count > 0 ==> root != "")
    requires Over(root, alphabet)
    ensures AllOver(CompactCodes(count, root, alphabet), alphabet)
  {
    if count > 0 {
      CompactShape(count, root, alphabet);
      var codes := CompactCodes(count, root, alphabet);
      forall i | 0 <= i < |codes| ensures Over(codes[i], alphabet) {
        assert codes[i] in codes && HintWord(codes[i], root, alphabet);
        assert codes[i] == [codes[i][0]] + codes[i][1..];
      }
    }
  }

  lemma CodeOverAlphabet(policies: seq<Policy>, pools: Pools, alphabet: string, i: nat)
    requires i < |policies| && GoodPolicies(policies) && Enough(policies, pools)
    requires AllOver(pools.task, alphabet) && AllOver(pools.automatic, alphabet)
    requires 'N' in alphabet && 'M' in alphabet && 'P' in alphabet && 'T' in alphabet
    ensures Over(CodeAt(policies, i, pools), alphabet)
  {
    CountedBefore(policies, i, |policies|);
    assert policies[..|policies|] == policies;
    assert GoodPolicy(policies[i]);
  }

  lemma AlphabetHas(reserved: seq<string>)
    ensures 'N' in TASK_HINT_ALPHABET && 'M' in TASK_HINT_ALPHABET
    ensures 'P' in TASK_HINT_ALPHABET && 'T' in TASK_HINT_ALPHABET
    ensures Over(AutomaticRoot(reserved), TASK_HINT_ALPHABET) && Over(TASK_HINT_ALPHABET, TASK_HINT_ALPHABET)
  {
    var a := TASK_HINT_ALPHABET;
    assert a[24] == 'N' && a[25] == 'M' && a[18] == 'P' && a[13] == 'T';
  }

  /** Every code can be typed with the letters of the hint alphabet. */
  lemma CodesOverAlphabet(targets: seq<HintTarget>, reserved: seq<string>, i: nat)
    requires RootsRemain(targets, reserved) && AllSupported(targets) && i < |targets|
    ensures Over(ScopeCodes(targets, reserved)[i], TASK_HINT_ALPHABET)
  {
    SupportedPolicies(targets);
    ScopePoolsGood(targets, reserved);
    AlphabetsDistinct(reserved);
    AlphabetHas(reserved);
    PoolOverAlphabet(TaskCount(Policies(targets)), TASK_HINT_ALPHABET, TASK_HINT_ALPHABET);
    PoolOverAlphabet(AutomaticCount(Policies(targets)), AutomaticRoot(reserved), TASK_HINT_ALPHABET);
    CodeOverAlphabet(Policies(targets), ScopePools(targets, reserved), TASK_HINT_ALPHABET, i);
  }

  // ----- which code each target gets

  predicate TaskAction(action: Action) {
    action.TaskOpen? || action.TaskOpenRecovery?
  }

  /** The actions with a key of their own. */
  function OwnKey(action: Action): string {
    match action
    case TaskCreate => "N"
    case ModelChoose => "M"
    case PromptFocus => "P"
    case _ => ""
  }

  predicate Pooled(action: Action) {
    !TaskAction(action) && OwnKey(action) == ""
  }

  lemma PolicyMeans(action: Action)
    requires !PolicyFor(action).NoPolicy?
    ensures PolicyFor(action).Prefixed? <==> TaskAction(action)
    ensures PolicyFor(action).Automatic? <==> Pooled(action)
    ensures PolicyFor(action).Fixed? ==> PolicyFor(action).code == OwnKey(action)
    ensures PolicyFor(action).Prefixed? ==> PolicyFor(action).prefix == "T"
  {
  }

  lemma NoPolicyIff(action: Action)
    ensures PolicyFor(action).NoPolicy? <==> action.OtherAction?
  {
  }

  function HowMany(targets: seq<HintTarget>, counted: Action -> bool): nat {
    if targets == [] then 0
    else HowMany(targets[..|targets| - 1], counted) + if counted(targets[|targets| - 1].action) then 1 else 0
  }

  lemma {:induction false} CountsAreTargets(targets: seq<HintTarget>)
    requires AllSupported(targets)
    ensures TaskCount(Policies(targets)) == HowMany(targets, TaskAction)
    ensures AutomaticCount(Policies(targets)) == HowMany(targets, Pooled)
  {
    if targets != [] {
      var init, last := targets[..|targets| - 1], targets[|targets| - 1];
      assert Supported(last);
      PolicyMeans(last.action);
      assert Policies(targets)[..|targets| - 1] == Policies(init);
      CountsAreTargets(init);
    }
  }

  lemma ScopePoolsMean(targets: seq<HintTarget>, reserved: seq<string>, pools: Pools)
    requires RootsRemain(targets, reserved) && AllSupported(targets) && pools == ScopePools(targets, reserved)
    ensures pools.task == CompactCodes(HowMany(targets, TaskAction), TASK_HINT_ALPHABET, TASK_HINT_ALPHABET)
    ensures HowMany(targets, Pooled) > 0 ==> AutomaticRoot(reserved) != ""
    ensures HowMany(targets, Pooled) > 0 ==>
              pools.automatic == CompactCodes(HowMany(targets, Pooled), AutomaticRoot(reserved), TASK_HINT_ALPHABET)
  {
    AlphabetDistinct();
    CountsAreTargets(targets);
  }

  /** N, M and P for their own actions. */
  lemma KeyCode(targets: seq<HintTarget>, reserved: seq<string>, i: nat)
    requires RootsRemain(targets, reserved) && AllSupported(targets) && i < |targets|
    requires OwnKey(targets[i].action) != ""
    ensures ScopeCodes(targets, reserved)[i] == OwnKey(targets[i].action)
  {
    SupportedPolicies(targets);
    ScopePoolsGood(targets, reserved);
    assert Supported(targets[i]);
    PolicyMeans(targets[i].action);
    CodeTaken(Policies(targets), ScopePools(targets, reserved), i);
  }

  lemma CountsBefore(targets: seq<HintTarget>, i: nat)
    requires AllSupported(targets) && i < |targets|
    ensures TaskCount(Policies(targets)[..i]) == HowMany(targets[..i], TaskAction)
    ensures AutomaticCount(Policies(targets)[..i]) == HowMany(targets[..i], Pooled)
  {
    CountsAreTargets(targets[..i]);
    assert Policies(targets)[..i] == Policies(targets[..i]);
  }

  /** T and the next task code for each Task, in order. */
  lemma TaskCode(targets: seq<HintTarget>, reserved: seq<string>, i: nat, tasks: seq<string>)
    requires RootsRemain(targets, reserved) && AllSupported(targets) && i < |targets|
    requires TaskAction(targets[i].action)
    requires tasks == CompactCodes(HowMany(targets, TaskAction), TASK_HINT_ALPHABET, TASK_HINT_ALPHABET)
    ensures HowMany(targets[..i], TaskAction) < |tasks|
    ensures ScopeCodes(targets, reserved)[i] == "T" + tasks[HowMany(targets[..i], TaskAction)]
  {
    var pools := ScopePools(targets, reserved);
    SupportedPolicies(targets);
    ScopePoolsGood(targets, reserved);
    ScopePoolsMean(targets, reserved, pools);
    CountsBefore(targets, i);
    assert Supported(targets[i]);
    PolicyMeans(targets[i].action);
    CodeTaken(Policies(targets), pools, i);
  }

  lemma {:induction false} SomePooled(targets: seq<HintTarget>, i: nat, counted: Action -> bool)
    requires i < |targets| && counted(targets[i].action)
    ensures HowMany(targets, counted) > 0
  {
    if i < |targets| - 1 { SomePooled(targets[..|targets| - 1], i, counted); }
  }

  /** The next code that starts with no key spoken for, for every other target, in order. */
  lemma PooledCode(targets: seq<HintTarget>, reserved: seq<string>, i: nat, root: string, others: seq<string>)
    requires RootsRemain(targets, reserved) && AllSupported(targets) && i < |targets|
    requires Pooled(targets[i].action) && root == AutomaticRoot(reserved) != ""
    requires others == CompactCodes(HowMany(targets, Pooled), root, TASK_HINT_ALPHABET)
    ensures HowMany(targets[..i], Pooled) < |others|
    ensures ScopeCodes(targets, reserved)[i] == others[HowMany(targets[..i], Pooled)]
  {
    var pools := ScopePools(targets, reserved);
    SupportedPolicies(targets);
    ScopePoolsGood(targets, reserved);
    SomePooled(targets, i, Pooled);
    ScopePoolsMean(targets, reserved, pools);
    CountsBefore(targets, i);
    assert Supported(targets[i]);
    PolicyMeans(targets[i].action);
    CodeTaken(Policies(targets), pools, i);
  }

  /** Leaving letters out keeps the others in their order. */
  lemma {:induction false} WithoutKeepsOrder(letters: string, banned: seq<string>) returns (places: seq<nat>)
    ensures |places| == |Without(letters, banned)|
    ensures forall k :: 0 <= k < |places| ==> places[k] < |letters| && Without(letters, banned)[k] == letters[places[k]]
    ensures forall k, m :: 0 <= k < m < |places| ==> places[k] < places[m]
  {
    if letters == "" {
      places := [];
    } else {
      var rest := WithoutKeepsOrder(letters[1..], banned);
      var moved := seq(|rest|, k requires 0 <= k < |rest| => rest[k] + 1);
      if [letters[0]] in banned {
        places := moved;
      } else {
        places := [0] + moved;
      }
    }
  }

  lemma TakenLetters(c: char)
    ensures [c] in RESERVED_AUTOMATIC_PREFIXES <==> c == 'N' || c == 'M' || c == 'P' || c == 'T'
  {
    var taken := RESERVED_AUTOMATIC_PREFIXES;
    assert taken == ["N", "M", "P", "T"];
    assert taken[0] == "N" && taken[1] == "M" && taken[2] == "P" && taken[3] == "T";
    assert [c] == "N" <==> c == 'N';
    assert [c] == "M" <==> c == 'M';
    assert [c] == "P" <==> c == 'P';
    assert [c] == "T" <==> c == 'T';
  }

  /** The first letters of the pool: the hint letters that no fixed key, prefix or reserved key takes. */
  lemma AutomaticRootMeans(reserved: seq<string>, c: char)
    ensures c in AutomaticRoot(reserved) <==>
              c in TASK_HINT_ALPHABET && c != 'N' && c != 'M' && c != 'P' && c != 'T' && [c] !in reserved
  {
    TakenLetters(c);
  }

  lemma CodeTaken(policies: seq<Policy>, pools: Pools, i: nat)
    requires GoodPolicies(policies) && Enough(policies, pools) && i < |policies|
    ensures TaskCount(policies[..i]) <= |pools.task| && AutomaticCount(policies[..i]) <= |pools.automatic|
    ensures policies[i].Fixed? ==> Assigned(policies, pools)[i] == policies[i].code
    ensures policies[i].Prefixed? ==>
              && TaskCount(policies[..i]) < |pools.task|
              && Assigned(policies, pools)[i] == policies[i].prefix + pools.task[TaskCount(policies[..i])]
    ensures policies[i].Automatic? ==>
              && AutomaticCount(policies[..i]) < |pools.automatic|
              && Assigned(policies, pools)[i] == pools.automatic[AutomaticCount(policies[..i])]
  {
    CountedBefore(policies, i, |policies|);
    CountsGrow(policies, i, |policies|);
    assert policies[..|policies|] == policies;
    assert GoodPolicy(policies[i]);
  }
}
