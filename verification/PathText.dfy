/** Text under the routes: path segments, their normal forms, and decimal numbers. */
module PathText {
  import opened Wrappers

  // ----- segments

  function Split(text: string): (segments: seq<string>)
    ensures segments != []
    ensures forall s :: s in segments ==> '/' !in s
  {
    if text == "" then [""]
    else
      var rest := Split(text[1..]);
      if text[0] == '/' then [""] + rest
      else
        assert '/' !in rest[0] by { assert rest[0] in rest; }
        [[text[0]] + rest[0]] + rest[1..]
  }

  function Join(segments: seq<string>): string {
    if segments == [] then ""
    else if |segments| == 1 then segments[0]
    else segments[0] + "/" + Join(segments[1..])
  }

  lemma {:induction false} SplitSegment(segment: string)
    requires '/' !in segment
    ensures Split(segment) == [segment]
  {
    if segment != "" {
      SplitSegment(segment[1..]);
      assert segment == [segment[0]] + segment[1..];
    }
  }

  lemma {:induction false} SplitFirst(segment: string, rest: string)
    requires '/' !in segment
    ensures Split(segment + "/" + rest) == [segment] + Split(rest)
  {
    var text := segment + "/" + rest;
    if segment == "" {
      assert text[1..] == rest;
    } else {
      SplitFirst(segment[1..], rest);
      assert text[1..] == segment[1..] + "/" + rest;
      assert segment == [segment[0]] + segment[1..];
    }
  }

  lemma {:induction false} SplitJoin(segments: seq<string>)
    requires segments != [] && forall s :: s in segments ==> '/' !in s
    ensures Split(Join(segments)) == segments
  {
    if |segments| == 1 {
      SplitSegment(segments[0]);
    } else {
      SplitJoin(segments[1..]);
      SplitFirst(segments[0], Join(segments[1..]));
      assert segments == [segments[0]] + segments[1..];
    }
  }

  function NonEmpty(segments: seq<string>): (kept: seq<string>)
    ensures forall s :: s in kept <==> s in segments && s != ""
  {
    if segments == [] then []
    else if segments[0] != "" then [segments[0]] + NonEmpty(segments[1..])
    else NonEmpty(segments[1..])
  }

  lemma {:induction false} NonEmptyKeeps(segments: seq<string>)
    requires forall i :: 0 <= i < |segments| ==> segments[i] != ""
    ensures NonEmpty(segments) == segments
  {
    if segments != [] { NonEmptyKeeps(segments[1..]); }
  }

  predicate Named(segment: string) {
    segment != "" && segment != "." && segment != ".."
  }

  function NamedOnly(segments: seq<string>): (names: seq<string>)
    ensures forall s :: s in names <==> s in segments && Named(s)
  {
    if segments == [] then []
    else if Named(segments[0]) then [segments[0]] + NamedOnly(segments[1..])
    else NamedOnly(segments[1..])
  }

  lemma {:induction false} NamedOnlyKeeps(segments: seq<string>)
    requires forall s :: s in segments ==> Named(s)
    ensures NamedOnly(segments) == segments
  {
    if segments != [] {
      assert segments[0] in segments;
      NamedOnlyKeeps(segments[1..]);
    }
  }

  function CleanPath(path: string): string {
    Join(NamedOnly(Split(path)))
  }

  function SafeRelativePath(path: string): string {
    if path == "" || ".." in Split(path) then "" else CleanPath(path)
  }

  lemma SplitOfJoined(segments: seq<string>)
    requires forall s :: s in segments ==> '/' !in s
    ensures Split(Join(segments)) == if segments == [] then [""] else segments
  {
    if segments != [] { SplitJoin(segments); }
  }

  lemma CleanPathIdempotent(path: string)
    ensures CleanPath(CleanPath(path)) == CleanPath(path)
    ensures ".." !in Split(CleanPath(path))
  {
    var names := NamedOnly(Split(path));
    SplitOfJoined(names);
    if names == [] {
      assert NamedOnly([""]) == [];
    } else {
      NamedOnlyKeeps(names);
    }
  }

  lemma SafeRelativePathIdempotent(path: string)
    ensures SafeRelativePath(SafeRelativePath(path)) == SafeRelativePath(path)
  {
    CleanPathIdempotent(path);
    assert SafeRelativePath("") == "";
  }

  // ----- the review file path

  function Forward(path: string): (forward: string)
    ensures |forward| == |path|
    ensures forall i :: 0 <= i < |path| ==> forward[i] == if path[i] == '\\' then '/' else path[i]
  {
    seq(|path|, i requires 0 <= i < |path| => if path[i] == '\\' then '/' else path[i])
  }

  /** One segment onto the stack: nothing for an empty or dot segment, a step back for a dot-dot. */
  function Push(stack: seq<string>, segment: string): seq<string> {
    if segment == "" || segment == "." then stack
    else if segment == ".." && stack != [] && stack[|stack| - 1] != ".." then stack[..|stack| - 1]
    else stack + [segment]
  }

  function PushAll(stack: seq<string>, segments: seq<string>): seq<string>
    decreases |segments|
  {
    if segments == [] then stack else PushAll(Push(stack, segments[0]), segments[1..])
  }

  function ReviewFilePath(path: string): string {
    if path == "" then "" else Join(PushAll([], Split(Forward(path))))
  }

  method ReviewFilePathLoop(path: string) returns (clean: string)
    ensures clean == ReviewFilePath(path)
  {
    var segments: seq<string> := [];
    var input := Split(Forward(path));
    var i := 0;
    while i < |input|
      invariant 0 <= i <= |input|
      invariant PushAll([], input) == PushAll(segments, input[i..])
    {
      var segment := input[i];
      assert input[i..][0] == segment && input[i..][1..] == input[i + 1..];
      i := i + 1;
      if segment == "" || segment == "." {
        continue;
      }
      if segment == ".." {
        if segments != [] && segments[|segments| - 1] != ".." {
          segments := segments[..|segments| - 1];
        } else {
          segments := segments + [segment];
        }
        continue;
      }
      segments := segments + [segment];
    }
    return Join(segments);
  }

  /** Some dot-dot segments, then plain names. */
  ghost predicate NormalForm(segments: seq<string>) {
    exists ups: nat :: UpsThenNames(segments, ups)
  }

  ghost predicate UpsThenNames(segments: seq<string>, ups: nat) {
    && ups <= |segments|
    && (forall i :: 0 <= i < ups ==> segments[i] == "..")
    && (forall i :: ups <= i < |segments| ==> Named(segments[i]))
  }

  lemma PushKeepsNormalForm(stack: seq<string>, segment: string)
    requires NormalForm(stack)
    ensures NormalForm(Push(stack, segment))
  {
    var ups: nat :| UpsThenNames(stack, ups);
    var next := Push(stack, segment);
    if segment == ".." && (stack == [] || stack[|stack| - 1] == "..") {
      assert ups == |stack|;
      assert UpsThenNames(next, ups + 1);
    } else {
      assert UpsThenNames(next, ups);
    }
  }

  lemma {:induction false} PushAllNormalForm(stack: seq<string>, segments: seq<string>)
    requires NormalForm(stack)
    requires forall s :: s in stack || s in segments ==> '/' !in s && '\\' !in s
    ensures NormalForm(PushAll(stack, segments))
    ensures forall s :: s in PushAll(stack, segments) ==> '/' !in s && '\\' !in s
    decreases |segments|
  {
    if segments != [] {
      PushKeepsNormalForm(stack, segments[0]);
      assert segments[0] in segments;
      PushAllNormalForm(Push(stack, segments[0]), segments[1..]);
    }
  }

  /** Walking from a directory: a name descends, dot-dot climbs, and the root is its own parent. */
  function Walk(directory: seq<string>, segments: seq<string>): seq<string>
    decreases |segments|
  {
    if segments == [] then directory else Walk(Move(directory, segments[0]), segments[1..])
  }

  function Move(directory: seq<string>, segment: string): seq<string> {
    if segment == "" || segment == "." then directory
    else if segment == ".." then (if directory == [] then [] else directory[..|directory| - 1])
    else directory + [segment]
  }

  lemma {:induction false} WalkConcat(directory: seq<string>, first: seq<string>, second: seq<string>)
    ensures Walk(directory, first + second) == Walk(Walk(directory, first), second)
    decreases |first|
  {
    if first == [] {
      assert first + second == second;
    } else {
      assert (first + second)[1..] == first[1..] + second;
      WalkConcat(Move(directory, first[0]), first[1..], second);
    }
  }

  lemma PushWalks(directory: seq<string>, stack: seq<string>, segment: string)
    ensures Walk(directory, Push(stack, segment)) == Move(Walk(directory, stack), segment)
    requires NormalForm(stack)
  {
    WalkConcat(directory, stack, [segment]);
    assert Walk(Walk(directory, stack), [segment]) == Move(Walk(directory, stack), segment);
    if segment == ".." && stack != [] && stack[|stack| - 1] != ".." {
      var init, last := stack[..|stack| - 1], stack[|stack| - 1];
      assert stack == init + [last];
      WalkConcat(directory, init, [last]);
      assert Walk(Walk(directory, init), [last]) == Move(Walk(directory, init), last);
      var ups: nat :| UpsThenNames(stack, ups);
      assert Named(last);
    }
  }

  lemma {:induction false} PushAllWalks(directory: seq<string>, stack: seq<string>, segments: seq<string>)
    requires NormalForm(stack)
    ensures Walk(directory, PushAll(stack, segments)) == Walk(Walk(directory, stack), segments)
    decreases |segments|
  {
    if segments != [] {
      PushWalks(directory, stack, segments[0]);
      PushKeepsNormalForm(stack, segments[0]);
      PushAllWalks(directory, Push(stack, segments[0]), segments[1..]);
    }
  }

  lemma {:induction false} ForwardClean(text: string)
    requires '\\' !in text
    ensures Forward(text) == text
  {
  }

  lemma {:induction false} SplitCharacters(text: string)
    requires '\\' !in text
    ensures forall s :: s in Split(text) ==> '\\' !in s
  {
    if text != "" {
      assert text == [text[0]] + text[1..];
      SplitCharacters(text[1..]);
      assert Split(text[1..])[0] in Split(text[1..]);
    }
  }

  lemma NormalSegments(path: string)
    ensures var segments := PushAll([], Split(Forward(path)));
            && NormalForm(segments)
            && (forall s :: s in segments ==> '/' !in s && '\\' !in s)
            && Split(ReviewFilePath(path)) == (if segments == [] then [""] else segments)
            && Forward(ReviewFilePath(path)) == ReviewFilePath(path)
  {
    var input := Split(Forward(path));
    assert UpsThenNames([], 0);
    SplitCharacters(Forward(path));
    PushAllNormalForm([], input);
    var segments := PushAll([], input);
    SplitOfJoined(segments);
    JoinCharacters(segments);
    ForwardClean(Join(segments));
  }

  lemma {:induction false} JoinCharacters(segments: seq<string>)
    requires forall s :: s in segments ==> '\\' !in s
    ensures '\\' !in Join(segments)
  {
    if |segments| > 1 {
      assert segments[0] in segments;
      JoinCharacters(segments[1..]);
    } else if |segments| == 1 {
      assert segments[0] in segments;
    }
  }

  /** The normal form leads where the written path leads, from every directory. */
  lemma ReviewFilePathWalks(directory: seq<string>, path: string)
    ensures Walk(directory, Split(ReviewFilePath(path))) == Walk(directory, Split(Forward(path)))
  {
    assert UpsThenNames([], 0);
    NormalSegments(path);
    PushAllWalks(directory, [], Split(Forward(path)));
    assert Walk(directory, [""]) == Walk(directory, []);
  }

  lemma {:induction false} PushAllOfNormal(stack: seq<string>, segments: seq<string>)
    requires NormalForm(stack + segments)
    ensures PushAll(stack, segments) == stack + segments
    decreases |segments|
  {
    if segments == [] {
      assert stack + segments == stack;
    } else {
      var ups: nat :| UpsThenNames(stack + segments, ups);
      assert (stack + segments)[|stack|] == segments[0];
      assert stack != [] ==> (stack + segments)[|stack| - 1] == stack[|stack| - 1];
      assert Push(stack, segments[0]) == stack + [segments[0]];
      assert stack + [segments[0]] + segments[1..] == stack + segments;
      PushAllOfNormal(stack + [segments[0]], segments[1..]);
    }
  }

  lemma ReviewFilePathIdempotent(path: string)
    ensures ReviewFilePath(ReviewFilePath(path)) == ReviewFilePath(path)
  {
    NormalSegments(path);
    var segments := PushAll([], Split(Forward(path)));
    assert [] + segments == segments;
    PushAllOfNormal([], segments);
    assert PushAll([], [""]) == PushAll([], []) == [];
  }

  // ----- equal normal forms are equal walks

  lemma {:induction false} WalkNames(directory: seq<string>, names: seq<string>)
    requires forall i :: 0 <= i < |names| ==> Named(names[i])
    ensures Walk(directory, names) == directory + names
    decreases |names|
  {
    if names == [] {
      assert directory + names == directory;
    } else {
      WalkNames(directory + [names[0]], names[1..]);
      assert directory + [names[0]] + names[1..] == directory + names;
    }
  }

  lemma {:induction false} WalkUps(directory: seq<string>, ups: seq<string>)
    requires |ups| <= |directory| && forall i :: 0 <= i < |ups| ==> ups[i] == ".."
    ensures Walk(directory, ups) == directory[..|directory| - |ups|]
    decreases |ups|
  {
    if ups != [] {
      WalkUps(directory[..|directory| - 1], ups[1..]);
    }
  }

  lemma WalkNormal(directory: seq<string>, segments: seq<string>, ups: nat)
    requires UpsThenNames(segments, ups) && ups <= |directory|
    ensures Walk(directory, segments) == directory[..|directory| - ups] + segments[ups..]
  {
    assert segments == segments[..ups] + segments[ups..];
    WalkConcat(directory, segments[..ups], segments[ups..]);
    WalkUps(directory, segments[..ups]);
    WalkNames(directory[..|directory| - ups], segments[ups..]);
  }

  /** A name longer than every segment of both lists. */
  function Fresh(a: seq<string>): (name: string)
    ensures Named(name) && forall s :: s in a ==> |s| < |name|
  {
    if a == [] then "xxx"
    else
      var rest := Fresh(a[1..]);
      assert a == [a[0]] + a[1..];
      if |a[0]| < |rest| then rest else a[0] + "xxx"
  }

  /** A start directory from which two different normal forms lead to different places. */
  lemma NormalFormsDiffer(a: seq<string>, upsA: nat, b: seq<string>, upsB: nat) returns (directory: seq<string>)
    requires UpsThenNames(a, upsA) && UpsThenNames(b, upsB) && upsA <= upsB && a != b
    ensures Walk(directory, a) != Walk(directory, b)
  {
    var name := Fresh(a + b);
    directory := seq(upsB, _ => name);
    WalkNormal(directory, a, upsA);
    WalkNormal(directory, b, upsB);
    if upsA < upsB {
      assert Walk(directory, a)[0] == name;
      assert Walk(directory, b) == b[upsB..];
      assert forall s :: s in b ==> s in a + b && s != name;
    } else {
      assert a == a[..upsA] + a[upsA..] && b == b[..upsB] + b[upsB..];
      assert a[..upsA] == b[..upsB];
      assert Walk(directory, a) == a[upsA..] && Walk(directory, b) == b[upsB..];
    }
  }

  /** Two paths have one normal form exactly when they lead to the same place from every directory. */
  lemma SameNormalFormIff(p: string, q: string)
    ensures ReviewFilePath(p) == ReviewFilePath(q)
            <==> forall directory :: Walk(directory, Split(Forward(p))) == Walk(directory, Split(Forward(q)))
  {
    var a, b := PushAll([], Split(Forward(p))), PushAll([], Split(Forward(q)));
    forall directory
      ensures Walk(directory, a) == Walk(directory, Split(Forward(p)))
      ensures Walk(directory, b) == Walk(directory, Split(Forward(q)))
    {
      assert UpsThenNames([], 0);
      PushAllWalks(directory, [], Split(Forward(p)));
      PushAllWalks(directory, [], Split(Forward(q)));
    }
    NormalSegments(p);
    NormalSegments(q);
    if a == b {
      assert ReviewFilePath(p) == ReviewFilePath(q);
    } else {
      var upsA: nat :| UpsThenNames(a, upsA);
      var upsB: nat :| UpsThenNames(b, upsB);
      var directory;
      if upsA <= upsB {
        directory := NormalFormsDiffer(a, upsA, b, upsB);
      } else {
        directory := NormalFormsDiffer(b, upsB, a, upsA);
      }
      assert Walk(directory, Split(Forward(p))) != Walk(directory, Split(Forward(q)));
      DifferentJoins(a, b);
    }
  }

  lemma DifferentJoins(a: seq<string>, b: seq<string>)
    requires NormalForm(a) && NormalForm(b) && a != b
    requires forall s :: s in a || s in b ==> '/' !in s
    ensures Join(a) != Join(b)
  {
    SplitOfJoined(a);
    SplitOfJoined(b);
    NormalFormNoEmpty(a);
    NormalFormNoEmpty(b);
    assert "" in [""];
  }

  lemma NormalFormNoEmpty(segments: seq<string>)
    requires NormalForm(segments)
    ensures "" !in segments
  {
    var ups: nat :| UpsThenNames(segments, ups);
    assert forall i :: 0 <= i < |segments| ==> segments[i] != "";
  }

  // ----- numbers

  const MAX_SAFE_INTEGER: nat := 9007199254740991

  predicate Digit(c: char) {
    '0' <= c <= '9'
  }

  function DigitOf(n: nat): char
    requires n < 10
  {
    ('0' as int + n) as char
  }

  function Decimal(n: nat): (text: string)
    ensures text != "" && forall i :: 0 <= i < |text| ==> Digit(text[i])
    ensures n > 0 ==> text[0] != '0'
  {
    if n < 10 then [DigitOf(n)] else Decimal(n / 10) + [DigitOf(n % 10)]
  }

  function DigitsValue(digits: string): nat
    requires forall i :: 0 <= i < |digits| ==> Digit(digits[i])
  {
    if digits == "" then 0
    else
      assert Digit(digits[|digits| - 1]);
      10 * DigitsValue(digits[..|digits| - 1]) + (digits[|digits| - 1] as int - '0' as int)
  }

  lemma {:induction false} DecimalValue(n: nat)
    ensures DigitsValue(Decimal(n)) == n
  {
    if n < 10 {
      assert [DigitOf(n)][..0] == "";
    } else {
      DecimalValue(n / 10);
      assert Decimal(n)[..|Decimal(n)| - 1] == Decimal(n / 10);
    }
  }

  /** White space as the source's language trims it. */
  predicate Space(c: char) {
    || '\t' <= c <= '\r' || c == ' ' || c == '\U{00A0}' || c == '\U{1680}'
    || '\U{2000}' <= c <= '\U{200A}' || c == '\U{2028}' || c == '\U{2029}'
    || c == '\U{202F}' || c == '\U{205F}' || c == '\U{3000}' || c == '\U{FEFF}'
  }

  function TrimStart(text: string): (trimmed: string)
    ensures trimmed != "" ==> !Space(trimmed[0])
    ensures text != "" && !Space(text[0]) ==> trimmed == text
  {
    if text != "" && Space(text[0]) then TrimStart(text[1..]) else text
  }

  function TrimEnd(text: string): (trimmed: string)
    ensures trimmed <= text
    ensures trimmed != "" ==> !Space(trimmed[|trimmed| - 1])
    ensures text != "" && !Space(text[|text| - 1]) ==> trimmed == text
  {
    if text != "" && Space(text[|text| - 1]) then TrimEnd(text[..|text| - 1]) else text
  }

  function Trim(text: string): string {
    TrimEnd(TrimStart(text))
  }

  lemma TrimIdempotent(text: string)
    ensures Trim(Trim(text)) == Trim(text)
  {
    var trimmed := Trim(text);
    assert trimmed != "" ==> trimmed[0] == TrimStart(text)[0];
    assert trimmed == "" ==> TrimStart(trimmed) == "";
  }

  function LeadingDigits(text: string): (digits: string)
    ensures forall i :: 0 <= i < |digits| ==> Digit(digits[i])
  {
    if text != "" && Digit(text[0]) then [text[0]] + LeadingDigits(text[1..]) else ""
  }

  lemma {:induction false} LeadingDigitsAll(text: string)
    requires forall i :: 0 <= i < |text| ==> Digit(text[i])
    ensures LeadingDigits(text) == text
  {
    if text != "" { LeadingDigitsAll(text[1..]); }
  }

  /** Leading decimal digits after white space and a sign; absent unless the number is positive. */
  function PositiveInteger(text: string): (number: Option<nat>)
    ensures number.Some? ==> number.value > 0
  {
    var start := TrimStart(text);
    var negative := start != "" && start[0] == '-';
    var signed := start != "" && (start[0] == '-' || start[0] == '+');
    var digits := LeadingDigits(if signed then start[1..] else start);
    if digits == "" || negative || DigitsValue(digits) == 0 then None else Some(DigitsValue(digits))
  }

  /** Digits throughout, the first not zero, and no larger than the largest safe integer. */
  function PositiveLine(text: string): (number: Option<nat>)
    ensures number.Some? ==> 0 < number.value <= MAX_SAFE_INTEGER
  {
    if text == "" || text[0] == '0' || exists i :: 0 <= i < |text| && !Digit(text[i]) then None
    else
      FirstDigitPositive(text);
      if DigitsValue(text) <= MAX_SAFE_INTEGER then Some(DigitsValue(text)) else None
  }

  lemma {:induction false} FirstDigitPositive(text: string)
    requires text != "" && text[0] != '0' && forall i :: 0 <= i < |text| ==> Digit(text[i])
    ensures DigitsValue(text) > 0
  {
    if |text| == 1 {
      assert text[..0] == "";
    } else {
      FirstDigitPositive(text[..|text| - 1]);
    }
  }

  lemma PositiveIntegerOfDecimal(n: nat)
    ensures PositiveInteger(Decimal(n)) == if n > 0 then Some(n) else None
  {
    DecimalValue(n);
    LeadingDigitsAll(Decimal(n));
    assert Digit(Decimal(n)[0]);
  }

  lemma PositiveLineOfDecimal(n: nat)
    ensures PositiveLine(Decimal(n)) == if 0 < n <= MAX_SAFE_INTEGER then Some(n) else None
  {
    DecimalValue(n);
    if n == 0 {
      assert Decimal(0) == ['0'];
    }
  }
}
