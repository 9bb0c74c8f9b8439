/** What the path, text and number readers under the routes give, told by walks and by what was written. */
module PathMeaning {
  import opened Wrappers
  import opened PathText

  // ----- clean paths

  /** The segments without the ones that climb. */
  function WithoutUps(segments: seq<string>): seq<string> {
    if segments == [] then []
    else (if segments[0] == ".." then [] else [segments[0]]) + WithoutUps(segments[1..])
  }

  lemma {:induction false} WalkNamedOnly(directory: seq<string>, segments: seq<string>)
    ensures Walk(directory, NamedOnly(segments)) == Walk(directory, WithoutUps(segments))
    decreases |segments|
  {
    if segments != [] {
      var first, rest := segments[0], segments[1..];
      WalkNamedOnly(Move(directory, first), rest);
      WalkNamedOnly(directory, rest);
      WalkFirst(directory, first, NamedOnly(rest));
      WalkFirst(directory, first, WithoutUps(rest));
      assert WithoutUps(segments) == if first == ".." then WithoutUps(rest) else [first] + WithoutUps(rest);
    }
  }

  lemma WalkFirst(directory: seq<string>, first: string, rest: seq<string>)
    ensures Walk(directory, [first] + rest) == Walk(Move(directory, first), rest)
  {
    assert ([first] + rest)[1..] == rest;
  }

  lemma {:induction false} NoUps(segments: seq<string>)
    requires ".." !in segments
    ensures WithoutUps(segments) == segments
  {
    if segments != [] {
      assert segments[0] in segments;
      NoUps(segments[1..]);
    }
  }

  lemma WalkSplitJoined(directory: seq<string>, names: seq<string>)
    requires forall s :: s in names ==> '/' !in s
    ensures Walk(directory, Split(Join(names))) == Walk(directory, names)
  {
    SplitOfJoined(names);
    if names == [] {
      assert Walk(directory, [""]) == Walk(directory, [""][1..]);
    }
  }

  /** A clean path is plain names only, and leads where the written one does when its dot-dots are left out. */
  lemma CleanPathMeans(directory: seq<string>, path: string)
    ensures Walk(directory, Split(CleanPath(path))) == Walk(directory, WithoutUps(Split(path)))
    ensures CleanPath(path) == "" || forall s :: s in Split(CleanPath(path)) ==> Named(s)
  {
    var names := NamedOnly(Split(path));
    WalkSplitJoined(directory, names);
    WalkNamedOnly(directory, Split(path));
    SplitOfJoined(names);
  }

  /** A path that climbs is refused; any other leads where it was written to. */
  lemma SafeRelativePathMeans(directory: seq<string>, path: string)
    ensures ".." in Split(path) ==> SafeRelativePath(path) == ""
    ensures ".." !in Split(path) ==> Walk(directory, Split(SafeRelativePath(path))) == Walk(directory, Split(path))
    ensures SafeRelativePath(path) == "" || forall s :: s in Split(SafeRelativePath(path)) ==> Named(s)
  {
    CleanPathMeans(directory, path);
    if ".." !in Split(path) {
      NoUps(Split(path));
      if path == "" { assert Split(path) == [""]; }
    }
  }

  /** Names that a path can be made of. */
  ghost predicate Names(names: seq<string>) {
    forall s :: s in names ==> Named(s) && '/' !in s && '\\' !in s
  }

  lemma {:induction false} PushNames(stack: seq<string>, names: seq<string>)
    requires Names(names)
    ensures PushAll(stack, names) == stack + names
    decreases |names|
  {
    if names != [] {
      assert names[0] in names;
      PushNames(stack + [names[0]], names[1..]);
      assert stack + [names[0]] + names[1..] == stack + names;
    }
  }

  lemma JoinedNotEmpty(names: seq<string>)
    requires Names(names) && names != []
    ensures Join(names) != "" && NamedOnly(Split(Join(names))) == names && ".." !in Split(Join(names))
  {
    assert names[0] in names;
    SplitOfJoined(names);
    NamedOnlyKeeps(names);
  }

  /** Plain names joined by slashes are left as they are by every reader of paths. */
  lemma NamesKept(names: seq<string>)
    requires Names(names)
    ensures CleanPath(Join(names)) == Join(names)
    ensures SafeRelativePath(Join(names)) == Join(names)
    ensures ReviewFilePath(Join(names)) == Join(names)
  {
    if names == [] {
      assert Split("") == [""] && NamedOnly([""]) == [];
    } else {
      JoinedNotEmpty(names);
      JoinCharacters(names);
      ForwardClean(Join(names));
      SplitOfJoined(names);
      PushNames([], names);
      assert [] + names == names;
    }
  }

  // ----- trimming

  ghost predicate Spaces(text: string) {
    forall i :: 0 <= i < |text| ==> Space(text[i])
  }

  lemma {:induction false} TrimStartMeans(text: string) returns (left: string)
    ensures Spaces(left) && text == left + TrimStart(text)
  {
    if text != "" && Space(text[0]) {
      var rest := TrimStartMeans(text[1..]);
      left := [text[0]] + rest;
      assert text == [text[0]] + text[1..];
    } else {
      left := "";
    }
  }

  lemma {:induction false} TrimEndMeans(text: string) returns (right: string)
    ensures Spaces(right) && text == TrimEnd(text) + right
  {
    if text != "" && Space(text[|text| - 1]) {
      var rest := TrimEndMeans(text[..|text| - 1]);
      right := rest + [text[|text| - 1]];
      assert text == text[..|text| - 1] + [text[|text| - 1]];
    } else {
      right := "";
    }
  }

  /** Trimming takes white space off both ends, all of it and nothing else. */
  lemma TrimMeans(text: string) returns (left: string, right: string)
    ensures text == left + Trim(text) + right && Spaces(left) && Spaces(right)
    ensures Trim(text) != "" ==> !Space(Trim(text)[0]) && !Space(Trim(text)[|Trim(text)| - 1])
  {
    left := TrimStartMeans(text);
    right := TrimEndMeans(TrimStart(text));
    assert TrimStart(text) == Trim(text) + right;
    assert text == left + (Trim(text) + right);
    if Trim(text) != "" { assert Trim(text)[0] == TrimStart(text)[0]; }
  }

  // ----- numbers

  ghost predicate Digits(text: string) {
    forall i :: 0 <= i < |text| ==> Digit(text[i])
  }

  lemma {:induction false} DecimalOfValue(text: string)
    requires text != "" && Digits(text) && (text[0] != '0' || |text| == 1)
    ensures Decimal(DigitsValue(text)) == text
  {
    var init, last := text[..|text| - 1], text[|text| - 1];
    assert text == init + [last] && Digit(last);
    if init == "" {
      assert DigitsValue(text) == last as int - '0' as int;
      assert [DigitOf(DigitsValue(text))] == text;
    } else {
      assert init[0] == text[0];
      DecimalOfValue(init);
      FirstDigitPositive(init);
      TenTimes(DigitsValue(init), last as int - '0' as int);
    }
  }

  lemma TenTimes(n: nat, d: nat)
    requires n > 0 && d < 10
    ensures Decimal(10 * n + d) == Decimal(n) + [DigitOf(d)]
  {
    assert (10 * n + d) / 10 == n && (10 * n + d) % 10 == d;
  }

  /** A line is read exactly from the decimal text of a positive safe integer. */
  lemma PositiveLineIff(text: string, n: nat)
    ensures PositiveLine(text) == Some(n) <==> 0 < n <= MAX_SAFE_INTEGER && text == Decimal(n)
  {
    if PositiveLine(text) == Some(n) {
      DecimalOfValue(text);
    }
    PositiveLineOfDecimal(n);
  }

  lemma {:induction false} LeadingDigitsMeans(text: string) returns (rest: string)
    ensures text == LeadingDigits(text) + rest && (rest != "" ==> !Digit(rest[0]))
  {
    if text != "" && Digit(text[0]) {
      rest := LeadingDigitsMeans(text[1..]);
      assert text == [text[0]] + text[1..];
    } else {
      rest := text;
    }
  }

  lemma {:induction false} LeadingDigitsOf(digits: string, rest: string)
    requires Digits(digits) && (rest != "" ==> !Digit(rest[0]))
    ensures LeadingDigits(digits + rest) == digits
  {
    if digits != "" {
      assert (digits + rest)[1..] == digits[1..] + rest;
      LeadingDigitsOf(digits[1..], rest);
    } else {
      assert digits + rest == rest;
    }
  }

  lemma {:induction false} TrimStartOf(left: string, text: string)
    requires Spaces(left) && (text != "" ==> !Space(text[0]))
    ensures TrimStart(left + text) == text
  {
    if left != "" {
      assert (left + text)[1..] == left[1..] + text;
      TrimStartOf(left[1..], text);
    } else {
      assert left + text == text;
    }
  }

  /** How an integer may be written: white space, perhaps a plus sign, digits, and anything but a digit after them. */
  ghost predicate Writes(text: string, left: string, sign: string, digits: string, rest: string) {
    && text == left + (sign + (digits + rest))
    && Spaces(left) && (sign == "" || sign == "+") && digits != "" && Digits(digits)
    && (rest != "" ==> !Digit(rest[0]))
  }

  lemma WrittenIntegerReads(text: string, left: string, sign: string, digits: string, rest: string)
    requires Writes(text, left, sign, digits, rest)
    ensures PositiveInteger(text) == if DigitsValue(digits) > 0 then Some(DigitsValue(digits)) else None
  {
    var start := sign + (digits + rest);
    assert Digit(digits[0]) && start[0] == (if sign == "" then digits[0] else '+');
    TrimStartOf(left, start);
    LeadingDigitsOf(digits, rest);
    assert (if sign == "" then start else start[1..]) == digits + rest;
  }

  lemma ReadIntegerWritten(text: string) returns (left: string, sign: string, digits: string, rest: string)
    requires PositiveInteger(text).Some?
    ensures Writes(text, left, sign, digits, rest) && PositiveInteger(text) == Some(DigitsValue(digits))
  {
    left := TrimStartMeans(text);
    var start := TrimStart(text);
    sign := if start[0] == '+' then "+" else "";
    var after := if sign == "+" then start[1..] else start;
    digits := LeadingDigits(after);
    rest := LeadingDigitsMeans(after);
    SignFirst(start, sign, after);
  }

  lemma SignFirst(start: string, sign: string, after: string)
    requires start != "" && sign == (if start[0] == '+' then "+" else "")
    requires after == if sign == "+" then start[1..] else start
    ensures start == sign + after
  {
  }

  /** An integer is read exactly where a positive one is written. */
  lemma PositiveIntegerIff(text: string, n: nat)
    ensures PositiveInteger(text) == Some(n) <==>
              n > 0 && exists left, sign, digits, rest ::
                         Writes(text, left, sign, digits, rest) && DigitsValue(digits) == n
  {
    if PositiveInteger(text) == Some(n) {
      var left, sign, digits, rest := ReadIntegerWritten(text);
      assert Writes(text, left, sign, digits, rest) && DigitsValue(digits) == n;
    } else {
      forall left, sign, digits, rest | Writes(text, left, sign, digits, rest)
        ensures !(n > 0 && DigitsValue(digits) == n)
      {
        WrittenIntegerReads(text, left, sign, digits, rest);
      }
    }
  }
}
