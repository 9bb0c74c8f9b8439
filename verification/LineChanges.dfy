/** The line numbers a zero-context patch changes. */
module LineChangesModel {
  import opened Wrappers
  import opened PathText
  import opened GitNumbers

  // ----- reading hunk headers

  /** Added ranges, first and last line, and the new lines each removal follows. */
  datatype LineChanges = LineChanges(added: seq<(nat, nat)>, removedAfter: seq<nat>)

  function HunkRange(range: string): Option<(nat, nat)> {
    var count := After(range, ',');
    if count.Some? then
      var first, many := ParseU64(Before(range, ',')), ParseU64(count.value);
      if first.Some? && many.Some? then Some((first.value, many.value)) else None
    else
      var first := ParseU64(range);
      if first.Some? then Some((first.value, 1)) else None
  }

  const HEADER: string := "@@ -"

  /** The removed count and the added range of a hunk header, if the line is one. */
  function ReadHeader(line: string): Option<(nat, nat, nat)> {
    if !(HEADER <= line) then None
    else
      var header := line[|HEADER|..];
      var removed := HunkRange(Before(header, ' '));
      var second := After(header, ' ');
      if removed.None? || second.None? then None
      else
        var range := Before(second.value, ' ');
        if range == "" || range[0] != '+' then None
        else
          var added := HunkRange(range[1..]);
          if added.None? then None else Some((removed.value.1, added.value.0, added.value.1))
  }

  /** Line numbers wrap as unsigned 64-bit numbers do. */
  function Apply(changes: LineChanges, removed: nat, first: nat, added: nat): LineChanges {
    LineChanges(
      if added > 0 then changes.added + [(first, (first + added - 1) % U64)] else changes.added,
      if removed > 0
      then changes.removedAfter + [if added == 0 then first else (first + U64 - 1) % U64]
      else changes.removedAfter)
  }

  /** What the headers among the lines say, in order. */
  function Headers(lines: seq<string>): seq<(nat, nat, nat)> {
    if lines == [] then []
    else
      var header := ReadHeader(lines[0]);
      (if header.Some? then [header.value] else []) + Headers(lines[1..])
  }

  function ApplyAll(headers: seq<(nat, nat, nat)>, changes: LineChanges): LineChanges {
    if headers == [] then changes
    else ApplyAll(headers[1..], Apply(changes, headers[0].0, headers[0].1, headers[0].2))
  }

  function ReadLines(lines: seq<string>): LineChanges {
    ApplyAll(Headers(lines), LineChanges([], []))
  }

  function Next(header: Option<(nat, nat, nat)>, changes: LineChanges): LineChanges {
    if header.Some? then Apply(changes, header.value.0, header.value.1, header.value.2) else changes
  }

  lemma HeadersStep(lines: seq<string>, i: nat, changes: LineChanges)
    requires i < |lines|
    ensures ApplyAll(Headers(lines[i..]), changes)
            == ApplyAll(Headers(lines[i + 1..]), Next(ReadHeader(lines[i]), changes))
  {
    HeadersFirst(lines[i..], changes);
    assert lines[i..][1..] == lines[i + 1..];
  }

  lemma HeadersFirst(lines: seq<string>, changes: LineChanges)
    requires lines != []
    ensures ApplyAll(Headers(lines), changes) == ApplyAll(Headers(lines[1..]), Next(ReadHeader(lines[0]), changes))
  {
    var header := ReadHeader(lines[0]);
    FirstApplied(header, Headers(lines[1..]), changes);
  }

  lemma FirstApplied(header: Option<(nat, nat, nat)>, rest: seq<(nat, nat, nat)>, changes: LineChanges)
    ensures ApplyAll((if header.Some? then [header.value] else []) + rest, changes) == ApplyAll(rest, Next(header, changes))
  {
    if header.Some? {
      assert ([header.value] + rest)[1..] == rest;
    } else {
      assert [] + rest == rest;
    }
  }

  method ParseLineChanges(lines: seq<string>) returns (changes: LineChanges)
    ensures changes == ReadLines(lines)
  {
    changes := LineChanges([], []);
    var i := 0;
    assert lines[0..] == lines;
    while i < |lines|
      invariant 0 <= i <= |lines|
      invariant ReadLines(lines) == ApplyAll(Headers(lines[i..]), changes)
    {
      HeadersStep(lines, i, changes);
      var header := ReadHeader(lines[i]);
      i := i + 1;
      if header.None? {
        continue;
      }
      changes := Apply(changes, header.value.0, header.value.1, header.value.2);
    }
  }

  // ----- an edit and the patch Git prints for it

  /** One line of an alignment of an old file with a new one. */
  datatype Edit = Keep | Delete | Insert

  function Deleted(edits: seq<Edit>): nat {
    if edits == [] then 0 else (if edits[0].Delete? then 1 else 0) + Deleted(edits[1..])
  }

  /** How many lines of the new file these edits make. */
  function NewLines(edits: seq<Edit>): nat {
    if edits == [] then 0 else (if edits[0].Delete? then 0 else 1) + NewLines(edits[1..])
  }

  function OldLines(edits: seq<Edit>): nat {
    if edits == [] then 0 else (if edits[0].Insert? then 0 else 1) + OldLines(edits[1..])
  }

  /** The length of the unbroken change the edits begin with. */
  function ChangeLength(edits: seq<Edit>): (length: nat)
    ensures length <= |edits|
    ensures forall i :: 0 <= i < length ==> !edits[i].Keep?
    ensures length < |edits| ==> edits[length].Keep?
  {
    if edits == [] || edits[0].Keep? then 0 else 1 + ChangeLength(edits[1..])
  }

  /** One hunk: the lines before it on each side, and how many it removes and adds. */
  datatype Hunk = Hunk(oldBefore: nat, removed: nat, newBefore: nat, added: nat)

  function Hunks(edits: seq<Edit>, oldBefore: nat, newBefore: nat): seq<Hunk>
    decreases |edits|
  {
    if edits == [] then []
    else if edits[0].Keep? then Hunks(edits[1..], oldBefore + 1, newBefore + 1)
    else
      var change := edits[..ChangeLength(edits)];
      [Hunk(oldBefore, Deleted(change), newBefore, NewLines(change))]
      + Hunks(edits[|change|..], oldBefore + Deleted(change), newBefore + NewLines(change))
  }

  /** A range names its first line, or the line before it when it is empty; a count of one is left out. */
  function PrintRange(before: nat, count: nat): string {
    var first := if count == 0 then before else before + 1;
    if count == 1 then Decimal(first) else Decimal(first) + "," + Decimal(count)
  }

  function PrintHeader(hunk: Hunk): string {
    HEADER + PrintRange(hunk.oldBefore, hunk.removed) + " " + "+" + PrintRange(hunk.newBefore, hunk.added) + " " + "@@"
  }

  /** The lines of a patch that can be hunk headers. */
  function HeaderLines(lines: seq<string>): seq<string> {
    if lines == [] then []
    else if HEADER <= lines[0] then [lines[0]] + HeaderLines(lines[1..])
    else HeaderLines(lines[1..])
  }

  /** The header lines of a patch with these hunks; Git may add the name of the section a hunk is in. */
  ghost predicate HeadersFor(headers: seq<string>, hunks: seq<Hunk>) {
    |headers| == |hunks| && forall i :: 0 <= i < |hunks| ==> PrintHeader(hunks[i]) <= headers[i]
  }

  // ----- headers read back

  lemma RangeReads(before: nat, count: nat)
    requires before + count < U64
    ensures HunkRange(PrintRange(before, count)) == Some((if count == 0 then before else before + 1, count))
    ensures ' ' !in PrintRange(before, count) && PrintRange(before, count) != ""
  {
    var first := if count == 0 then before else before + 1;
    ParseU64OfDecimal(first);
    ParseU64OfDecimal(count);
    DecimalPlain(first, ',');
    DecimalPlain(first, ' ');
    DecimalPlain(count, ' ');
    if count == 1 {
      NoSeparator(Decimal(first), ',');
    } else {
      CutAtSeparator(Decimal(first), ',', Decimal(count));
    }
  }

  /** The two ranges of a header, as the spaces and the plus sign mark them off, whatever follows. */
  lemma HeaderFields(left: string, right: string, rest: string)
    requires ' ' !in left && ' ' !in right
    ensures var header := left + " " + ("+" + right + " " + rest);
            && Before(header, ' ') == left
            && After(header, ' ') == Some("+" + right + " " + rest)
            && Before("+" + right + " " + rest, ' ') == "+" + right
  {
    CutAtSeparator(left, ' ', "+" + right + " " + rest);
    CutAtSeparator("+" + right, ' ', rest);
  }

  lemma HeaderText(left: string, right: string, section: string)
    ensures var line := HEADER + left + " " + "+" + right + " " + "@@" + section;
            HEADER <= line && line[|HEADER|..] == left + " " + ("+" + right + " " + ("@@" + section))
  {
  }

  lemma HeaderOf(line: string, left: string, right: string, rest: string, removed: (nat, nat), added: (nat, nat))
    requires HEADER <= line && line[|HEADER|..] == left + " " + ("+" + right + " " + rest)
    requires ' ' !in left && ' ' !in right
    requires HunkRange(left) == Some(removed) && HunkRange(right) == Some(added)
    ensures ReadHeader(line) == Some((removed.1, added.0, added.1))
  {
    HeaderFields(left, right, rest);
    var range := "+" + right;
    assert range[0] == '+' && range[1..] == right;
  }

  /** A header reads back as its ranges, whatever section name Git puts after it. */
  lemma HeaderReads(hunk: Hunk, section: string)
    requires hunk.oldBefore + hunk.removed < U64 && hunk.newBefore + hunk.added < U64
    ensures ReadHeader(PrintHeader(hunk) + section)
            == Some((hunk.removed, if hunk.added == 0 then hunk.newBefore else hunk.newBefore + 1, hunk.added))
    ensures HEADER <= PrintHeader(hunk)
  {
    var left, right := PrintRange(hunk.oldBefore, hunk.removed), PrintRange(hunk.newBefore, hunk.added);
    RangeReads(hunk.oldBefore, hunk.removed);
    RangeReads(hunk.newBefore, hunk.added);
    HeaderText(left, right, section);
    HeaderText(left, right, "");
    HeaderOf(PrintHeader(hunk) + section, left, right, "@@" + section,
             (if hunk.removed == 0 then hunk.oldBefore else hunk.oldBefore + 1, hunk.removed),
             (if hunk.added == 0 then hunk.newBefore else hunk.newBefore + 1, hunk.added));
  }

  // ----- which lines are headers

  /** How a range may be written: a first line, or a first line and a count. */
  ghost predicate WritesRange(range: string, first: nat, count: nat) {
    || (',' !in range && count == 1 && ParseU64(range) == Some(first))
    || (exists a, b :: range == a + [','] + b && ',' !in a && ParseU64(a) == Some(first) && ParseU64(b) == Some(count))
  }

  lemma RangeIff(range: string, first: nat, count: nat)
    ensures HunkRange(range) == Some((first, count)) <==> WritesRange(range, first, count)
  {
    CutMeans(range, ',');
    if ',' !in range {
      NoSeparator(range, ',');
      assert forall a, b :: range == a + [','] + b ==> range[|a|] == ',';
    } else {
      var a, b := Before(range, ','), After(range, ',').value;
      assert range == a + [','] + b;
      forall c, d | range == c + [','] + d && ',' !in c ensures c == a && d == b {
        CutAtSeparator(c, ',', d);
      }
    }
  }

  /** How a header may be written: two ranges, a plus sign at the second, and anything after a space. */
  ghost predicate WritesHeader(line: string, left: string, right: string, rest: string) {
    && ' ' !in left && ' ' !in right
    && (line == HEADER + (left + [' '] + ("+" + right)) || line == HEADER + (left + [' '] + ("+" + right + [' '] + rest)))
  }

  lemma HeaderWritten(line: string) returns (left: string, right: string, rest: string)
    requires ReadHeader(line).Some?
    ensures WritesHeader(line, left, right, rest)
    ensures HunkRange(left).Some? && HunkRange(right).Some?
    ensures ReadHeader(line) == Some((HunkRange(left).value.1, HunkRange(right).value.0, HunkRange(right).value.1))
  {
    var header := line[|HEADER|..];
    assert line == HEADER + header;
    CutMeans(header, ' ');
    left := Before(header, ' ');
    var second := After(header, ' ').value;
    CutMeans(second, ' ');
    var range := Before(second, ' ');
    right := range[1..];
    assert range == "+" + right;
    rest := if After(second, ' ').Some? then After(second, ' ').value else "";
  }

  lemma WrittenHeaderReads(line: string, left: string, right: string, rest: string)
    requires WritesHeader(line, left, right, rest) && HunkRange(left).Some? && HunkRange(right).Some?
    ensures ReadHeader(line) == Some((HunkRange(left).value.1, HunkRange(right).value.0, HunkRange(right).value.1))
  {
    var second := if line == HEADER + (left + [' '] + ("+" + right)) then "+" + right else "+" + right + [' '] + rest;
    assert line[|HEADER|..] == left + [' '] + second;
    CutAtSeparator(left, ' ', second);
    if second == "+" + right {
      NoSeparator(second, ' ');
    } else {
      CutAtSeparator("+" + right, ' ', rest);
    }
    var range := "+" + right;
    assert Before(second, ' ') == range && range[0] == '+' && range[1..] == right;
  }

  /** Lines that are not so written are passed over. */
  lemma HeaderIff(line: string)
    ensures ReadHeader(line).Some? <==>
              exists left, right, rest ::
                WritesHeader(line, left, right, rest) && HunkRange(left).Some? && HunkRange(right).Some?
  {
    if ReadHeader(line).Some? {
      var left, right, rest := HeaderWritten(line);
      assert WritesHeader(line, left, right, rest);
    }
    forall left, right, rest | WritesHeader(line, left, right, rest) && HunkRange(left).Some? && HunkRange(right).Some?
      ensures ReadHeader(line).Some?
    {
      WrittenHeaderReads(line, left, right, rest);
    }
  }

  // ----- what reading gives

  function ChangesOf(hunks: seq<Hunk>): LineChanges {
    if hunks == [] then LineChanges([], []) else Plus(ChangesOfHunk(hunks[0]), ChangesOf(hunks[1..]))
  }

  ghost predicate Representable(hunks: seq<Hunk>) {
    forall i :: 0 <= i < |hunks| ==>
      hunks[i].oldBefore + hunks[i].removed < U64 && hunks[i].newBefore + hunks[i].added < U64
  }

  function Plus(a: LineChanges, b: LineChanges): LineChanges {
    LineChanges(a.added + b.added, a.removedAfter + b.removedAfter)
  }

  function ChangesOfHunk(h: Hunk): LineChanges {
    LineChanges(
      if h.added > 0 then [(h.newBefore + 1, h.newBefore + h.added)] else [],
      if h.removed > 0 then [h.newBefore] else [])
  }

  lemma ApplyHunk(changes: LineChanges, h: Hunk)
    requires h.newBefore + h.added < U64
    ensures Apply(changes, HeaderOfHunk(h).0, HeaderOfHunk(h).1, HeaderOfHunk(h).2) == Plus(changes, ChangesOfHunk(h))
  {
    assert (h.newBefore + 1 + U64 - 1) % U64 == h.newBefore;
  }

  lemma PlusAssociates(a: LineChanges, b: LineChanges, c: LineChanges)
    ensures Plus(Plus(a, b), c) == Plus(a, Plus(b, c))
  {
  }

  lemma HeaderLinesStep(lines: seq<string>, hunks: seq<Hunk>)
    requires lines != [] && HEADER <= lines[0] && HeadersFor(HeaderLines(lines), hunks)
    ensures hunks != [] && PrintHeader(hunks[0]) <= lines[0]
    ensures HeadersFor(HeaderLines(lines[1..]), hunks[1..])
  {
    var headers := HeaderLines(lines);
    assert headers[0] == lines[0] && headers[1..] == HeaderLines(lines[1..]);
  }

  function HeaderOfHunk(h: Hunk): (nat, nat, nat) {
    (h.removed, if h.added == 0 then h.newBefore else h.newBefore + 1, h.added)
  }

  function HeadersOfHunks(hunks: seq<Hunk>): seq<(nat, nat, nat)> {
    if hunks == [] then [] else [HeaderOfHunk(hunks[0])] + HeadersOfHunks(hunks[1..])
  }

  lemma NotAHeader(line: string)
    requires !(HEADER <= line)
    ensures ReadHeader(line).None?
  {
  }

  lemma HeaderFirst(lines: seq<string>, h: Hunk)
    requires lines != [] && ReadHeader(lines[0]) == Some(HeaderOfHunk(h))
    ensures Headers(lines) == [HeaderOfHunk(h)] + Headers(lines[1..])
  {
  }

  lemma HeaderLineReads(line: string, h: Hunk)
    requires h.oldBefore + h.removed < U64 && h.newBefore + h.added < U64 && PrintHeader(h) <= line
    ensures ReadHeader(line) == Some(HeaderOfHunk(h))
  {
    var section := line[|PrintHeader(h)|..];
    assert line == PrintHeader(h) + section;
    HeaderReads(h, section);
  }

  lemma {:induction false} HeadersRead(lines: seq<string>, hunks: seq<Hunk>)
    requires Representable(hunks) && HeadersFor(HeaderLines(lines), hunks)
    ensures Headers(lines) == HeadersOfHunks(hunks)
    decreases |lines|
  {
    if lines == [] {
      assert hunks == [];
    } else if HEADER <= lines[0] {
      HeaderLinesStep(lines, hunks);
      HeaderLineReads(lines[0], hunks[0]);
      HeaderFirst(lines, hunks[0]);
      HeadersRead(lines[1..], hunks[1..]);
    } else {
      NotAHeader(lines[0]);
      HeadersRead(lines[1..], hunks);
    }
  }

  lemma {:induction false} HunksApplied(hunks: seq<Hunk>, changes: LineChanges)
    requires Representable(hunks)
    ensures ApplyAll(HeadersOfHunks(hunks), changes) == Plus(changes, ChangesOf(hunks))
  {
    if hunks == [] {
      assert Plus(changes, LineChanges([], [])) == changes;
    } else {
      var h := HeaderOfHunk(hunks[0]);
      assert HeadersOfHunks(hunks)[1..] == HeadersOfHunks(hunks[1..]);
      ApplyHunk(changes, hunks[0]);
      HunksApplied(hunks[1..], Plus(changes, ChangesOfHunk(hunks[0])));
      PlusAssociates(changes, ChangesOfHunk(hunks[0]), ChangesOf(hunks[1..]));
    }
  }

  lemma {:induction false} HunksFit(edits: seq<Edit>, oldBefore: nat, newBefore: nat)
    requires oldBefore + OldLines(edits) < U64 && newBefore + NewLines(edits) < U64
    ensures Representable(Hunks(edits, oldBefore, newBefore))
    decreases |edits|
  {
    if edits != [] {
      if edits[0].Keep? {
        HunksFit(edits[1..], oldBefore + 1, newBefore + 1);
      } else {
        var k := ChangeLength(edits);
        CountsSplit(edits, k);
        ChangeCounts(edits[..k]);
        HunksFit(edits[k..], oldBefore + Deleted(edits[..k]), newBefore + NewLines(edits[..k]));
      }
    }
  }

  lemma {:induction false} CountsSplit(edits: seq<Edit>, k: nat)
    requires k <= |edits|
    ensures OldLines(edits) == OldLines(edits[..k]) + OldLines(edits[k..])
    ensures NewLines(edits) == NewLines(edits[..k]) + NewLines(edits[k..])
  {
    if k == 0 {
      assert edits[0..] == edits;
    } else {
      CountsSplit(edits[1..], k - 1);
      assert edits[..k][1..] == edits[1..][..k - 1] && edits[k..] == edits[1..][k - 1..];
    }
  }

  lemma {:induction false} ChangeCounts(change: seq<Edit>)
    requires forall i :: 0 <= i < |change| ==> !change[i].Keep?
    ensures OldLines(change) == Deleted(change)
  {
    if change != [] { ChangeCounts(change[1..]); }
  }

  // ----- what the numbers mean

  /** New line `line` (from 1) was inserted. */
  ghost predicate Inserted(edits: seq<Edit>, line: int) {
    exists i :: 0 <= i < |edits| && edits[i].Insert? && NewLines(edits[..i]) + 1 == line
  }

  /** A removal happens in a change that starts after `before` new lines. */
  ghost predicate RemovedAfter(edits: seq<Edit>, before: int) {
    exists i, s :: ChangeStarts(edits, s, i) && edits[i].Delete? && NewLines(edits[..s]) == before
  }

  /** The unbroken change that edit `i` belongs to starts at `s`. */
  ghost predicate ChangeStarts(edits: seq<Edit>, s: int, i: int) {
    && 0 <= s <= i < |edits|
    && (forall j :: s <= j <= i ==> !edits[j].Keep?)
    && (s > 0 ==> edits[s - 1].Keep?)
  }

  ghost predicate InSomeRange(ranges: seq<(nat, nat)>, line: int) {
    exists k :: 0 <= k < |ranges| && ranges[k].0 <= line <= ranges[k].1
  }

  /** Nonempty ranges in order, with at least one line between neighbours. */
  ghost predicate ApartRanges(ranges: seq<(nat, nat)>, above: nat) {
    && (forall k :: 0 <= k < |ranges| ==> above < ranges[k].0 <= ranges[k].1)
    && (forall k, m :: 0 <= k < m < |ranges| ==> ranges[k].1 + 1 < ranges[m].0)
  }

  ghost predicate Increasing(points: seq<nat>, least: nat) {
    && (forall k :: 0 <= k < |points| ==> least <= points[k])
    && (forall k, m :: 0 <= k < m < |points| ==> points[k] < points[m])
  }

  // ----- the added lines

  lemma InsertedStep(edits: seq<Edit>, line: int)
    requires edits != []
    ensures Inserted(edits, line)
            <==> (edits[0].Insert? && line == 1) || Inserted(edits[1..], if edits[0].Delete? then line else line - 1)
  {
    var rest := edits[1..];
    var next := if edits[0].Delete? then line else line - 1;
    assert forall i :: 0 < i < |edits| ==> edits[..i][1..] == rest[..i - 1];
    if Inserted(edits, line) {
      var i :| 0 <= i < |edits| && edits[i].Insert? && NewLines(edits[..i]) + 1 == line;
      if i > 0 {
        assert rest[i - 1].Insert? && NewLines(rest[..i - 1]) + 1 == next;
      }
    }
    if Inserted(rest, next) {
      var i :| 0 <= i < |rest| && rest[i].Insert? && NewLines(rest[..i]) + 1 == next;
      assert edits[..i + 1][1..] == rest[..i];
      assert edits[i + 1].Insert? && NewLines(edits[..i + 1]) + 1 == line;
    }
    if edits[0].Insert? && line == 1 {
      assert NewLines(edits[..0]) + 1 == line;
    }
  }

  /** Every new line of an unbroken change is an inserted one. */
  lemma {:induction false} InsertedInChange(edits: seq<Edit>, k: nat, line: int)
    requires k <= |edits| && forall i :: 0 <= i < k ==> !edits[i].Keep?
    ensures Inserted(edits, line)
            <==> 1 <= line <= NewLines(edits[..k]) || Inserted(edits[k..], line - NewLines(edits[..k]))
  {
    if k == 0 {
      assert edits[0..] == edits;
    } else {
      InsertedStep(edits, line);
      InsertedInChange(edits[1..], k - 1, if edits[0].Delete? then line else line - 1);
      assert edits[..k][1..] == edits[1..][..k - 1] && edits[k..] == edits[1..][k - 1..];
      InsertedPositive(edits[k..], line - NewLines(edits[..k]));
    }
  }

  lemma InsertedPositive(edits: seq<Edit>, line: int)
    ensures Inserted(edits, line) ==> line >= 1
  {
  }

  function Start(edits: seq<Edit>, newBefore: nat): nat {
    if edits != [] && edits[0].Keep? then newBefore + 1 else newBefore
  }

  function AddedBy(edits: seq<Edit>, oldBefore: nat, newBefore: nat): seq<(nat, nat)> {
    ChangesOf(Hunks(edits, oldBefore, newBefore)).added
  }

  function RemovedBy(edits: seq<Edit>, oldBefore: nat, newBefore: nat): seq<nat> {
    ChangesOf(Hunks(edits, oldBefore, newBefore)).removedAfter
  }

  /** A change begins with its own hunk, and what follows it is as if read on its own. */
  lemma ChangeSplit(edits: seq<Edit>, oldBefore: nat, newBefore: nat)
    requires edits != [] && !edits[0].Keep?
    ensures var k := ChangeLength(edits);
            var o, n := oldBefore + Deleted(edits[..k]), newBefore + NewLines(edits[..k]);
            && ChangesOf(Hunks(edits, oldBefore, newBefore))
               == Plus(ChangesOfHunk(Hunk(oldBefore, Deleted(edits[..k]), newBefore, NewLines(edits[..k]))),
                       ChangesOf(Hunks(edits[k..], o, n)))
            && (edits[k..] == [] ==> ChangesOf(Hunks(edits[k..], o, n)) == LineChanges([], []))
  {
    var k := ChangeLength(edits);
    var h := Hunk(oldBefore, Deleted(edits[..k]), newBefore, NewLines(edits[..k]));
    var rest := Hunks(edits[k..], oldBefore + h.removed, newBefore + h.added);
    assert Hunks(edits, oldBefore, newBefore) == [h] + rest;
    assert ([h] + rest)[1..] == rest;
  }

  /** The ranges are exactly the maximal runs of inserted lines, in order. */
  ghost predicate AddedMeans(edits: seq<Edit>, newBefore: nat, ranges: seq<(nat, nat)>) {
    && ApartRanges(ranges, Start(edits, newBefore))
    && forall line :: InSomeRange(ranges, line) <==> Inserted(edits, line - newBefore)
  }

  lemma {:induction false} AddedMeaning(edits: seq<Edit>, oldBefore: nat, newBefore: nat)
    ensures AddedMeans(edits, newBefore, AddedBy(edits, oldBefore, newBefore))
    decreases |edits|
  {
    if edits == [] {
    } else if edits[0].Keep? {
      AddedMeaning(edits[1..], oldBefore + 1, newBefore + 1);
      assert AddedBy(edits, oldBefore, newBefore) == AddedBy(edits[1..], oldBefore + 1, newBefore + 1);
      AddedPastKeep(edits, newBefore, AddedBy(edits, oldBefore, newBefore));
    } else {
      var k := ChangeLength(edits);
      var o, n := oldBefore + Deleted(edits[..k]), newBefore + NewLines(edits[..k]);
      AddedMeaning(edits[k..], o, n);
      ChangeSplit(edits, oldBefore, newBefore);
      AddedInChange(edits, k, newBefore, AddedBy(edits, oldBefore, newBefore), AddedBy(edits[k..], o, n));
    }
  }

  lemma AddedPastKeep(edits: seq<Edit>, newBefore: nat, ranges: seq<(nat, nat)>)
    requires edits != [] && edits[0].Keep? && AddedMeans(edits[1..], newBefore + 1, ranges)
    ensures AddedMeans(edits, newBefore, ranges)
  {
    forall line ensures InSomeRange(ranges, line) <==> Inserted(edits, line - newBefore) {
      InsertedStep(edits, line - newBefore);
      assert line - (newBefore + 1) == line - newBefore - 1;
    }
  }

  lemma AddedInChange(edits: seq<Edit>, k: nat, newBefore: nat, ranges: seq<(nat, nat)>, rest: seq<(nat, nat)>)
    requires 0 < k <= |edits| && forall i :: 0 <= i < k ==> !edits[i].Keep?
    requires k < |edits| ==> edits[k].Keep?
    requires var d := NewLines(edits[..k]);
             && ranges == (if d > 0 then [(newBefore + 1, newBefore + d)] else []) + rest
             && (edits[k..] == [] ==> rest == [])
             && AddedMeans(edits[k..], newBefore + d, rest)
    ensures AddedMeans(edits, newBefore, ranges)
  {
    var d := NewLines(edits[..k]);
    RangeInFront(newBefore, d, rest);
    forall line ensures InSomeRange(ranges, line) <==> Inserted(edits, line - newBefore) {
      assert InSomeRange(rest, line) <==> Inserted(edits[k..], line - (newBefore + d));
      LineInChange(edits, k, line, newBefore);
    }
  }

  lemma LineInChange(edits: seq<Edit>, k: nat, line: int, newBefore: nat)
    requires k <= |edits| && forall i :: 0 <= i < k ==> !edits[i].Keep?
    ensures var d := NewLines(edits[..k]);
            Inserted(edits, line - newBefore)
            <==> newBefore + 1 <= line <= newBefore + d || Inserted(edits[k..], line - (newBefore + d))
  {
    InsertedInChange(edits, k, line - newBefore);
    SameLine(edits[k..], line, newBefore, NewLines(edits[..k]));
  }

  lemma SameLine(edits: seq<Edit>, line: int, before: nat, d: nat)
    ensures Inserted(edits, line - (before + d)) <==> Inserted(edits, line - before - d)
  {
    assert line - (before + d) == line - before - d;
  }

  lemma RangeInFront(before: nat, d: nat, rest: seq<(nat, nat)>)
    requires ApartRanges(rest, before + d) && (rest != [] ==> ApartRanges(rest, before + d + 1))
    ensures var ranges := (if d > 0 then [(before + 1, before + d)] else []) + rest;
            && ApartRanges(ranges, before)
            && forall line :: InSomeRange(ranges, line) <==> before + 1 <= line <= before + d || InSomeRange(rest, line)
  {
    var head: seq<(nat, nat)> := if d > 0 then [(before + 1, before + d)] else [];
    var ranges := head + rest;
    forall line ensures InSomeRange(ranges, line) <==> before + 1 <= line <= before + d || InSomeRange(rest, line) {
      if InSomeRange(rest, line) {
        var k :| 0 <= k < |rest| && rest[k].0 <= line <= rest[k].1;
        assert ranges[|head| + k] == rest[k];
      }
      if before + 1 <= line <= before + d {
        assert ranges[0] == (before + 1, before + d);
      }
    }
  }

  // ----- the removals

  lemma RemovedAfterKeep(edits: seq<Edit>, before: int)
    requires edits != [] && edits[0].Keep?
    ensures RemovedAfter(edits, before) <==> RemovedAfter(edits[1..], before - 1)
  {
    var rest := edits[1..];
    if RemovedAfter(edits, before) {
      var i, s :| ChangeStarts(edits, s, i) && edits[i].Delete? && NewLines(edits[..s]) == before;
      assert s > 0 && edits[..s][1..] == rest[..s - 1];
      assert forall j :: 0 <= j < |rest| ==> rest[j] == edits[j + 1];
      assert ChangeStarts(rest, s - 1, i - 1) && rest[i - 1].Delete? && NewLines(rest[..s - 1]) == before - 1;
    }
    if RemovedAfter(rest, before - 1) {
      var i, s :| ChangeStarts(rest, s, i) && rest[i].Delete? && NewLines(rest[..s]) == before - 1;
      assert edits[..s + 1][1..] == rest[..s];
      assert forall j :: 0 < j < |edits| ==> edits[j] == rest[j - 1];
      assert ChangeStarts(edits, s + 1, i + 1) && edits[i + 1].Delete? && NewLines(edits[..s + 1]) == before;
    }
  }

  lemma {:induction false} SomeDeleted(edits: seq<Edit>)
    ensures Deleted(edits) > 0 <==> exists i :: 0 <= i < |edits| && edits[i].Delete?
  {
    if edits != [] {
      SomeDeleted(edits[1..]);
      assert edits == [edits[0]] + edits[1..];
      if Deleted(edits[1..]) > 0 {
        var i :| 0 <= i < |edits[1..]| && edits[1..][i].Delete?;
        assert edits[i + 1].Delete?;
      }
      forall i | 0 < i < |edits| && edits[i].Delete? ensures Deleted(edits[1..]) > 0 {
        assert edits[1..][i - 1].Delete?;
      }
    }
  }

  /** The part of a list after a whole change, seen from the start. */
  lemma CountPast(edits: seq<Edit>, k: nat, s: nat)
    requires k <= s <= |edits|
    ensures NewLines(edits[..s]) == NewLines(edits[..k]) + NewLines(edits[k..][..s - k])
  {
    CountsSplit(edits[..s], k);
    assert edits[..s][..k] == edits[..k] && edits[..s][k..] == edits[k..][..s - k];
  }

  lemma RemovalSplits(edits: seq<Edit>, k: nat, before: int)
    requires k <= |edits| && forall i :: 0 <= i < k ==> !edits[i].Keep?
    requires k < |edits| ==> edits[k].Keep?
    requires RemovedAfter(edits, before)
    ensures (before == 0 && Deleted(edits[..k]) > 0) || RemovedAfter(edits[k..], before - NewLines(edits[..k]))
  {
    var rest := edits[k..];
    var i, s :| ChangeStarts(edits, s, i) && edits[i].Delete? && NewLines(edits[..s]) == before;
    if i < k {
      assert s == 0 && edits[..k][i].Delete?;
      SomeDeleted(edits[..k]);
    } else {
      assert s > k;
      CountPast(edits, k, s);
      assert forall j :: 0 <= j < |rest| ==> rest[j] == edits[j + k];
      assert ChangeStarts(rest, s - k, i - k) && rest[i - k].Delete?;
    }
  }

  lemma RemovalsJoin(edits: seq<Edit>, k: nat, before: int)
    requires k <= |edits| && forall i :: 0 <= i < k ==> !edits[i].Keep?
    requires k < |edits| ==> edits[k].Keep?
    requires (before == 0 && Deleted(edits[..k]) > 0) || RemovedAfter(edits[k..], before - NewLines(edits[..k]))
    ensures RemovedAfter(edits, before)
  {
    var rest := edits[k..];
    if before == 0 && Deleted(edits[..k]) > 0 {
      SomeDeleted(edits[..k]);
      var i :| 0 <= i < k && edits[..k][i].Delete?;
      assert ChangeStarts(edits, 0, i) && edits[i].Delete? && NewLines(edits[..0]) == 0;
    } else {
      var i, s :| ChangeStarts(rest, s, i) && rest[i].Delete? && NewLines(rest[..s]) == before - NewLines(edits[..k]);
      assert s > 0;
      CountPast(edits, k, s + k);
      assert forall j :: k <= j < |edits| ==> edits[j] == rest[j - k];
      assert ChangeStarts(edits, s + k, i + k) && edits[i + k].Delete?;
    }
  }

  /** The points are exactly the numbers of new lines before a change that removes, in order. */
  ghost predicate RemovedMeans(edits: seq<Edit>, newBefore: nat, points: seq<nat>) {
    && Increasing(points, Start(edits, newBefore))
    && forall p :: p in points <==> p >= newBefore && RemovedAfter(edits, p - newBefore)
  }

  lemma {:induction false} RemovedMeaning(edits: seq<Edit>, oldBefore: nat, newBefore: nat)
    ensures RemovedMeans(edits, newBefore, RemovedBy(edits, oldBefore, newBefore))
    decreases |edits|
  {
    if edits == [] {
    } else if edits[0].Keep? {
      RemovedMeaning(edits[1..], oldBefore + 1, newBefore + 1);
      assert RemovedBy(edits, oldBefore, newBefore) == RemovedBy(edits[1..], oldBefore + 1, newBefore + 1);
      RemovedPastKeep(edits, newBefore, RemovedBy(edits, oldBefore, newBefore));
    } else {
      var k := ChangeLength(edits);
      var o, n := oldBefore + Deleted(edits[..k]), newBefore + NewLines(edits[..k]);
      RemovedMeaning(edits[k..], o, n);
      ChangeSplit(edits, oldBefore, newBefore);
      RemovedInChange(edits, k, newBefore, RemovedBy(edits, oldBefore, newBefore), RemovedBy(edits[k..], o, n));
    }
  }

  lemma RemovedPastKeep(edits: seq<Edit>, newBefore: nat, points: seq<nat>)
    requires edits != [] && edits[0].Keep? && RemovedMeans(edits[1..], newBefore + 1, points)
    ensures RemovedMeans(edits, newBefore, points)
  {
    forall p ensures p in points <==> p >= newBefore && RemovedAfter(edits, p - newBefore) {
      RemovedAfterKeep(edits, p - newBefore);
      RemovedNonNegative(edits[1..], p - newBefore - 1);
      assert p in points <==> p >= newBefore + 1 && RemovedAfter(edits[1..], p - (newBefore + 1));
    }
  }

  lemma RemovedInChange(edits: seq<Edit>, k: nat, newBefore: nat, points: seq<nat>, rest: seq<nat>)
    requires 0 < k <= |edits| && forall i :: 0 <= i < k ==> !edits[i].Keep?
    requires k < |edits| ==> edits[k].Keep?
    requires var d := NewLines(edits[..k]);
             && points == (if Deleted(edits[..k]) > 0 then [newBefore] else []) + rest
             && (edits[k..] == [] ==> rest == [])
             && RemovedMeans(edits[k..], newBefore + d, rest)
    ensures RemovedMeans(edits, newBefore, points)
  {
    var d := NewLines(edits[..k]);
    PointInFront(if Deleted(edits[..k]) > 0 then [newBefore] else [], newBefore, d, rest);
    forall p ensures p in points <==> p >= newBefore && RemovedAfter(edits, p - newBefore) {
      RemovalInChange(edits, k, p - newBefore);
      RemovedNonNegative(edits[k..], p - newBefore - d);
      assert p in rest <==> p >= newBefore + d && RemovedAfter(edits[k..], p - (newBefore + d));
      assert p - (newBefore + d) == p - newBefore - d;
    }
  }

  lemma RemovalInChange(edits: seq<Edit>, k: nat, before: int)
    requires k <= |edits| && forall i :: 0 <= i < k ==> !edits[i].Keep?
    requires k < |edits| ==> edits[k].Keep?
    ensures RemovedAfter(edits, before)
            <==> (before == 0 && Deleted(edits[..k]) > 0) || RemovedAfter(edits[k..], before - NewLines(edits[..k]))
  {
    if RemovedAfter(edits, before) {
      RemovalSplits(edits, k, before);
    } else if (before == 0 && Deleted(edits[..k]) > 0) || RemovedAfter(edits[k..], before - NewLines(edits[..k])) {
      RemovalsJoin(edits, k, before);
    }
  }

  lemma PointInFront(head: seq<nat>, before: nat, d: nat, rest: seq<nat>)
    requires head == [] || head == [before]
    requires Increasing(rest, before + d) && (rest != [] ==> Increasing(rest, before + d + 1))
    ensures Increasing(head + rest, before)
  {
    var points := head + rest;
    assert forall k :: |head| <= k < |points| ==> points[k] == rest[k - |head|];
  }

  lemma RemovedNonNegative(edits: seq<Edit>, before: int)
    ensures RemovedAfter(edits, before) ==> before >= 0
  {
  }

  /**
   * Reading the patch Git prints for an edit gives back the edit's line numbers: the maximal runs of
   * inserted lines, and how many new lines precede each change that removes.
   */
  lemma LineChangesMatchEdit(edits: seq<Edit>, lines: seq<string>)
    requires OldLines(edits) < U64 && NewLines(edits) < U64
    requires HeadersFor(HeaderLines(lines), Hunks(edits, 0, 0))
    ensures var changes := ReadLines(lines);
            && ApartRanges(changes.added, 0)
            && (forall line :: InSomeRange(changes.added, line) <==> Inserted(edits, line))
            && Increasing(changes.removedAfter, 0)
            && (forall p :: p in changes.removedAfter <==> p >= 0 && RemovedAfter(edits, p))
  {
    var hunks := Hunks(edits, 0, 0);
    HunksFit(edits, 0, 0);
    HeadersRead(lines, hunks);
    HunksApplied(hunks, LineChanges([], []));
    var changes := ChangesOf(hunks);
    assert [] + changes.added == changes.added && [] + changes.removedAfter == changes.removedAfter;
    AddedMeaning(edits, 0, 0);
    RemovedMeaning(edits, 0, 0);
    forall line ensures InSomeRange(changes.added, line) <==> Inserted(edits, line) {
      assert InSomeRange(changes.added, line) <==> Inserted(edits, line - 0);
    }
  }

  // ----- counting lines

  function Newlines(contents: string): nat {
    if contents == "" then 0 else (if contents[0] == '\n' then 1 else 0) + Newlines(contents[1..])
  }

  /** Lines as a text editor shows them: each ends at a newline, and the last may lack one. */
  function TextLines(contents: string): seq<string>
    decreases |contents|
  {
    if contents == "" then []
    else
      var next := After(contents, '\n');
      if next.None? then [contents]
      else
        AfterShorter(contents, '\n');
        [Before(contents, '\n')] + TextLines(next.value)
  }

  function LineCount(contents: string): nat {
    Newlines(contents) + if contents != "" && contents[|contents| - 1] != '\n' then 1 else 0
  }

  lemma {:induction false} NewlinesAfter(contents: string)
    ensures match After(contents, '\n')
            case None => Newlines(contents) == 0 && (contents != "" ==> contents[|contents| - 1] != '\n')
            case Some(next) =>
              && Newlines(contents) == 1 + Newlines(next)
              && (next == "" ==> contents[|contents| - 1] == '\n')
              && (next != "" ==> contents[|contents| - 1] == next[|next| - 1])
  {
    if contents != "" && contents[0] != '\n' {
      NewlinesAfter(contents[1..]);
    }
  }

  /** Newlines, plus one for an unended last line, are the lines a reader sees. */
  lemma {:induction false} LineCountIsLines(contents: string)
    ensures LineCount(contents) == |TextLines(contents)|
    decreases |contents|
  {
    NewlinesAfter(contents);
    var next := After(contents, '\n');
    if contents != "" && next.Some? {
      AfterShorter(contents, '\n');
      LineCountIsLines(next.value);
    }
  }

  function AllLinesAdded(contents: string): LineChanges {
    var lines := LineCount(contents);
    LineChanges(if lines > 0 then [(1, lines)] else [], [])
  }

  function AllInserted(lines: nat): (edits: seq<Edit>)
    ensures |edits| == lines && forall i :: 0 <= i < lines ==> edits[i].Insert?
  {
    seq(lines, _ => Insert)
  }

  lemma {:induction false} InsertedCounts(edits: seq<Edit>)
    requires forall i :: 0 <= i < |edits| ==> edits[i].Insert?
    ensures Deleted(edits) == 0 && NewLines(edits) == |edits| && ChangeLength(edits) == |edits|
  {
    if edits != [] { InsertedCounts(edits[1..]); }
  }

  /** A file compared with nothing changes as the patch from an empty file would say. */
  lemma AllLinesAddedIsEmptyEdit(contents: string)
    ensures AllLinesAdded(contents) == ChangesOf(Hunks(AllInserted(|TextLines(contents)|), 0, 0))
  {
    LineCountIsLines(contents);
    var edits := AllInserted(LineCount(contents));
    InsertedCounts(edits);
    if edits != [] {
      assert edits[..|edits|] == edits && edits[|edits|..] == [];
      var h := Hunk(0, 0, 0, |edits|);
      assert Hunks(edits, 0, 0) == [h] + Hunks([], 0, |edits|);
      assert ([h] + [])[1..] == [];
    }
  }

  /** One read of a file: some bytes, or a failure. */
  datatype Read = Bytes(chunk: string) | Failed

  function Joined(pieces: seq<Read>): string {
    if pieces == [] then "" else (if pieces[0].Bytes? then pieces[0].chunk else "") + Joined(pieces[1..])
  }

  ghost predicate CleanReads(pieces: seq<Read>) {
    forall i :: 0 <= i < |pieces| ==> pieces[i].Bytes? && pieces[i].chunk != ""
  }

  lemma {:induction false} NewlinesConcat(a: string, b: string)
    ensures Newlines(a + b) == Newlines(a) + Newlines(b)
  {
    if a == "" {
      assert a + b == b;
    } else {
      assert (a + b)[1..] == a[1..] + b;
      NewlinesConcat(a[1..], b);
    }
  }

  lemma PrefixMember(a: string, b: string, c: char)
    requires a <= b && c in a
    ensures c in b
  {
    var i :| 0 <= i < |a| && a[i] == c;
    assert b[i] == c;
  }

  lemma {:induction false} JoinedSnoc(pieces: seq<Read>, i: nat)
    requires i < |pieces| && pieces[i].Bytes?
    ensures Joined(pieces[..i + 1]) == Joined(pieces[..i]) + pieces[i].chunk
  {
    if i == 0 {
      assert pieces[..1][1..] == [];
    } else {
      JoinedSnoc(pieces[1..], i - 1);
      assert pieces[..i + 1][1..] == pieces[1..][..i] && pieces[..i][1..] == pieces[1..][..i - 1];
      assert pieces[1..][i - 1] == pieces[i];
    }
  }

  /** However the file is read in pieces, the count is that of the whole, and a NUL anywhere makes it zero. */
  method TextFileLineCount(isFile: bool, pieces: seq<Read>) returns (count: Option<nat>)
    requires forall i :: 0 <= i < |pieces| && pieces[i].Bytes? ==> pieces[i].chunk != ""
    ensures !isFile ==> count == Some(0)
    ensures isFile && CleanReads(pieces) && '\0' !in Joined(pieces) ==> count == Some(Saturated(LineCount(Joined(pieces))))
    ensures isFile && CleanReads(pieces) && '\0' in Joined(pieces) ==> count == Some(0)
    ensures forall k :: isFile && 0 <= k < |pieces| && CleanReads(pieces[..k]) && pieces[k].Failed? ==>
              count == if '\0' in Joined(pieces[..k]) then Some(0) else None
  {
    if !isFile {
      return Some(0);
    }
    var lines, hasBytes, endsWithNewline, i := 0, false, false, 0;
    while i < |pieces|
      invariant 0 <= i <= |pieces|
      invariant CleanReads(pieces[..i])
      invariant Counted(Joined(pieces[..i]), lines, hasBytes, endsWithNewline)
    {
      if pieces[i].Failed? {
        assert !CleanReads(pieces);
        assert forall k :: i < k < |pieces| ==> pieces[..k][i].Failed?;
        return None;
      }
      var chunk := pieces[i].chunk;
      JoinedSnoc(pieces, i);
      if '\0' in chunk {
        NulInside(pieces, i);
        forall k | i < k < |pieces| ensures '\0' in Joined(pieces[..k]) {
          NulInside(pieces[..k], i);
        }
        return Some(0);
      }
      CountedOn(Joined(pieces[..i]), chunk, lines, hasBytes, endsWithNewline);
      assert CleanReads(pieces[..i + 1]) by { CleanSnoc(pieces, i); }
      hasBytes := true;
      endsWithNewline := chunk[|chunk| - 1] == '\n';
      lines := SaturatingAdd(lines, Newlines(chunk));
      i := i + 1;
    }
    assert pieces[..|pieces|] == pieces;
    CountedWhole(Joined(pieces), lines, hasBytes, endsWithNewline);
    return Some(SaturatingAdd(lines, if hasBytes && !endsWithNewline then 1 else 0));
  }

  lemma CleanSnoc(pieces: seq<Read>, i: nat)
    requires i < |pieces| && CleanReads(pieces[..i]) && pieces[i].Bytes? && pieces[i].chunk != ""
    ensures CleanReads(pieces[..i + 1])
  {
  }

  lemma CountedWhole(text: string, lines: nat, hasBytes: bool, endsWithNewline: bool)
    requires Counted(text, lines, hasBytes, endsWithNewline)
    ensures SaturatingAdd(lines, if hasBytes && !endsWithNewline then 1 else 0) == Saturated(LineCount(text))
  {
  }

  /** What the loop knows of the bytes it has read. */
  ghost predicate Counted(sofar: string, lines: nat, hasBytes: bool, endsWithNewline: bool) {
    && '\0' !in sofar
    && lines == Saturated(Newlines(sofar))
    && (hasBytes <==> sofar != "")
    && (sofar != "" ==> (endsWithNewline <==> sofar[|sofar| - 1] == '\n'))
  }

  lemma CountedOn(sofar: string, chunk: string, lines: nat, hasBytes: bool, endsWithNewline: bool)
    requires Counted(sofar, lines, hasBytes, endsWithNewline) && chunk != "" && '\0' !in chunk
    ensures Counted(sofar + chunk, SaturatingAdd(lines, Newlines(chunk)), true, chunk[|chunk| - 1] == '\n')
  {
    NewlinesConcat(sofar, chunk);
    LastOfConcat(sofar, chunk, '\0');
  }

  lemma LastOfConcat(a: string, b: string, c: char)
    requires b != ""
    ensures (a + b)[|a + b| - 1] == b[|b| - 1]
    ensures c in a + b <==> c in a || c in b
  {
  }

  lemma NulInside(pieces: seq<Read>, i: nat)
    requires i < |pieces| && pieces[i].Bytes? && '\0' in pieces[i].chunk
    ensures '\0' in Joined(pieces)
  {
    JoinedSnoc(pieces, i);
    JoinedPrefix(pieces, i + 1);
    PrefixMember(Joined(pieces[..i + 1]), Joined(pieces), '\0');
  }

  lemma {:induction false} JoinedPrefix(pieces: seq<Read>, i: nat)
    requires i <= |pieces|
    ensures Joined(pieces[..i]) <= Joined(pieces)
  {
    if i > 0 {
      JoinedPrefix(pieces[1..], i - 1);
      assert pieces[..i][1..] == pieces[1..][..i - 1];
    }
  }
}
