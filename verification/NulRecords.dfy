/** Git's NUL-separated records and the readers that take them apart. Bytes are characters below 256. */
module NulRecords {
  import opened Wrappers
  import opened PathText
  import opened GitNumbers

  // ----- records

  function Records(output: string): (records: seq<string>)
    decreases |output|
  {
    var rest := After(output, '\0');
    if rest.None? then [output]
    else
      AfterShorter(output, '\0');
      [Before(output, '\0')] + Records(rest.value)
  }

  lemma FirstRecord(record: string, rest: string)
    requires '\0' !in record
    ensures Records(record + "\0" + rest) == [record] + Records(rest)
  {
    CutAtSeparator(record, '\0', rest);
    assert record + "\0" + rest == record + ['\0'] + rest;
  }

  predicate Field(text: string) {
    text != "" && '\0' !in text
  }

  // ----- status entries

  datatype StatusEntry = StatusEntry(path: string, staged: bool, unstaged: bool, untracked: bool)

  predicate TwoPaths(status: char) {
    status == 'R' || status == 'C'
  }

  function EntryOf(index: char, worktree: char, path: string): StatusEntry {
    StatusEntry(
      path,
      index != ' ' && index != '?',
      worktree != ' ' && worktree != '?',
      index == '?' && worktree == '?')
  }

  function StatusEntries(records: seq<string>): seq<StatusEntry>
    decreases |records|
  {
    if records == [] then []
    else if |records[0]| < 4 then StatusEntries(records[1..])
    else
      var record := records[0];
      var taken := if TwoPaths(record[0]) && |records| > 1 then 2 else 1;
      [EntryOf(record[0], record[1], record[3..])] + StatusEntries(records[taken..])
  }

  method ParseStatusEntries(output: string) returns (entries: seq<StatusEntry>)
    ensures entries == StatusEntries(NonEmpty(Records(output)))
  {
    var records := NonEmpty(Records(output));
    entries := [];
    var next := 0;
    while next < |records|
      invariant 0 <= next <= |records|
      invariant StatusEntries(records) == entries + StatusEntries(records[next..])
    {
      var record := records[next];
      assert records[next..][0] == record && records[next..][1..] == records[next + 1..];
      ghost var here := records[next..];
      next := next + 1;
      if |record| < 4 {
        continue;
      }
      if TwoPaths(record[0]) && next < |records| {
        next := next + 1;
        assert here[2..] == records[next..];
      }
      entries := entries + [EntryOf(record[0], record[1], record[3..])];
    }
    assert entries + [] == entries;
  }

  /** One entry as Git prints it: both columns, a space, the path, and the old path of a rename or copy. */
  datatype StatusRecord = StatusRecord(index: char, worktree: char, path: string, oldPath: Option<string>)

  /** A path, and an old path too exactly when a column says renamed or copied. */
  ghost predicate GoodStatus(r: StatusRecord) {
    && r.index != '\0' && r.worktree != '\0' && Field(r.path)
    && (r.oldPath.Some? ==> Field(r.oldPath.value))
    && (r.oldPath.Some? <==> TwoPaths(r.index) || TwoPaths(r.worktree))
  }

  /** The old path is expected, as the index column says so, or is too short to be read as an entry. */
  predicate Readable(r: StatusRecord) {
    r.oldPath.Some? && !TwoPaths(r.index) ==> |r.oldPath.value| < 4
  }

  function PrintStatus(r: StatusRecord): string {
    [r.index, r.worktree, ' '] + r.path + "\0" + if r.oldPath.Some? then r.oldPath.value + "\0" else ""
  }

  function PrintStatuses(rs: seq<StatusRecord>): string {
    if rs == [] then "" else PrintStatus(rs[0]) + PrintStatuses(rs[1..])
  }

  function StatusOf(rs: seq<StatusRecord>): seq<StatusEntry> {
    if rs == [] then [] else [EntryOf(rs[0].index, rs[0].worktree, rs[0].path)] + StatusOf(rs[1..])
  }

  lemma StatusRecords(r: StatusRecord, rest: string)
    requires GoodStatus(r)
    ensures var first := [r.index, r.worktree, ' '] + r.path;
            NonEmpty(Records(PrintStatus(r) + rest))
            == [first] + (if r.oldPath.Some? then [r.oldPath.value] else []) + NonEmpty(Records(rest))
  {
    var first := [r.index, r.worktree, ' '] + r.path;
    if r.oldPath.Some? {
      var old_ := r.oldPath.value;
      FirstRecord(old_, rest);
      FirstRecord(first, old_ + "\0" + rest);
      assert PrintStatus(r) + rest == first + "\0" + (old_ + "\0" + rest);
      var tail := [old_] + Records(rest);
      assert ([first] + tail)[1..] == tail && tail[1..] == Records(rest);
      assert NonEmpty(tail) == [old_] + NonEmpty(Records(rest));
    } else {
      FirstRecord(first, rest);
      assert PrintStatus(r) + rest == first + "\0" + rest;
      assert ([first] + Records(rest))[1..] == Records(rest);
    }
  }

  /** Reading back a printed status gives its entries when every record is readable, as all index renames are. */
  lemma {:induction false} StatusRoundTrip(rs: seq<StatusRecord>)
    requires forall i :: 0 <= i < |rs| ==> GoodStatus(rs[i]) && Readable(rs[i])
    ensures StatusEntries(NonEmpty(Records(PrintStatuses(rs)))) == StatusOf(rs)
  {
    if rs == [] {
      assert Records("") == [""];
    } else {
      var r, rest := rs[0], PrintStatuses(rs[1..]);
      StatusRoundTrip(rs[1..]);
      StatusRecords(r, rest);
      StatusStep(r, NonEmpty(Records(rest)));
    }
  }

  lemma {:induction false} StatusOfAt(rs: seq<StatusRecord>, i: nat)
    requires i < |rs|
    ensures |StatusOf(rs)| == |rs| && StatusOf(rs)[i] == EntryOf(rs[i].index, rs[i].worktree, rs[i].path)
  {
    if i > 0 {
      StatusOfAt(rs[1..], i - 1);
    } else if |rs| > 1 {
      StatusOfAt(rs[1..], 0);
    }
  }

  /**
   * What a printed status reads back as: one entry for each record, with its path, staged and unstaged as the
   * columns say, and untracked when both columns say so.
   */
  lemma StatusEntriesMean(rs: seq<StatusRecord>, i: nat)
    requires forall k :: 0 <= k < |rs| ==> GoodStatus(rs[k]) && Readable(rs[k])
    requires i < |rs|
    ensures var entries := StatusEntries(NonEmpty(Records(PrintStatuses(rs))));
            && |entries| == |rs|
            && entries[i].path == rs[i].path
            && (entries[i].staged <==> rs[i].index != ' ' && rs[i].index != '?')
            && (entries[i].unstaged <==> rs[i].worktree != ' ' && rs[i].worktree != '?')
            && (entries[i].untracked <==> rs[i].index == '?' && rs[i].worktree == '?')
  {
    StatusRoundTrip(rs);
    StatusOfAt(rs, i);
  }

  function RecordsOf(r: StatusRecord): seq<string> {
    [[r.index, r.worktree, ' '] + r.path] + if r.oldPath.Some? then [r.oldPath.value] else []
  }

  lemma StatusStep(r: StatusRecord, rest: seq<string>)
    requires GoodStatus(r) && Readable(r)
    ensures StatusEntries(RecordsOf(r) + rest) == [EntryOf(r.index, r.worktree, r.path)] + StatusEntries(rest)
  {
    var first := [r.index, r.worktree, ' '] + r.path;
    var records := RecordsOf(r) + rest;
    assert first[0] == r.index && first[1] == r.worktree && first[3..] == r.path;
    if r.oldPath.Some? {
      assert records[2..] == rest;
      assert records[1..] == [r.oldPath.value] + rest && records[1..][1..] == rest;
    } else {
      assert records[1..] == rest;
    }
  }

  /** One record is read as itself, whatever is printed after it. */
  ghost predicate ReadBefore(r: StatusRecord, rest: seq<StatusRecord>) {
    StatusEntries(NonEmpty(Records(PrintStatus(r) + PrintStatuses(rest))))
    == [EntryOf(r.index, r.worktree, r.path)] + StatusEntries(NonEmpty(Records(PrintStatuses(rest))))
  }

  /** Exactly the readable records are read as themselves whatever follows. */
  lemma StatusReadIff(r: StatusRecord)
    requires GoodStatus(r)
    ensures (forall rest :: ReadBefore(r, rest)) <==> Readable(r)
  {
    if Readable(r) {
      forall rest ensures ReadBefore(r, rest) {
        StatusRecords(r, PrintStatuses(rest));
        StatusStep(r, NonEmpty(Records(PrintStatuses(rest))));
      }
    } else {
      StatusRecords(r, "");
      assert Records("") == [""] && NonEmpty([""]) == [];
      OldPathMisread(r);
      assert !ReadBefore(r, []);
    }
  }

  lemma OldPathMisread(r: StatusRecord)
    requires GoodStatus(r) && !Readable(r)
    ensures |StatusEntries(RecordsOf(r) + [])| == 2
  {
    var records := RecordsOf(r) + [];
    var first := [r.index, r.worktree, ' '] + r.path;
    assert first[0] == r.index;
    assert records[1..] == [r.oldPath.value] && [r.oldPath.value][1..] == [];
    assert |StatusEntries([r.oldPath.value])| == 1;
  }

  /** A rename only the work tree shows breaks it: its old path is read as one more entry. */
  lemma WorktreeRenameMisread()
    ensures var r := StatusRecord(' ', 'R', "new", Some("old.txt"));
            && GoodStatus(r)
            && StatusOf([r]) == [StatusEntry("new", false, true, false)]
            && StatusEntries(NonEmpty(Records(PrintStatuses([r]))))
               == [StatusEntry("new", false, true, false), StatusEntry(".txt", true, true, false)]
  {
    var r := StatusRecord(' ', 'R', "new", Some("old.txt"));
    StatusRecords(r, "");
    assert Records("") == [""] && NonEmpty([""]) == [];
    var first := [' ', 'R', ' '] + "new";
    assert [r] == [r] + [] && PrintStatuses([r]) == PrintStatus(r) + "";
    assert [first] + ["old.txt"] + [] == [first, "old.txt"];
    assert first[3..] == "new" && "old.txt"[3..] == ".txt";
    assert StatusEntries(["old.txt"]) == [EntryOf('o', 'l', ".txt")] + StatusEntries([]);
    assert [first, "old.txt"][1..] == ["old.txt"];
  }

  // ----- name and status

  datatype CommitFile = CommitFile(path: string, status: char)

  function NameStatus(records: seq<string>): seq<CommitFile>
    decreases |records|
  {
    if records == [] then []
    else if records[0] == "" then NameStatus(records[1..])
    else if |records| == 1 then []
    else
      var status := records[0][0];
      if TwoPaths(status) && |records| > 2
      then [CommitFile(records[2], status)] + NameStatus(records[3..])
      else [CommitFile(records[1], status)] + NameStatus(records[2..])
  }

  /** One turn of the loop: an empty record is skipped, a status takes one path or two. */
  lemma NameStatusStep(records: seq<string>, i: nat, sofar: seq<CommitFile>)
    requires i < |records|
    ensures records[i] == "" ==> NameStatus(records[i..]) == NameStatus(records[i + 1..])
    ensures records[i] != "" && i + 1 == |records| ==> sofar + NameStatus(records[i..]) == sofar
    ensures records[i] != "" && i + 1 < |records| ==>
              var two := TwoPaths(records[i][0]) && i + 2 < |records|;
              sofar + NameStatus(records[i..])
              == sofar + [CommitFile(if two then records[i + 2] else records[i + 1], records[i][0])]
                 + NameStatus(records[if two then i + 3 else i + 2..])
  {
    var here := records[i..];
    assert here[0] == records[i] && here[1..] == records[i + 1..];
    if i + 1 < |records| { assert here[1] == records[i + 1] && here[2..] == records[i + 2..]; }
    if i + 2 < |records| { assert here[2] == records[i + 2] && here[3..] == records[i + 3..]; }
  }

  method ParseNameStatus(output: string) returns (files: seq<CommitFile>)
    ensures files == NameStatus(Records(output))
  {
    var records := Records(output);
    files := [];
    var next := 0;
    while next < |records|
      invariant 0 <= next <= |records|
      invariant NameStatus(records) == files + NameStatus(records[next..])
    {
      NameStatusStep(records, next, files);
      var rawStatus := records[next];
      next := next + 1;
      if rawStatus == "" {
        continue;
      }
      if next == |records| {
        return;
      }
      var path := records[next];
      next := next + 1;
      if TwoPaths(rawStatus[0]) && next < |records| {
        path := records[next];
        next := next + 1;
      }
      files := files + [CommitFile(path, rawStatus[0])];
    }
    assert files + [] == files;
  }

  /** A status, then its path, or the old and new paths of a rename or copy. */
  datatype NameRecord = NameRecord(status: string, oldPath: Option<string>, path: string)

  ghost predicate GoodName(r: NameRecord) {
    && Field(r.status) && Field(r.path)
    && (r.oldPath.Some? ==> Field(r.oldPath.value))
    && (r.oldPath.Some? <==> TwoPaths(r.status[0]))
  }

  function PrintName(r: NameRecord): string {
    r.status + "\0" + (if r.oldPath.Some? then r.oldPath.value + "\0" else "") + r.path + "\0"
  }

  function PrintNames(rs: seq<NameRecord>): string {
    if rs == [] then "" else PrintName(rs[0]) + PrintNames(rs[1..])
  }

  ghost predicate GoodNames(rs: seq<NameRecord>) {
    forall i :: 0 <= i < |rs| ==> GoodName(rs[i])
  }

  ghost function FilesOf(rs: seq<NameRecord>): seq<CommitFile>
    requires GoodNames(rs)
  {
    if rs == [] then []
    else
      assert GoodName(rs[0]);
      [CommitFile(rs[0].path, rs[0].status[0])] + FilesOf(rs[1..])
  }

  lemma NameRecords(r: NameRecord, rest: string)
    requires GoodName(r)
    ensures Records(PrintName(r) + rest)
            == [r.status] + (if r.oldPath.Some? then [r.oldPath.value] else []) + [r.path] + Records(rest)
  {
    FirstRecord(r.path, rest);
    if r.oldPath.Some? {
      var old_ := r.oldPath.value;
      FirstRecord(old_, r.path + "\0" + rest);
      FirstRecord(r.status, old_ + "\0" + (r.path + "\0" + rest));
      assert PrintName(r) + rest == r.status + "\0" + (old_ + "\0" + (r.path + "\0" + rest));
    } else {
      FirstRecord(r.status, r.path + "\0" + rest);
      assert PrintName(r) + rest == r.status + "\0" + (r.path + "\0" + rest);
    }
  }

  /** Reading back printed name-status records gives each file's new path and status letter. */
  lemma {:induction false} NameStatusRoundTrip(rs: seq<NameRecord>)
    requires GoodNames(rs)
    ensures NameStatus(Records(PrintNames(rs))) == FilesOf(rs)
  {
    if rs == [] {
      assert Records("") == [""] && NameStatus([""]) == NameStatus([]);
    } else {
      var r, rest := rs[0], PrintNames(rs[1..]);
      NameStatusRoundTrip(rs[1..]);
      NameRecords(r, rest);
      NameStep(r, Records(rest));
    }
  }

  lemma NameStep(r: NameRecord, rest: seq<string>)
    requires GoodName(r)
    ensures NameStatus([r.status] + (if r.oldPath.Some? then [r.oldPath.value] else []) + [r.path] + rest)
            == [CommitFile(r.path, r.status[0])] + NameStatus(rest)
  {
    var records := [r.status] + (if r.oldPath.Some? then [r.oldPath.value] else []) + [r.path] + rest;
    assert records[(if r.oldPath.Some? then 3 else 2)..] == rest;
  }

  // ----- line counts of one file

  datatype FileStats = Available(additions: nat, deletions: nat) | Unavailable

  function RestAfter(text: string): string {
    var rest := After(text, '\t');
    if rest.Some? then rest.value else ""
  }

  function At(records: seq<string>, i: nat): string {
    if i < |records| then records[i] else ""
  }

  /** The records of one file after another; `stats` sums what has matched so far. */
  function StatsFrom(records: seq<string>, expected: string, stats: FileStats): FileStats
    decreases |records|
  {
    if records == [] then stats
    else if records[0] == "" then StatsFrom(records[1..], expected, stats)
    else
      var additions := ParseU64(Before(records[0], '\t'));
      var deletions := ParseU64(Before(RestAfter(records[0]), '\t'));
      var path := RestAfter(RestAfter(records[0]));
      var rest := if path != "" then records[1..] else if |records| <= 3 then [] else records[3..];
      var matches := if path != "" then path == expected else At(records, 1) == expected || At(records, 2) == expected;
      if !matches then StatsFrom(rest, expected, stats)
      else if additions.None? || deletions.None? then Unavailable
      else StatsFrom(rest, expected, Added(stats, additions.value, deletions.value))
  }

  function Added(stats: FileStats, additions: nat, deletions: nat): FileStats {
    match stats
    case Unavailable => Available(additions, deletions)
    case Available(a, d) => Available(SaturatingAdd(a, additions), SaturatingAdd(d, deletions))
  }

  method ParseFileDiffStatsForPath(output: string, expected: string) returns (result: FileStats)
    ensures result == StatsFrom(Records(output), expected, Unavailable)
  {
    var records := Records(output);
    var stats := Unavailable;
    var index := 0;
    while index < |records|
      invariant 0 <= index <= |records|
      invariant StatsFrom(records, expected, Unavailable) == StatsFrom(records[index..], expected, stats)
    {
      ghost var here := records[index..];
      var record := records[index];
      index := index + 1;
      assert here[1..] == records[index..];
      if record == "" {
        continue;
      }
      var additions, deletions := Before(record, '\t'), Before(RestAfter(record), '\t');
      var path := RestAfter(RestAfter(record));
      var matchesPath;
      if path == "" {
        matchesPath := At(records, index) == expected || At(records, index + 1) == expected;
        assert At(here, 1) == At(records, index) && At(here, 2) == At(records, index + 1);
        index := if index + 2 <= |records| then index + 2 else |records|;
        assert (if |here| <= 3 then [] else here[3..]) == records[index..];
      } else {
        matchesPath := path == expected;
      }
      if !matchesPath {
        continue;
      }
      var added, removed := ParseU64(additions), ParseU64(deletions);
      if added.None? || removed.None? {
        return Unavailable;
      }
      stats := Added(stats, added.value, removed.value);
    }
    return stats;
  }

  /** One file's counts: absent for a binary file. */
  datatype StatRecord = StatRecord(counts: Option<(nat, nat)>, oldPath: Option<string>, path: string)

  ghost predicate GoodStat(r: StatRecord) {
    && Field(r.path)
    && (r.oldPath.Some? ==> Field(r.oldPath.value))
    && (r.counts.Some? ==> r.counts.value.0 < U64 && r.counts.value.1 < U64)
  }

  /** A count, or the dash of a binary file. */
  function CountWord(count: Option<nat>): string {
    if count.Some? then Decimal(count.value) else ['-']
  }

  function CountText(counts: Option<(nat, nat)>): string {
    var additions := if counts.Some? then Some(counts.value.0) else None;
    var deletions := if counts.Some? then Some(counts.value.1) else None;
    CountWord(additions) + ['\t'] + (CountWord(deletions) + ['\t'])
  }

  function PrintStat(r: StatRecord): string {
    if r.oldPath.Some?
    then CountText(r.counts) + "\0" + r.oldPath.value + "\0" + r.path + "\0"
    else CountText(r.counts) + r.path + "\0"
  }

  function PrintStats(rs: seq<StatRecord>): string {
    if rs == [] then "" else PrintStat(rs[0]) + PrintStats(rs[1..])
  }

  predicate Names(r: StatRecord, expected: string) {
    r.path == expected || r.oldPath == Some(expected)
  }

  function SumOf(rs: seq<StatRecord>, expected: string): (nat, nat) {
    if rs == [] then (0, 0)
    else
      var rest := SumOf(rs[1..], expected);
      if Names(rs[0], expected) && rs[0].counts.Some?
      then (rs[0].counts.value.0 + rest.0, rs[0].counts.value.1 + rest.1)
      else rest
  }

  ghost predicate SomeNamed(rs: seq<StatRecord>, expected: string) {
    exists i :: 0 <= i < |rs| && Names(rs[i], expected)
  }

  ghost predicate BinaryNamed(rs: seq<StatRecord>, expected: string) {
    exists i :: 0 <= i < |rs| && Names(rs[i], expected) && rs[i].counts.None?
  }

  lemma CountWordReads(count: Option<nat>)
    requires count.Some? ==> count.value < U64
    ensures ParseU64(CountWord(count)) == count
    ensures '\t' !in CountWord(count) && '\0' !in CountWord(count)
  {
    if count.Some? {
      ParseU64OfDecimal(count.value);
      DecimalPlain(count.value, '\t');
      DecimalPlain(count.value, '\0');
    }
  }

  /** Two words and a path, as the tabs mark them off. */
  lemma TabFields(a: string, d: string, path: string)
    requires '\t' !in a && '\t' !in d
    ensures var text := a + ['\t'] + (d + ['\t']) + path;
            && text != ""
            && Before(text, '\t') == a
            && Before(RestAfter(text), '\t') == d
            && RestAfter(RestAfter(text)) == path
  {
    var text := a + ['\t'] + (d + ['\t']) + path;
    assert text == a + ['\t'] + (d + ['\t'] + path);
    CutAtSeparator(a, '\t', d + ['\t'] + path);
    CutAtSeparator(d, '\t', path);
  }

  lemma CountFields(counts: Option<(nat, nat)>, path: string)
    requires counts.Some? ==> counts.value.0 < U64 && counts.value.1 < U64
    ensures var text := CountText(counts) + path;
            && text != ""
            && RestAfter(RestAfter(text)) == path
            && (counts.Some? ==> && ParseU64(Before(text, '\t')) == Some(counts.value.0)
                                 && ParseU64(Before(RestAfter(text), '\t')) == Some(counts.value.1))
            && (counts.None? ==> ParseU64(Before(text, '\t')).None?)
  {
    var additions := if counts.Some? then Some(counts.value.0) else None;
    var deletions := if counts.Some? then Some(counts.value.1) else None;
    CountWordReads(additions);
    CountWordReads(deletions);
    TabFields(CountWord(additions), CountWord(deletions), path);
  }

  lemma CountPlain(counts: Option<(nat, nat)>)
    requires counts.Some? ==> counts.value.0 < U64 && counts.value.1 < U64
    ensures '\0' !in CountText(counts)
  {
    CountWordReads(if counts.Some? then Some(counts.value.0) else None);
    CountWordReads(if counts.Some? then Some(counts.value.1) else None);
  }

  lemma StatRecords(r: StatRecord, rest: string)
    requires GoodStat(r)
    ensures Records(PrintStat(r) + rest)
            == (if r.oldPath.Some? then [CountText(r.counts), r.oldPath.value, r.path] else [CountText(r.counts) + r.path])
               + Records(rest)
  {
    CountPlain(r.counts);
    var text := CountText(r.counts);
    if r.oldPath.Some? {
      var old_ := r.oldPath.value;
      FirstRecord(r.path, rest);
      FirstRecord(old_, r.path + "\0" + rest);
      FirstRecord(text, old_ + "\0" + (r.path + "\0" + rest));
      assert PrintStat(r) + rest == text + "\0" + (old_ + "\0" + (r.path + "\0" + rest));
    } else {
      FirstRecord(text + r.path, rest);
      assert PrintStat(r) + rest == text + r.path + "\0" + rest;
    }
  }

  /** One record's effect on the sum. */
  lemma StatStep(r: StatRecord, rest: seq<string>, expected: string, stats: FileStats)
    requires GoodStat(r)
    ensures var records :=
              (if r.oldPath.Some? then [CountText(r.counts), r.oldPath.value, r.path] else [CountText(r.counts) + r.path])
              + rest;
            StatsFrom(records, expected, stats)
            == if !Names(r, expected) then StatsFrom(rest, expected, stats)
               else if r.counts.None? then Unavailable
               else StatsFrom(rest, expected, Added(stats, r.counts.value.0, r.counts.value.1))
  {
    if r.oldPath.Some? {
      var records := [CountText(r.counts), r.oldPath.value, r.path] + rest;
      CountFields(r.counts, "");
      assert CountText(r.counts) + "" == CountText(r.counts);
      assert records[0] == CountText(r.counts) && records[1] == r.oldPath.value && records[2] == r.path;
      assert (if |records| <= 3 then [] else records[3..]) == rest;
    } else {
      var records := [CountText(r.counts) + r.path] + rest;
      CountFields(r.counts, r.path);
      assert records[1..] == rest;
    }
  }

  function Total(stats: FileStats, more: (nat, nat), any: bool): FileStats {
    match stats
    case Available(a, d) => Available(Saturated(a + more.0), Saturated(d + more.1))
    case Unavailable => if any then Available(Saturated(more.0), Saturated(more.1)) else Unavailable
  }

  lemma NamedSplits(rs: seq<StatRecord>, expected: string)
    requires rs != []
    ensures SomeNamed(rs, expected) <==> Names(rs[0], expected) || SomeNamed(rs[1..], expected)
    ensures BinaryNamed(rs, expected)
            <==> (Names(rs[0], expected) && rs[0].counts.None?) || BinaryNamed(rs[1..], expected)
  {
    var tail := rs[1..];
    assert forall i :: 0 < i < |rs| ==> rs[i] == tail[i - 1];
    if SomeNamed(tail, expected) {
      var i :| 0 <= i < |tail| && Names(tail[i], expected);
      assert rs[i + 1] == tail[i];
    }
    if BinaryNamed(tail, expected) {
      var i :| 0 <= i < |tail| && Names(tail[i], expected) && tail[i].counts.None?;
      assert rs[i + 1] == tail[i];
    }
  }

  lemma AddedTotal(stats: FileStats, a: nat, d: nat, more: (nat, nat), any: bool)
    requires a < U64 && d < U64
    requires stats.Available? ==> stats.additions < U64 && stats.deletions < U64
    ensures Total(Added(stats, a, d), more, any) == Total(stats, (a + more.0, d + more.1), true)
  {
  }

  lemma FirstStat(rs: seq<StatRecord>, expected: string, stats: FileStats)
    requires rs != [] && GoodStat(rs[0])
    ensures var r, rest := rs[0], Records(PrintStats(rs[1..]));
            StatsFrom(Records(PrintStats(rs)), expected, stats)
            == if !Names(r, expected) then StatsFrom(rest, expected, stats)
               else if r.counts.None? then Unavailable
               else StatsFrom(rest, expected, Added(stats, r.counts.value.0, r.counts.value.1))
  {
    StatRecords(rs[0], PrintStats(rs[1..]));
    StatStep(rs[0], Records(PrintStats(rs[1..])), expected, stats);
  }

  lemma {:induction false} StatsOfRecords(rs: seq<StatRecord>, expected: string, stats: FileStats)
    requires forall i :: 0 <= i < |rs| ==> GoodStat(rs[i])
    requires stats.Available? ==> stats.additions < U64 && stats.deletions < U64
    ensures StatsFrom(Records(PrintStats(rs)), expected, stats)
            == if BinaryNamed(rs, expected) then Unavailable
               else Total(stats, SumOf(rs, expected), SomeNamed(rs, expected))
    decreases |rs|
  {
    if rs == [] {
      assert Records("") == [""] && StatsFrom([""], expected, stats) == StatsFrom([], expected, stats);
    } else {
      var r, tail := rs[0], rs[1..];
      FirstStat(rs, expected, stats);
      NamedSplits(rs, expected);
      if !Names(r, expected) {
        StatsOfRecords(tail, expected, stats);
      } else if r.counts.Some? {
        var (a, d) := r.counts.value;
        StatsOfRecords(tail, expected, Added(stats, a, d));
        AddedTotal(stats, a, d, SumOf(tail, expected), SomeNamed(tail, expected));
      }
    }
  }

  /**
   * The counts of a path are the sums over the records that name it, old path or new, and they are
   * unavailable exactly when no record names it or one that does is binary.
   */
  lemma FileStatsMatch(rs: seq<StatRecord>, expected: string)
    requires forall i :: 0 <= i < |rs| ==> GoodStat(rs[i])
    ensures var result := StatsFrom(Records(PrintStats(rs)), expected, Unavailable);
            && (result.Unavailable? <==> !SomeNamed(rs, expected) || BinaryNamed(rs, expected))
            && (result.Available? ==> && result.additions == Saturated(SumOf(rs, expected).0)
                                      && result.deletions == Saturated(SumOf(rs, expected).1))
  {
    StatsOfRecords(rs, expected, Unavailable);
  }
}
