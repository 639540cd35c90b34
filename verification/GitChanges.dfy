/**
 * Reading what git prints about changed files.
 *
 * A character stands for one byte.  `Status` and `NumStat` are the records git prints;
 * `PrintStatus` and `PrintNumStats` are the NUL-separated formats it prints them in, and
 * the two parsers are proved to be their inverses.
 */
module GitChanges {
  import opened Ordering
  import opened Text
  import opened Wrappers

  const U32_LIMIT := 0x1_0000_0000

  // ------------------------------------------------------------ status parser

  datatype Entry = Entry(index: char, worktree: char, path: string)

  predicate RenameOrCopy(index: char, worktree: char) {
    index == 'R' || index == 'C' || worktree == 'R' || worktree == 'C'
  }

  predicate LooksLikeEntry(field: string) {
    |field| >= 4 && field[2] == ' '
  }

  /** What the field iterator yields from here on. */
  function Entries(fields: seq<string>): seq<Entry> {
    if fields == [] then []
    else if !LooksLikeEntry(fields[0]) then Entries(fields[1..])
    else
      var entry := Entry(fields[0][0], fields[0][1], fields[0][3..]);
      var skipped := if RenameOrCopy(entry.index, entry.worktree) && |fields| > 1 then 2 else 1;
      [entry] + Entries(fields[skipped..])
  }

  /** A field too short for an entry, or without the space, is passed over; the origin of a rename or copy goes with its entry. */
  lemma FieldsInTurn(fields: seq<string>)
    requires fields != []
    ensures |fields[0]| < 4 || fields[0][2] != ' ' ==> Entries(fields) == Entries(fields[1..])
    ensures |fields[0]| >= 4 && fields[0][2] == ' ' ==>
              var index, worktree := fields[0][0], fields[0][1];
              var withOrigin := index == 'R' || index == 'C' || worktree == 'R' || worktree == 'C';
              Entries(fields) == [Entry(index, worktree, fields[0][3..])]
                                 + Entries(if withOrigin && |fields| > 1 then fields[2..] else fields[1..])
  {}

  method ParsePorcelainStatus(output: string) returns (entries: seq<Entry>)
    ensures entries == Entries(Split(output, '\0'))
  {
    entries := [];
    var fields := Split(output, '\0');
    var next := 0;
    while next < |fields|
      invariant 0 <= next <= |fields|
      invariant entries + Entries(fields[next..]) == Entries(fields)
    {
      var field := fields[next];
      ghost var rest := fields[next..];
      assert rest[1..] == fields[next + 1..];
      next := next + 1;
      if !LooksLikeEntry(field) { continue; }
      var index, worktree := field[0], field[1];
      if RenameOrCopy(index, worktree) && next < |fields| {
        assert rest[2..] == fields[next + 1..];
        next := next + 1;
      }
      entries := entries + [Entry(index, worktree, field[3..])];
    }
  }

  /** A record git reports; a renamed or copied file also names its origin. */
  datatype Status = Status(index: char, worktree: char, path: string, origin: Option<string>)

  ghost predicate WellFormedStatus(s: Status) {
    && s.index != '\0' && s.worktree != '\0'
    && s.path != [] && Free(s.path, '\0') && (s.origin.Some? ==> Free(s.origin.value, '\0'))
    && (s.origin.Some? <==> s.index == 'R' || s.index == 'C' || s.worktree == 'R' || s.worktree == 'C')
  }

  function PrintOneStatus(s: Status): string {
    [s.index, s.worktree, ' '] + s.path + ['\0']
    + if s.origin.Some? then s.origin.value + ['\0'] else []
  }

  function PrintStatus(records: seq<Status>): string {
    if records == [] then [] else PrintOneStatus(records[0]) + PrintStatus(records[1..])
  }

  function Reported(records: seq<Status>): seq<Entry> {
    seq(|records|, i requires 0 <= i < |records| => Entry(records[i].index, records[i].worktree, records[i].path))
  }

  lemma EntriesOfOne(s: Status, text: string)
    requires WellFormedStatus(s)
    ensures Entries(Split(PrintOneStatus(s) + text, '\0')) ==
            [Entry(s.index, s.worktree, s.path)] + Entries(Split(text, '\0'))
  {
    var field := [s.index, s.worktree, ' '] + s.path;
    var rest := Split(text, '\0');
    assert field[3..] == s.path;
    if s.origin.Some? {
      var tail := s.origin.value + ['\0'] + text;
      assert PrintOneStatus(s) + text == field + ['\0'] + tail;
      SplitAfterField(field, '\0', tail);
      SplitAfterField(s.origin.value, '\0', text);
      assert ([field] + ([s.origin.value] + rest))[2..] == rest;
    } else {
      assert PrintOneStatus(s) + text == field + ['\0'] + text;
      SplitAfterField(field, '\0', text);
      assert ([field] + rest)[1..] == rest;
    }
  }

  /** Printing then parsing gives every record back, even when an origin looks like an entry. */
  lemma {:induction false} StatusRoundTrip(records: seq<Status>)
    requires forall i :: 0 <= i < |records| ==> WellFormedStatus(records[i])
    ensures Entries(Split(PrintStatus(records), '\0')) == Reported(records)
  {
    if records != [] {
      var s, rest := records[0], records[1..];
      StatusRoundTrip(rest);
      EntriesOfOne(s, PrintStatus(rest));
      assert Reported(records) == [Entry(s.index, s.worktree, s.path)] + Reported(rest);
    }
  }

  // ----------------------------------------------------------------- decimals

  predicate IsDigit(c: char) {
    '0' <= c <= '9'
  }

  predicate AllDigits(s: string) {
    forall i :: 0 <= i < |s| ==> IsDigit(s[i])
  }

  function Value(s: string): nat
    requires AllDigits(s)
  {
    if s == [] then 0 else 10 * Value(s[..|s| - 1]) + (s[|s| - 1] as int - '0' as int)
  }

  /** A 32-bit number: an optional plus sign, then one or more digits, and no overflow. */
  function ParseU32(s: string): Option<nat> {
    var digits := if s != [] && s[0] == '+' then s[1..] else s;
    if digits == [] || !AllDigits(digits) || Value(digits) >= U32_LIMIT then None else Some(Value(digits))
  }

  lemma ParseU32Iff(s: string, n: nat)
    ensures ParseU32(s) == Some(n) <==>
            n < 0x1_0000_0000 && (IsNumeral(s, n) || (s != [] && s[0] == '+' && IsNumeral(s[1..], n)))
  {}

  predicate IsNumeral(s: string, n: nat) {
    s != [] && (forall i :: 0 <= i < |s| ==> '0' <= s[i] <= '9') && Value(s) == n
  }

  function Digits(n: nat): (s: string)
    ensures s != []
  {
    var last := ['0' + (n % 10) as char];
    if n < 10 then last else Digits(n / 10) + last
  }

  lemma {:induction false} DigitsValue(n: nat)
    ensures AllDigits(Digits(n)) && Value(Digits(n)) == n
  {
    if n >= 10 {
      DigitsValue(n / 10);
      assert Digits(n)[..|Digits(n)| - 1] == Digits(n / 10);
    }
  }

  // ----------------------------------------------------------- numstat parser

  type Stats = map<string, (nat, nat)>

  /** Cuts a field at its first two tabs; the third part may hold more of them. */
  function SplitInThree(field: string): Option<(string, string, string)> {
    var i := IndexOf(field, '\t');
    if i == |field| then None
    else
      var rest := field[i + 1..];
      var j := IndexOf(rest, '\t');
      if j == |rest| then None else Some((field[..i], rest[..j], rest[j + 1..]))
  }

  /** Both ways: the first two parts are what stands before the first two tabs. */
  lemma SplitInThreeIff(field: string, a: string, d: string, path: string)
    ensures SplitInThree(field) == Some((a, d, path)) <==>
            field == a + ['\t'] + d + ['\t'] + path && Free(a, '\t') && Free(d, '\t')
  {
    if SplitInThree(field) == Some((a, d, path)) {
      var rest := field[|a| + 1..];
      assert field == a + ['\t'] + rest && rest == d + ['\t'] + path;
    }
    if field == a + ['\t'] + d + ['\t'] + path && Free(a, '\t') && Free(d, '\t') { ThreeParts(a, d, path); }
  }

  function CountOf(s: string): nat {
    match ParseU32(s)
    case Some(n) => n
    case None => 0
  }

  /** The map after the fields from here on, starting from what was read before. */
  function StatsOf(fields: seq<string>, before: Stats): Stats {
    if fields == [] then before
    else
      match SplitInThree(fields[0])
      case None => StatsOf(fields[1..], before)
      case Some((additions, deletions, path)) =>
        var counts := (CountOf(additions), CountOf(deletions));
        if path != [] then StatsOf(fields[1..], before[path := counts])
        else if |fields| < 3 then before
        else StatsOf(fields[3..], before[fields[2] := counts])
  }

  method ParseNumstat(output: string) returns (stats: Stats)
    ensures stats == StatsOf(Split(output, '\0'), map[])
  {
    stats := map[];
    var fields := Split(output, '\0');
    var next := 0;
    while next < |fields|
      invariant 0 <= next <= |fields|
      invariant StatsOf(fields[next..], stats) == StatsOf(fields, map[])
    {
      var field := fields[next];
      ghost var rest := fields[next..];
      assert rest[1..] == fields[next + 1..];
      next := next + 1;
      var parts := SplitInThree(field);
      if parts.None? { continue; }
      var (additions, deletions, path) := parts.value;
      if path == [] {
        if next + 1 >= |fields| { break; }
        path := fields[next + 1];
        assert rest[2] == path && rest[3..] == fields[next + 2..];
        next := next + 2;
      }
      stats := stats[path := (CountOf(additions), CountOf(deletions))];
    }
  }

  datatype Count = Binary | Lines(n: nat)

  /** A record git reports; the origin is printed only for a rename. */
  datatype NumStat = NumStat(additions: Count, deletions: Count, path: string, origin: Option<string>)

  ghost predicate WellFormedNumStat(s: NumStat) {
    && Free(s.path, '\0')
    && (match s.origin case Some(origin) => Free(origin, '\0') case None => s.path != [])
  }

  function PrintCount(c: Count): string {
    match c
    case Binary => ['-']
    case Lines(n) => Digits(n)
  }

  function PrintOneNumStat(s: NumStat): string {
    PrintCount(s.additions) + ['\t'] + PrintCount(s.deletions) + ['\t']
    + (if s.origin.Some? then ['\0'] + s.origin.value + ['\0'] else [])
    + s.path + ['\0']
  }

  function PrintNumStats(records: seq<NumStat>): string {
    if records == [] then [] else PrintOneNumStat(records[0]) + PrintNumStats(records[1..])
  }

  /** A count as the list shows it: binary files and counts beyond 32 bits are shown as zero. */
  function Shown(c: Count): nat {
    match c
    case Binary => 0
    case Lines(n) => if n < U32_LIMIT then n else 0
  }

  function RecordOne(s: NumStat, before: Stats): Stats {
    before[s.path := (Shown(s.additions), Shown(s.deletions))]
  }

  function Recorded(records: seq<NumStat>, before: Stats): Stats {
    if records == [] then before else Recorded(records[1..], RecordOne(records[0], before))
  }

  lemma CountRoundTrip(c: Count)
    ensures CountOf(PrintCount(c)) == Shown(c)
    ensures Shown(c) == match c case Binary => 0 case Lines(n) => if n < 4294967296 then n else 0
    ensures Free(PrintCount(c), '\t') && Free(PrintCount(c), '\0')
  {
    match c
    case Binary =>
    case Lines(n) =>
      DigitsValue(n);
      assert forall i :: 0 <= i < |Digits(n)| ==> IsDigit(Digits(n)[i]);
  }

  lemma ThreeParts(a: string, d: string, path: string)
    requires Free(a, '\t') && Free(d, '\t')
    ensures SplitInThree(a + ['\t'] + d + ['\t'] + path) == Some((a, d, path))
  {
    var field := a + ['\t'] + d + ['\t'] + path;
    var rest := d + ['\t'] + path;
    assert field == a + ['\t'] + rest;
    IndexOfFirst(a, '\t', rest);
    assert field[..|a|] == a && field[|a| + 1..] == rest;
    IndexOfFirst(d, '\t', path);
    assert rest[..|d|] == d && rest[|d| + 1..] == path;
  }

  lemma StatsOfPlain(s: NumStat, text: string, before: Stats)
    requires WellFormedNumStat(s) && s.origin.None?
    ensures StatsOf(Split(PrintOneNumStat(s) + text, '\0'), before) == StatsOf(Split(text, '\0'), RecordOne(s, before))
  {
    var a, d, rest := PrintCount(s.additions), PrintCount(s.deletions), Split(text, '\0');
    CountRoundTrip(s.additions);
    CountRoundTrip(s.deletions);
    var field := a + ['\t'] + d + ['\t'] + s.path;
    assert PrintOneNumStat(s) + text == field + ['\0'] + text;
    SplitAfterField(field, '\0', text);
    ThreeParts(a, d, s.path);
    assert ([field] + rest)[1..] == rest;
  }

  lemma SplitThreeFields(first: string, second: string, third: string, text: string)
    requires Free(first, '\0') && Free(second, '\0') && Free(third, '\0')
    ensures Split(first + ['\0'] + (second + ['\0'] + (third + ['\0'] + text)), '\0') ==
            [first, second, third] + Split(text, '\0')
  {
    SplitAfterField(first, '\0', second + ['\0'] + (third + ['\0'] + text));
    SplitAfterField(second, '\0', third + ['\0'] + text);
    SplitAfterField(third, '\0', text);
  }

  lemma Reassociate(first: string, second: string, third: string, text: string)
    ensures (first + (['\0'] + second + ['\0']) + third + ['\0']) + text ==
            first + ['\0'] + (second + ['\0'] + (third + ['\0'] + text))
  {}

  lemma StatsOfThreeFields(a: string, d: string, three: seq<string>, rest: seq<string>, before: Stats)
    requires |three| == 3 && SplitInThree(three[0]) == Some((a, d, []))
    ensures StatsOf(three + rest, before) == StatsOf(rest, before[three[2] := (CountOf(a), CountOf(d))])
  {
    assert (three + rest)[3..] == rest;
  }

  lemma StatsOfRename(s: NumStat, text: string, before: Stats)
    requires WellFormedNumStat(s) && s.origin.Some?
    ensures StatsOf(Split(PrintOneNumStat(s) + text, '\0'), before) == StatsOf(Split(text, '\0'), RecordOne(s, before))
  {
    var a, d, rest := PrintCount(s.additions), PrintCount(s.deletions), Split(text, '\0');
    CountRoundTrip(s.additions);
    CountRoundTrip(s.deletions);
    var field := a + ['\t'] + d + ['\t'];
    ThreeParts(a, d, []);
    assert field + [] == field;
    Reassociate(field, s.origin.value, s.path, text);
    SplitThreeFields(field, s.origin.value, s.path, text);
    StatsOfThreeFields(a, d, [field, s.origin.value, s.path], rest, before);
  }

  /** Printing then parsing gives the counts of every record, the last one of a path winning. */
  lemma {:induction false} NumStatRoundTrip(records: seq<NumStat>, before: Stats)
    requires forall i :: 0 <= i < |records| ==> WellFormedNumStat(records[i])
    ensures StatsOf(Split(PrintNumStats(records), '\0'), before) == Recorded(records, before)
    decreases |records|
  {
    if records == [] {
      assert Split([], '\0')[1..] == [];
      assert SplitInThree([]).None?;
    } else {
      var s, text := records[0], PrintNumStats(records[1..]);
      NumStatRoundTrip(records[1..], RecordOne(s, before));
      if s.origin.None? { StatsOfPlain(s, text, before); } else { StatsOfRename(s, text, before); }
    }
  }

  /** The map holds a path iff a record names it, with the counts of the last one that does. */
  lemma {:induction false} LastRecordWins(records: seq<NumStat>, before: Stats, i: nat)
    requires i < |records| && forall j :: i < j < |records| ==> records[j].path != records[i].path
    ensures records[i].path in Recorded(records, before)
    ensures Recorded(records, before)[records[i].path] == (Shown(records[i].additions), Shown(records[i].deletions))
    decreases |records|
  {
    var s, rest := records[0], records[1..];
    var after := RecordOne(s, before);
    if i > 0 {
      assert rest[i - 1] == records[i];
      LastRecordWins(rest, after, i - 1);
    } else {
      forall j | 0 <= j < |rest| ensures rest[j].path != s.path { assert rest[j] == records[j + 1]; }
      OtherPathsKept(rest, after, s.path);
    }
  }

  lemma {:induction false} OtherPathsKept(records: seq<NumStat>, before: Stats, path: string)
    requires forall j :: 0 <= j < |records| ==> records[j].path != path
    ensures path in Recorded(records, before) <==> path in before
    ensures path in before ==> Recorded(records, before)[path] == before[path]
    decreases |records|
  {
    if records != [] {
      var s, rest := records[0], records[1..];
      forall j | 0 <= j < |rest| ensures rest[j].path != path { assert rest[j] == records[j + 1]; }
      OtherPathsKept(rest, RecordOne(s, before), path);
    }
  }

  // ------------------------------------------------------- the changed files

  datatype Change = Untracked | Added | Deleted | Renamed | Copied | Modified

  function StatusOf(index: char, worktree: char): Change {
    if index == '?' && worktree == '?' then Untracked
    else if index == 'A' || (index == '?' && worktree != '?') then Added
    else if index == 'D' || worktree == 'D' then Deleted
    else if index == 'R' then Renamed
    else if index == 'C' then Copied
    else Modified
  }

  /** The status a file is listed with, for every pair of codes. */
  lemma StatusIff(index: char, worktree: char)
    ensures StatusOf(index, worktree) == Untracked <==> index == '?' && worktree == '?'
    ensures StatusOf(index, worktree) == Added <==> index == 'A' || (index == '?' && worktree != '?')
    ensures StatusOf(index, worktree) == Deleted <==> index == 'D' || (worktree == 'D' && index != 'A' && index != '?')
    ensures StatusOf(index, worktree) == Renamed <==> index == 'R' && worktree != 'D'
    ensures StatusOf(index, worktree) == Copied <==> index == 'C' && worktree != 'D'
  {}

  datatype ChangedFile = ChangedFile(path: string, status: Change, additions: nat, deletions: nat)

  predicate PathLe(a: ChangedFile, b: ChangedFile) {
    StringLe(a.path, b.path)
  }

  lemma PathLeIsTotalPreorder()
    ensures TotalPreorder(PathLe)
  {
    forall a: ChangedFile, b: ChangedFile ensures PathLe(a, b) || PathLe(b, a) { StringLeTotal(a.path, b.path); }
    forall a: ChangedFile, b: ChangedFile, c: ChangedFile | PathLe(a, b) && PathLe(b, c) ensures PathLe(a, c) {
      StringLeTransitive(a.path, b.path, c.path);
    }
  }

  /** One entry joined with its counts; without counts the file's lines are counted as added. */
  function Joined(entry: Entry, stats: Stats, lineCount: string -> nat): ChangedFile {
    var counts := if entry.path in stats then stats[entry.path] else (lineCount(entry.path), 0);
    ChangedFile(entry.path, StatusOf(entry.index, entry.worktree), counts.0, counts.1)
  }

  function JoinedAll(entries: seq<Entry>, stats: Stats, lineCount: string -> nat): seq<ChangedFile> {
    seq(|entries|, i requires 0 <= i < |entries| => Joined(entries[i], stats, lineCount))
  }

  method JoinEntries(entries: seq<Entry>, stats: Stats, lineCount: string -> nat) returns (files: seq<ChangedFile>)
    ensures files == JoinedAll(entries, stats, lineCount)
  {
    files := [];
    for i := 0 to |entries|
      invariant files == JoinedAll(entries[..i], stats, lineCount)
    {
      var entry := entries[i];
      var counts := if entry.path in stats then stats[entry.path] else (lineCount(entry.path), 0);
      files := files + [ChangedFile(entry.path, StatusOf(entry.index, entry.worktree), counts.0, counts.1)];
    }
    assert entries[..|entries|] == entries;
  }

  predicate Blank(s: string) {
    forall i :: 0 <= i < |s| ==> s[i] == ' ' || '\t' <= s[i] <= '\r'
  }

  lemma BlankIff(s: string)
    ensures Blank(s) <==> forall i :: 0 <= i < |s| ==> s[i] in {' ', '\t', '\n', '\r', '\U{000B}', '\U{000C}'}
  {}

  datatype HeadNumstat = Output(text: string) | MissingHead | Failed

  /** The list shown for a repository, from what the two git commands print. */
  method GetChangedFiles(status: string, head: HeadNumstat, lineCount: string -> nat) returns (r: Option<seq<ChangedFile>>)
    ensures Blank(status) ==> r == Some([])
    ensures !Blank(status) && head.Failed? ==> r == None
    ensures !Blank(status) && !head.Failed? ==>
              var stats := if head.Output? then StatsOf(Split(head.text, '\0'), map[]) else map[];
              var listed := JoinedAll(Entries(Split(status, '\0')), stats, lineCount);
              && r.Some? && Ordered(PathLe, r.value) && multiset(r.value) == multiset(listed)
              && SamePeers(PathLe, r.value, listed)
  {
    if Blank(status) { return Some([]); }
    if head.Failed? { return None; }
    var text := if head.Output? then head.text else [];
    var stats := ParseNumstat(text);
    assert head.MissingHead? ==> stats == map[] by {
      assert Split([], '\0')[1..] == [] && SplitInThree([]).None?;
    }
    var entries := ParsePorcelainStatus(status);
    var files := JoinEntries(entries, stats, lineCount);
    PathLeIsTotalPreorder();
    SortOrders(PathLe, files);
    SortIsStable(PathLe, files);
    r := Some(Sort(PathLe, files));
  }

  lemma PrintedStatusIsNotBlank(records: seq<Status>)
    requires records != []
    ensures !Blank(PrintStatus(records))
  {
    var s := records[0];
    assert PrintOneStatus(s)[3 + |s.path|] == '\0';
    assert PrintStatus(records)[3 + |s.path|] == '\0';
  }

  /** End to end: the records git reported, each joined with the last counts printed for its path. */
  lemma ChangedFilesOfPrinted(records: seq<Status>, counts: seq<NumStat>, lineCount: string -> nat)
    requires records != []
    requires forall i :: 0 <= i < |records| ==> WellFormedStatus(records[i])
    requires forall i :: 0 <= i < |counts| ==> WellFormedNumStat(counts[i])
    ensures !Blank(PrintStatus(records))
    ensures JoinedAll(Entries(Split(PrintStatus(records), '\0')), StatsOf(Split(PrintNumStats(counts), '\0'), map[]), lineCount)
            == seq(|records|, i requires 0 <= i < |records| =>
                 Joined(Entry(records[i].index, records[i].worktree, records[i].path), Recorded(counts, map[]), lineCount))
  {
    PrintedStatusIsNotBlank(records);
    StatusRoundTrip(records);
    NumStatRoundTrip(counts, map[]);
  }
}
