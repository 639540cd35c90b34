/**
 * The message queues: one file, merged under a lock held for the whole update.
 *
 * A file that is text but not a JSON object is moved to a fresh quarantine name before
 * anything replaces it.  `trace` records the disk after every file operation, so what
 * holds of every disk in the trace holds whenever a crash comes.
 */
module QueueStore {
  import opened Wrappers
  import opened DiskModel
  import opened Documents

  /** serde_json and UTF-8: printing an object gives text that parses to it again. */
  datatype Codec = Codec(encode: Fields -> Bytes, isText: Bytes -> bool, parse: Bytes -> Option<Fields>)

  ghost predicate Faithful(c: Codec) {
    forall q :: c.isText(c.encode(q)) && c.parse(c.encode(q)) == Some(q)
  }

  function Updated(queues: Fields, updates: Fields): Fields {
    Merged(queues, Patch(updates, false))
  }

  /** The queues a disk holds: None where the file is not even text, and then no update gets past reading it. */
  function QueuesOf(c: Codec, d: Disk): Option<Fields> {
    if !Exists(d, Document) then Some(map[])
    else if !c.isText(Content(d, Document)) then None
    else if c.parse(Content(d, Document)).None? then Some(map[])
    else c.parse(Content(d, Document))
  }

  /** A text file that is not a JSON object: to be preserved. */
  predicate Malformed(c: Codec, d: Disk) {
    Exists(d, Document) && c.isText(Content(d, Document)) && c.parse(Content(d, Document)).None?
  }

  /** Every file but the pending one is durable, and shares no inode with it. */
  ghost predicate DirOk(inodes: map<nat, Inode>, dir: Dir) {
    forall n :: n in dir.entries && n != Pending ==>
      && dir.entries[n] in inodes && inodes[dir.entries[n]].synced
      && (Pending in dir.entries ==> dir.entries[Pending] != dir.entries[n])
  }

  /** No directory a crash could fall back to names the inode the pending file is written to. */
  ghost predicate PendingPrivate(d: Disk) {
    forall k, n :: 0 <= k < |d.journal| && n in d.journal[k].entries && n != Pending && Exists(d, Pending) ==>
      d.journal[k].entries[n] != InodeOf(d, Pending)
  }

  ghost predicate QueueDisk(d: Disk) {
    && WellFormed(d) && PendingPrivate(d)
    && forall k :: 0 <= k < |d.journal| ==> DirOk(d.inodes, d.journal[k])
  }

  // ------------------------------------------------------------- crash safety

  /** What was a malformed document at `start` is still there under a quarantine name. */
  ghost predicate Preserved(c: Codec, start: Disk, dir: Dir) {
    Malformed(c, start) ==> exists q :: Quarantined(q) in dir.entries && dir.entries[Quarantined(q)] == InodeOf(start, Document)
  }

  predicate SameDocument(start: Disk, dir: Dir) {
    if Exists(start, Document) then Document in dir.entries && dir.entries[Document] == InodeOf(start, Document)
    else Document !in dir.entries
  }

  /** What earlier updates quarantined stays where it is. */
  ghost predicate EarlierKept(start: Disk, dir: Dir)
    requires |start.journal| > 0
  {
    forall q :: Quarantined(q) in Now(start).entries ==>
      Quarantined(q) in dir.entries && dir.entries[Quarantined(q)] == Now(start).entries[Quarantined(q)]
  }

  /**
   * A directory made since `start`: it has the old document; or, the malformed document
   * being quarantined, none; or the whole new document, durably.
   */
  ghost predicate MadeSince(c: Codec, start: Disk, after: Bytes, inodes: map<nat, Inode>, dir: Dir)
    requires |start.journal| > 0
  {
    && EarlierKept(start, dir)
    && (SameDocument(start, dir)
        || (Preserved(c, start, dir)
            && if Document in dir.entries then
                 dir.entries[Document] in inodes && inodes[dir.entries[Document]] == Inode(after, true)
               else Malformed(c, start)))
  }

  /** An inode that was unused at `start`, or that of a pending file left over then. */
  predicate Ours(start: Disk, inode: nat) {
    inode !in start.inodes || (Exists(start, Pending) && InodeOf(start, Pending) == inode)
  }

  /** The files a directory names, pending ones apart, are what they were at `start`. */
  ghost predicate FilesAsAt(start: Disk, inodes: map<nat, Inode>, dir: Dir) {
    forall n :: n in dir.entries && n != Pending && !Ours(start, dir.entries[n]) ==>
      dir.entries[n] in inodes && inodes[dir.entries[n]] == start.inodes[dir.entries[n]]
  }

  /** Wherever a crash of `d` falls back to, it finds a directory as it was at `start`, or one made since. */
  ghost predicate Safe(c: Codec, start: Disk, after: Bytes, d: Disk)
    requires |start.journal| > 0
  {
    forall k :: 0 <= k < |d.journal| ==>
      && FilesAsAt(start, d.inodes, d.journal[k])
      && (d.journal[k] in start.journal || MadeSince(c, start, after, d.inodes, d.journal[k]))
  }

  /** The current directory once reading is over and before the commit. */
  ghost predicate ReadyToCommit(c: Codec, start: Disk, d: Disk) {
    && |start.journal| > 0 && |d.journal| > 0
    && EarlierKept(start, Now(d)) && (Exists(d, Pending) ==> Ours(start, InodeOf(d, Pending)))
    && if Malformed(c, start) then Document !in Now(d).entries && Preserved(c, start, Now(d))
       else SameDocument(start, Now(d))
  }

  lemma FlushKeeps(c: Codec, start: Disk, after: Bytes, d: Disk, k: nat)
    requires QueueDisk(start) && QueueDisk(d) && Safe(c, start, after, d) && k < |d.journal|
    ensures QueueDisk(Flush(d, k)) && Safe(c, start, after, Flush(d, k))
    ensures Now(Flush(d, k)) == Now(d)
    ensures forall i :: 0 <= i < |Flush(d, k).journal| ==> Flush(d, k).journal[i] == d.journal[i + k]
  {
    var t := Flush(d, k);
    assert forall i :: 0 <= i < |t.journal| ==> t.journal[i] == d.journal[i + k];
  }

  /** Writing to the private inode of the pending file changes nothing a crash could read. */
  lemma WriteKeeps(c: Codec, start: Disk, after: Bytes, d: Disk, written: Inode)
    requires QueueDisk(start) && QueueDisk(d) && Safe(c, start, after, d) && Exists(d, Pending)
    ensures var t := d.(inodes := d.inodes[InodeOf(d, Pending) := written]);
            QueueDisk(t) && Safe(c, start, after, t)
  {
    var t := d.(inodes := d.inodes[InodeOf(d, Pending) := written]);
    forall k | 0 <= k < |t.journal|
      ensures DirOk(t.inodes, t.journal[k]) && FilesAsAt(start, t.inodes, t.journal[k])
    {
      assert DirOk(d.inodes, d.journal[k]) && FilesAsAt(start, d.inodes, d.journal[k]);
    }
  }

  /** One more directory operation, whose directory is one made since `start`. */
  lemma ExtendKeeps(c: Codec, start: Disk, after: Bytes, d: Disk, t: Disk, dir: Dir)
    requires QueueDisk(start) && QueueDisk(d) && Safe(c, start, after, d) && t.journal == d.journal + [dir]
    requires forall i :: i in d.inodes ==> i in t.inodes && t.inodes[i] == d.inodes[i]
    requires forall n :: n in dir.entries ==> dir.entries[n] in t.inodes
    requires DirOk(t.inodes, dir) && PendingPrivate(t) && Now(d).commits <= dir.commits
    requires FilesAsAt(start, t.inodes, dir) && MadeSince(c, start, after, t.inodes, dir)
    ensures QueueDisk(t) && Safe(c, start, after, t)
  {
    forall k | 0 <= k < |d.journal| ensures DirOk(t.inodes, d.journal[k]) && FilesAsAt(start, t.inodes, d.journal[k]) {
      assert DirOk(d.inodes, d.journal[k]) && FilesAsAt(start, d.inodes, d.journal[k]);
    }
  }

  lemma CreateKeeps(c: Codec, start: Disk, after: Bytes, d: Disk, unused: nat)
    requires QueueDisk(start) && QueueDisk(d) && Safe(c, start, after, d) && ReadyToCommit(c, start, d)
    requires unused !in d.inodes && unused !in start.inodes
    ensures var t := Create(d, Pending, unused);
            QueueDisk(t) && Safe(c, start, after, t) && ReadyToCommit(c, start, t) && Exists(t, Pending)
  {
    if Exists(d, Pending) {
      WriteKeeps(c, start, after, d, Inode([], false));
    } else {
      var t := Create(d, Pending, unused);
      ExtendKeeps(c, start, after, d, t, Now(t));
    }
  }

  lemma QuarantineKeeps(c: Codec, start: Disk, after: Bytes, d: Disk, q: nat)
    requires QueueDisk(start) && QueueDisk(d) && Safe(c, start, after, d) && Malformed(c, start)
    requires EarlierKept(start, Now(d)) && SameDocument(start, Now(d)) && Exists(d, Document)
    requires Exists(d, Pending) ==> Ours(start, InodeOf(d, Pending))
    requires Quarantined(q) !in Now(d).entries
    ensures var t := Rename(d, Document, Quarantined(q));
            QueueDisk(t) && Safe(c, start, after, t) && ReadyToCommit(c, start, t)
  {
    var t := Rename(d, Document, Quarantined(q));
    assert Quarantined(q) in Now(t).entries;
    ExtendKeeps(c, start, after, d, t, Now(t));
  }

  lemma CommitKeeps(c: Codec, start: Disk, after: Bytes, d: Disk)
    requires QueueDisk(start) && QueueDisk(d) && Safe(c, start, after, d) && ReadyToCommit(c, start, d)
    requires Exists(d, Pending) && d.inodes[InodeOf(d, Pending)] == Inode(after, true)
    ensures var t := Rename(d, Pending, Document);
            QueueDisk(t) && Safe(c, start, after, t) && Content(t, Document) == after
  {
    var t := Rename(d, Pending, Document);
    ExtendKeeps(c, start, after, d, t, Now(t));
  }

  /** Until the commit the queues read as they did at `start`. */
  lemma ReadyReadsAsBefore(c: Codec, start: Disk, after: Bytes, d: Disk)
    requires QueueDisk(start) && QueueDisk(d) && Safe(c, start, after, d) && ReadyToCommit(c, start, d)
    ensures QueuesOf(c, d) == QueuesOf(c, start)
  {
    if Exists(start, Document) && !Malformed(c, start) {
      var inode := InodeOf(start, Document);
      assert DirOk(start.inodes, Now(start)) && !Ours(start, inode);
      assert FilesAsAt(start, d.inodes, Now(d));
    }
  }

  lemma DocumentReadsAsBefore(c: Codec, start: Disk, after: Bytes, d: Disk)
    requires QueueDisk(start) && QueueDisk(d) && Safe(c, start, after, d) && SameDocument(start, Now(d))
    ensures Exists(start, Document) <==> Exists(d, Document)
    ensures Exists(d, Document) ==> Content(d, Document) == Content(start, Document)
  {
    if Exists(start, Document) {
      assert DirOk(start.inodes, Now(start)) && !Ours(start, InodeOf(start, Document));
      assert FilesAsAt(start, d.inodes, Now(d));
    }
  }

  /** Both disks hold the same under the name, or nothing. */
  predicate SameFiles(a: Disk, b: Disk, n: Name) {
    (Exists(a, n) <==> Exists(b, n)) && (Exists(a, n) ==> Content(a, n) == Content(b, n))
  }

  /** The disk is, the pending file apart, what some crash of `start` would have left. */
  ghost predicate AsCrashOf(start: Disk, t: Disk, torn: map<nat, Bytes>) {
    exists j: nat :: j < |start.journal| && forall n :: n != Pending ==> SameFiles(Crash(start, j, torn), t, n)
  }

  lemma FallBackBehindStart(c: Codec, start: Disk, after: Bytes, d: Disk, k: nat, torn: map<nat, Bytes>)
    requires QueueDisk(start) && QueueDisk(d) && Safe(c, start, after, d) && k < |d.journal|
    requires d.journal[k] in start.journal
    ensures AsCrashOf(start, Crash(d, k, torn), torn)
  {
    var dir, t := d.journal[k], Crash(d, k, torn);
    var j: nat :| j < |start.journal| && start.journal[j] == dir;
    var u := Crash(start, j, torn);
    assert DirOk(start.inodes, dir) && DirOk(d.inodes, dir) && FilesAsAt(start, d.inodes, dir);
    forall n | n != Pending ensures SameFiles(u, t, n) {
      if n in dir.entries { assert !Ours(start, dir.entries[n]); }
    }
  }

  /**
   * What `Safe` comes to, wherever a crash falls back to: either it leaves just what a crash
   * before the update could have left; or it leaves the malformed original's bytes at its path
   * or under a quarantine name, and a document only if it is the old one or the whole new one.
   */
  lemma CrashKeepsOriginalOrWhole(c: Codec, start: Disk, after: Bytes, d: Disk, k: nat, torn: map<nat, Bytes>)
    requires QueueDisk(start) && QueueDisk(d) && Safe(c, start, after, d) && k < |d.journal|
    ensures
      var t := Crash(d, k, torn);
      || AsCrashOf(start, t, torn)
      || (&& (Malformed(c, start) ==>
                exists n :: (n == Document || n.Quarantined?) && Exists(t, n) && Content(t, n) == Content(start, Document))
          && (Exists(t, Document) ==>
                Content(t, Document) == after || (Exists(start, Document) && Content(t, Document) == Content(start, Document))))
  {
    var dir := d.journal[k];
    var t := Crash(d, k, torn);
    if dir in start.journal {
      FallBackBehindStart(c, start, after, d, k, torn);
    } else {
      assert DirOk(d.inodes, dir) && FilesAsAt(start, d.inodes, dir);
      if Exists(start, Document) { assert DirOk(start.inodes, Now(start)) && !Ours(start, InodeOf(start, Document)); }
      if Malformed(c, start) {
        var n := if Document in dir.entries && dir.entries[Document] == InodeOf(start, Document) then Document
                 else var q :| Quarantined(q) in dir.entries && dir.entries[Quarantined(q)] == InodeOf(start, Document);
                      Quarantined(q);
        assert Exists(t, n) && Content(t, n) == Content(start, Document);
      }
    }
  }

  // ------------------------------------------------------ the original, for ever

  predicate Holds(inodes: map<nat, Inode>, dir: Dir, n: Name, bytes: Bytes) {
    && (n == Document || n.Quarantined?)
    && n in dir.entries && dir.entries[n] in inodes && inodes[dir.entries[n]].bytes == bytes
  }

  /** The bytes are at the document's path or under a quarantine name. */
  ghost predicate HoldsSomewhere(inodes: map<nat, Inode>, dir: Dir, bytes: Bytes) {
    exists n :: Holds(inodes, dir, n, bytes)
  }

  /** And they are wherever a crash could fall back to. */
  ghost predicate Kept(d: Disk, bytes: Bytes) {
    forall k :: 0 <= k < |d.journal| ==> HoldsSomewhere(d.inodes, d.journal[k], bytes)
  }

  predicate Unparseable(c: Codec, bytes: Bytes) {
    c.isText(bytes) && c.parse(bytes).None?
  }

  /** Stopped anywhere, an update keeps what it found and what earlier ones had quarantined. */
  lemma UpdateKeepsOriginal(c: Codec, start: Disk, after: Bytes, d: Disk, bytes: Bytes)
    requires QueueDisk(start) && QueueDisk(d) && Safe(c, start, after, d) && Unparseable(c, bytes)
    requires Kept(start, bytes)
    ensures Kept(d, bytes)
  {
    forall k | 0 <= k < |d.journal| ensures HoldsSomewhere(d.inodes, d.journal[k], bytes) {
      var dir := d.journal[k];
      assert FilesAsAt(start, d.inodes, dir);
      if dir in start.journal {
        var j :| 0 <= j < |start.journal| && start.journal[j] == dir;
        var n :| Holds(start.inodes, start.journal[j], n, bytes);
        assert !Ours(start, dir.entries[n]);
        assert Holds(d.inodes, dir, n, bytes);
      } else {
        DirMadeSinceKeepsOriginal(c, start, after, d, dir, bytes);
      }
    }
  }

  lemma DirMadeSinceKeepsOriginal(c: Codec, start: Disk, after: Bytes, d: Disk, dir: Dir, bytes: Bytes)
    requires QueueDisk(start) && Unparseable(c, bytes) && HoldsSomewhere(start.inodes, Now(start), bytes)
    requires FilesAsAt(start, d.inodes, dir) && MadeSince(c, start, after, d.inodes, dir)
    ensures HoldsSomewhere(d.inodes, dir, bytes)
  {
    var n :| Holds(start.inodes, Now(start), n, bytes);
    assert DirOk(start.inodes, Now(start)) && !Ours(start, Now(start).entries[n]);
    if n.Quarantined? {
      assert Quarantined(n.id) in Now(start).entries;
      assert Holds(d.inodes, dir, n, bytes);
    } else if SameDocument(start, dir) {
      assert Holds(d.inodes, dir, Document, bytes);
    } else {
      assert Malformed(c, start) && Preserved(c, start, dir);
      var q :| Quarantined(q) in dir.entries && dir.entries[Quarantined(q)] == InodeOf(start, Document);
      assert Holds(d.inodes, dir, Quarantined(q), bytes);
    }
  }

  lemma FlushKeepsOriginal(d: Disk, k: nat, bytes: Bytes)
    requires QueueDisk(d) && k < |d.journal| && Kept(d, bytes)
    ensures QueueDisk(Flush(d, k)) && Kept(Flush(d, k), bytes)
  {
    var t := Flush(d, k);
    assert forall i :: 0 <= i < |t.journal| ==> t.journal[i] == d.journal[i + k];
  }

  /** After a crash the store goes on from a disk like any other. */
  lemma CrashLeavesQueueDisk(d: Disk, k: nat, torn: map<nat, Bytes>)
    requires QueueDisk(d) && k < |d.journal|
    ensures QueueDisk(Crash(d, k, torn))
  {
    assert DirOk(d.inodes, d.journal[k]);
  }

  lemma CrashKeepsOriginal(d: Disk, k: nat, torn: map<nat, Bytes>, bytes: Bytes)
    requires QueueDisk(d) && k < |d.journal| && Kept(d, bytes)
    ensures QueueDisk(Crash(d, k, torn)) && Kept(Crash(d, k, torn), bytes)
  {
    CrashLeavesQueueDisk(d, k, torn);
    assert DirOk(d.inodes, d.journal[k]);
    var n :| Holds(d.inodes, d.journal[k], n, bytes);
    assert Holds(Crash(d, k, torn).inodes, d.journal[k], n, bytes);
  }

  /** An update that ended or was stopped with the disk at `to`; a flush; or a power cut. */
  datatype Event =
    | UpdateStopped(after: Bytes, to: Disk)
    | FlushDirectory(operations: nat)
    | PowerCut(operations: nat, torn: map<nat, Bytes>)

  ghost predicate Possible(c: Codec, d: Disk, e: Event) {
    match e
    case UpdateStopped(after, to) => |d.journal| > 0 && QueueDisk(to) && Safe(c, d, after, to)
    case FlushDirectory(k) => k < |d.journal|
    case PowerCut(k, _) => k < |d.journal|
  }

  function Next(d: Disk, e: Event): Disk {
    match e
    case UpdateStopped(_, to) => to
    case FlushDirectory(k) => if k < |d.journal| then Flush(d, k) else d
    case PowerCut(k, torn) => if k < |d.journal| then Crash(d, k, torn) else d
  }

  function RunFrom(d: Disk, events: seq<Event>): Disk
    decreases |events|
  {
    if events == [] then d else RunFrom(Next(d, events[0]), events[1..])
  }

  ghost predicate PossibleRun(c: Codec, d: Disk, events: seq<Event>)
    decreases |events|
  {
    events != [] ==> Possible(c, d, events[0]) && PossibleRun(c, Next(d, events[0]), events[1..])
  }

  lemma {:induction false} EveryRunKeepsOriginal(c: Codec, d: Disk, events: seq<Event>, bytes: Bytes)
    requires QueueDisk(d) && Unparseable(c, bytes) && Kept(d, bytes) && PossibleRun(c, d, events)
    ensures QueueDisk(RunFrom(d, events)) && Kept(RunFrom(d, events), bytes)
    decreases |events|
  {
    if events != [] {
      match events[0] {
        case UpdateStopped(after, to) => UpdateKeepsOriginal(c, d, after, to, bytes);
        case FlushDirectory(k) => FlushKeepsOriginal(d, k, bytes);
        case PowerCut(k, torn) => CrashKeepsOriginal(d, k, torn, bytes);
      }
      EveryRunKeepsOriginal(c, Next(d, events[0]), events[1..], bytes);
    }
  }

  /** The bytes are found after every run of updates, flushes and power cuts from `d`. */
  ghost predicate SurvivesEveryRun(c: Codec, d: Disk, bytes: Bytes) {
    forall events :: PossibleRun(c, d, events) ==> HoldsAtEnd(d, events, bytes)
  }

  ghost predicate HoldsAtEnd(d: Disk, events: seq<Event>, bytes: Bytes) {
    var t := RunFrom(d, events);
    |t.journal| > 0 && HoldsSomewhere(t.inodes, Now(t), bytes)
  }

  /**
   * An unparseable file is never lost: its bytes survive every run of updates, each stopped
   * anywhere, with power cuts between, if and only if no directory that was not yet durable
   * to begin with lacks them.
   */
  lemma OriginalSurvivesEveryRunIffKept(c: Codec, d: Disk, bytes: Bytes)
    requires QueueDisk(d) && Unparseable(c, bytes)
    ensures SurvivesEveryRun(c, d, bytes) <==> Kept(d, bytes)
  {
    if Kept(d, bytes) {
      forall events | PossibleRun(c, d, events) ensures HoldsAtEnd(d, events, bytes) {
        EveryRunKeepsOriginal(c, d, events, bytes);
      }
    }
    if SurvivesEveryRun(c, d, bytes) {
      forall k | 0 <= k < |d.journal| ensures HoldsSomewhere(d.inodes, d.journal[k], bytes) {
        OneCutShows(c, d, k, bytes);
      }
    }
  }

  /** A power cut that leaves synced and unsynced bytes as they are. */
  lemma OneCutShows(c: Codec, d: Disk, k: nat, bytes: Bytes)
    requires QueueDisk(d) && k < |d.journal| && SurvivesEveryRun(c, d, bytes)
    ensures HoldsSomewhere(d.inodes, d.journal[k], bytes)
  {
    var cut := PowerCut(k, map[]);
    assert [cut][1..] == [];
    assert PossibleRun(c, Next(d, cut), []);
    assert PossibleRun(c, d, [cut]);
    assert HoldsAtEnd(d, [cut], bytes);
    var t := Crash(d, k, map[]);
    assert RunFrom(d, [cut]) == RunFrom(t, []) == t;
    var n :| Holds(t.inodes, Now(t), n, bytes);
    assert DirOk(d.inodes, d.journal[k]);
    assert Holds(d.inodes, d.journal[k], n, bytes);
  }

  /** A malformed document whose directory is durable is kept. */
  lemma DurableMalformedIsKept(c: Codec, d: Disk)
    requires QueueDisk(d) && |d.journal| == 1 && Malformed(c, d)
    ensures Unparseable(c, Content(d, Document)) && Kept(d, Content(d, Document))
  {
    assert Holds(d.inodes, d.journal[0], Document, Content(d, Document));
  }

  /** What a successful update writes. */
  ghost function Written(c: Codec, start: Disk, updates: Option<Fields>): Bytes {
    if updates.Some? && QueuesOf(c, start).Some? then c.encode(Updated(QueuesOf(c, start).value, updates.value)) else []
  }

  /** One update, as the queues before and after it show it. */
  ghost predicate Outcome(c: Codec, d: Disk, updates: Option<Fields>, d': Disk, ok: bool) {
    if ok then
      && updates.Some? && QueuesOf(c, d).Some?
      && QueuesOf(c, d') == Some(Updated(QueuesOf(c, d).value, updates.value))
    else QueuesOf(c, d') == QueuesOf(c, d)
  }

  /** The session loop, over the updates in any order. */
  method ApplyUpdates(queues: Fields, updates: Fields) returns (r: Fields)
    ensures r == Updated(queues, updates)
  {
    r := queues;
    var pending := updates.Keys;
    assert Merged(queues, Patch(updates - pending, false)) == queues;
    while pending != {}
      invariant pending <= updates.Keys
      invariant r == Merged(queues, Patch(updates - pending, false))
      decreases pending
    {
      var session :| session in pending;
      MergedStep(queues, Patch(updates, false), pending, session);
      pending := pending - {session};
      if updates[session].Null? {
        r := r - {session};
      } else {
        r := r[session := updates[session]];
      }
    }
    assert updates - {} == updates;
  }

  // ---------------------------------------------------------------- the store

  ghost predicate NamesBelow(dir: Dir, unused: nat) {
    forall q: nat :: Quarantined(q) in dir.entries ==> q < unused
  }

  class QueueStore {
    const codec: Codec
    var disk: Disk
    /** No inode and no quarantine name from here on has been used: a fresh uuid each time. */
    var unused: nat
    /** The disk after every file operation. */
    ghost var trace: seq<Disk>
    /** How many file operations have failed. */
    ghost var faults: nat

    ghost predicate Valid()
      reads this
    {
      && Faithful(codec) && QueueDisk(disk) && trace != [] && trace[|trace| - 1] == disk
      && (forall i :: i in disk.inodes ==> i < unused)
      && (forall k :: 0 <= k < |disk.journal| ==> NamesBelow(disk.journal[k], unused))
    }

    constructor (c: Codec, d: Disk, n: nat)
      requires Faithful(c) && QueueDisk(d) && (forall i :: i in d.inodes ==> i < n)
      requires forall k :: 0 <= k < |d.journal| ==> NamesBelow(d.journal[k], n)
      ensures Valid() && disk == d && codec == c
    {
      codec, disk, unused, trace, faults := c, d, n, [d], 0;
    }

    /** Stopping at any disk since position `from` of the trace is a possible end of an update from `start`. */
    ghost predicate SafeSince(start: Disk, after: Bytes, from: nat)
      requires |start.journal| > 0
      reads this
    {
      forall i :: from <= i < |trace| ==> Possible(codec, start, UpdateStopped(after, trace[i]))
    }

    /** The state within an update that began at `start`. */
    ghost predicate Within(start: Disk, after: Bytes, from: nat)
      reads this
    {
      && Valid() && QueueDisk(start) && Safe(codec, start, after, disk) && SafeSince(start, after, from)
      && (forall i :: i in start.inodes ==> i < unused)
    }

    /** A file operation works or fails. */
    method Works() returns (ok: bool)
      modifies this`faults
      ensures faults == old(faults) + if ok then 0 else 1
    {
      ok := *;
      if !ok { faults := faults + 1; }
    }

    /** The power is cut and comes back: the store goes on from whatever directory was durable. */
    method PowerCut(operations: nat, torn: map<nat, Bytes>)
      requires Valid() && operations < |disk.journal|
      modifies this
      ensures Valid() && disk == Crash(old(disk), operations, torn) && trace == old(trace) + [disk]
      ensures Possible(codec, old(disk), Event.PowerCut(operations, torn))
    {
      CrashLeavesQueueDisk(disk, operations, torn);
      disk := Crash(disk, operations, torn);
      trace := trace + [disk];
    }

    /** Some directory operations become durable, at a time of the file system's choosing. */
    method Flushed(ghost start: Disk, ghost after: Bytes, ghost from: nat)
      requires Within(start, after, from)
      modifies this
      ensures Within(start, after, from) && unused == old(unused) && faults == old(faults) && old(trace) <= trace
      ensures disk.inodes == old(disk).inodes && Now(disk) == Now(old(disk))
    {
      var k: int := *;
      if 0 <= k < |disk.journal| {
        FlushKeeps(codec, start, after, disk, k);
        var flushed := Flush(disk, k);
        forall i | 0 <= i < |flushed.journal| ensures NamesBelow(flushed.journal[i], unused) {
          assert NamesBelow(disk.journal[i + k], unused);
        }
        disk := flushed;
        trace := trace + [disk];
      }
    }

    method QuarantineDocument(ghost start: Disk, ghost after: Bytes, ghost from: nat) returns (ok: bool)
      requires Within(start, after, from) && Malformed(codec, start)
      requires EarlierKept(start, Now(disk)) && SameDocument(start, Now(disk)) && Exists(disk, Document)
      requires Exists(disk, Pending) ==> Ours(start, InodeOf(disk, Pending))
      modifies this
      ensures Within(start, after, from) && old(trace) <= trace
      ensures ok ==> ReadyToCommit(codec, start, disk)
      ensures !ok ==> disk == old(disk)
      ensures faults == old(faults) + if ok then 0 else 1
    {
      ok := Works();
      if ok {
        QuarantineKeeps(codec, start, after, disk, unused);
        disk := Rename(disk, Document, Quarantined(unused));
        unused := unused + 1;
        trace := trace + [disk];
      }
    }

    /** Creating, or truncating, the pending file. */
    method CreatePending(ghost start: Disk, ghost after: Bytes, ghost from: nat) returns (ok: bool)
      requires Within(start, after, from) && ReadyToCommit(codec, start, disk)
      modifies this
      ensures Within(start, after, from) && ReadyToCommit(codec, start, disk) && old(trace) <= trace
      ensures ok ==> Exists(disk, Pending) && Content(disk, Pending) == []
      ensures faults == old(faults) + if ok then 0 else 1
    {
      ok := Works();
      if ok {
        CreateKeeps(codec, start, after, disk, unused);
        disk := Create(disk, Pending, unused);
        unused := unused + 1;
        trace := trace + [disk];
      }
    }

    /** One write, or one sync, of the pending file. */
    method WritePending(written: Inode, ghost start: Disk, ghost after: Bytes, ghost from: nat)
      requires Within(start, after, from) && ReadyToCommit(codec, start, disk) && Exists(disk, Pending)
      modifies this
      ensures Within(start, after, from) && ReadyToCommit(codec, start, disk) && old(trace) <= trace
      ensures Exists(disk, Pending) && disk.inodes[InodeOf(disk, Pending)] == written && faults == old(faults)
    {
      WriteKeeps(codec, start, after, disk, written);
      disk := disk.(inodes := disk.inodes[InodeOf(disk, Pending) := written]);
      trace := trace + [disk];
    }

    /** write_all: chunk by chunk, however many there are; any of them can fail. */
    method WriteChunks(bytes: Bytes, ghost start: Disk, ghost after: Bytes, ghost from: nat) returns (ok: bool)
      requires Within(start, after, from) && ReadyToCommit(codec, start, disk)
      requires Exists(disk, Pending) && Content(disk, Pending) == []
      modifies this
      ensures Within(start, after, from) && ReadyToCommit(codec, start, disk) && old(trace) <= trace
      ensures Exists(disk, Pending) && (ok ==> Content(disk, Pending) == bytes)
      ensures faults == old(faults) + if ok then 0 else 1
    {
      var written := 0;
      while written < |bytes|
        invariant Within(start, after, from) && ReadyToCommit(codec, start, disk) && old(trace) <= trace
        invariant faults == old(faults)
        invariant written <= |bytes| && Exists(disk, Pending) && Content(disk, Pending) == bytes[..written]
      {
        ok := Works();
        if !ok { return; }
        var length: int := *;
        length := if 0 < length <= |bytes| - written then length else |bytes| - written;
        assert bytes[..written] + bytes[written..written + length] == bytes[..written + length];
        WritePending(Inode(bytes[..written] + bytes[written..written + length], false), start, after, from);
        written := written + length;
        Flushed(start, after, from);
      }
      assert bytes[..written] == bytes;
      ok := true;
    }

    /** write_file_synced on the pending file: create it, write it, sync it. */
    method WriteFileSynced(bytes: Bytes, ghost start: Disk, ghost after: Bytes, ghost from: nat) returns (ok: bool)
      requires Within(start, after, from) && ReadyToCommit(codec, start, disk)
      modifies this
      ensures Within(start, after, from) && ReadyToCommit(codec, start, disk) && old(trace) <= trace
      ensures ok ==> Exists(disk, Pending) && disk.inodes[InodeOf(disk, Pending)] == Inode(bytes, true)
      ensures faults == old(faults) + if ok then 0 else 1
    {
      ok := CreatePending(start, after, from);
      if !ok { return; }
      ok := WriteChunks(bytes, start, after, from);
      if !ok { return; }
      ok := Works();
      if ok { WritePending(Inode(Content(disk, Pending), true), start, after, from); }
    }

    method CommitPending(ghost start: Disk, ghost after: Bytes, ghost from: nat) returns (ok: bool)
      requires Within(start, after, from) && ReadyToCommit(codec, start, disk)
      requires Exists(disk, Pending) && disk.inodes[InodeOf(disk, Pending)] == Inode(after, true)
      modifies this
      ensures Within(start, after, from) && old(trace) <= trace
      ensures if ok then Exists(disk, Document) && Content(disk, Document) == after else disk == old(disk)
      ensures faults == old(faults) + if ok then 0 else 1
    {
      ok := Works();
      if ok {
        CommitKeeps(codec, start, after, disk);
        disk := Rename(disk, Pending, Document);
        trace := trace + [disk];
      }
    }

    /** The queues to merge into; a malformed document is quarantined on the way. */
    method ReadQueues(ghost start: Disk, ghost after: Bytes, ghost from: nat) returns (r: Option<Fields>)
      requires Within(start, after, from)
      requires EarlierKept(start, Now(disk)) && SameDocument(start, Now(disk))
      requires Exists(disk, Pending) ==> Ours(start, InodeOf(disk, Pending))
      modifies this
      ensures Within(start, after, from) && old(trace) <= trace
      ensures r.Some? ==> r == QueuesOf(codec, start) && ReadyToCommit(codec, start, disk)
      ensures r.None? ==> disk == old(disk)
      ensures r.Some? <==> faults == old(faults) && QueuesOf(codec, start).Some?
      ensures old(faults) <= faults
    {
      DocumentReadsAsBefore(codec, start, after, disk);
      if !Exists(disk, Document) { return Some(map[]); }
      var readable := Works();
      var content := Content(disk, Document);
      if !readable || !codec.isText(content) { return None; }
      r := codec.parse(content);
      if r.None? {
        var ok := QuarantineDocument(start, after, from);
        r := if ok then Some(map[]) else None;
      }
    }

    /**
     * One update, under the lock from start to end.  Whatever step it fails or crashes at,
     * the disk is one `Safe` describes: the old document or the whole new one is in place,
     * and a malformed original survives at its path or under a fresh quarantine name.  It
     * succeeds iff the updates parse, the file is text or absent, and no file operation fails.
     */
    method Update(updates: Option<Fields>) returns (ok: bool)
      requires Valid()
      modifies this
      ensures Valid() && old(trace) <= trace
      ensures Outcome(codec, old(disk), updates, disk, ok)
      ensures ok <==> updates.Some? && QueuesOf(codec, old(disk)).Some? && faults == old(faults)
      ensures SafeSince(old(disk), Written(codec, old(disk), updates), |old(trace)|)
      ensures Possible(codec, old(disk), UpdateStopped(Written(codec, old(disk), updates), disk))
    {
      ghost var start, after, from := disk, Written(codec, disk, updates), |trace|;
      if updates.None? { return false; }
      assert Within(start, after, from);
      var queues := ReadQueues(start, after, from);
      if queues.None? { return false; }
      var merged := ApplyUpdates(queues.value, updates.value);
      ok := Persist(merged, start, after, from);
    }

    /** persist_message_queues_at_path: create the directory, write the pending file, commit it. */
    method Persist(queues: Fields, ghost start: Disk, ghost after: Bytes, ghost from: nat) returns (ok: bool)
      requires Within(start, after, from) && ReadyToCommit(codec, start, disk) && after == codec.encode(queues)
      modifies this
      ensures Within(start, after, from) && old(trace) <= trace
      ensures QueuesOf(codec, disk) == if ok then Some(queues) else QueuesOf(codec, start)
      ensures faults == old(faults) + if ok then 0 else 1
    {
      ok := Works();
      if ok {
        Flushed(start, after, from);
        ok := WriteFileSynced(codec.encode(queues), start, after, from);
      }
      ReadyReadsAsBefore(codec, start, after, disk);
      if ok { ok := CommitPending(start, after, from); }
    }
  }

  // ------------------------------------------------------------------- runs

  function FoldUpdates(queues: Fields, us: seq<Fields>): Fields {
    if us == [] then queues else Updated(FoldUpdates(queues, us[..|us| - 1]), us[|us| - 1])
  }

  /** The updates that succeeded, in order. */
  function Succeeded(us: seq<Option<Fields>>, oks: seq<bool>): seq<Fields>
    requires |us| == |oks|
  {
    if us == [] then []
    else
      var n := |us| - 1;
      var before := Succeeded(us[..n], oks[..n]);
      if oks[n] && us[n].Some? then before + [us[n].value] else before
  }

  /**
   * Any run of updates leaves the fold, in the order of the lock, of those that succeeded
   * over the queues that were there; a malformed file counts as none.
   */
  lemma {:induction false} RunIsFold(c: Codec, disks: seq<Disk>, us: seq<Option<Fields>>, oks: seq<bool>)
    requires |us| == |oks| && |disks| == |us| + 1 && QueuesOf(c, disks[0]).Some?
    requires forall i :: 0 <= i < |us| ==> Outcome(c, disks[i], us[i], disks[i + 1], oks[i])
    ensures QueuesOf(c, disks[|us|]) == Some(FoldUpdates(QueuesOf(c, disks[0]).value, Succeeded(us, oks)))
    decreases |us|
  {
    if us != [] {
      var n := |us| - 1;
      RunIsFold(c, disks[..|us|], us[..n], oks[..n]);
      assert Outcome(c, disks[n], us[n], disks[n + 1], oks[n]);
      if oks[n] { FoldOneMore(QueuesOf(c, disks[0]).value, Succeeded(us[..n], oks[..n]), us[n].value); }
    }
  }

  lemma FoldOneMore(queues: Fields, us: seq<Fields>, last: Fields)
    ensures FoldUpdates(queues, us + [last]) == Updated(FoldUpdates(queues, us), last)
  {
    assert (us + [last])[..|us|] == us;
  }

  /** The fold is right-biased: the last update that names a session decides about it. */
  lemma {:induction false} LastUpdateDecides(queues: Fields, us: seq<Fields>, session: string, i: nat)
    requires i < |us| && session in us[i] && forall j :: i < j < |us| ==> session !in us[j]
    ensures session in FoldUpdates(queues, us) <==> !us[i][session].Null?
    ensures session in FoldUpdates(queues, us) ==> FoldUpdates(queues, us)[session] == us[i][session]
    decreases |us|
  {
    var n := |us| - 1;
    if i < n { LastUpdateDecides(queues, us[..n], session, i); }
  }

  /** Updates of different sessions commute. */
  lemma DisjointUpdatesCommute(queues: Fields, a: Fields, b: Fields)
    requires a.Keys !! b.Keys
    ensures Updated(Updated(queues, a), b) == Updated(Updated(queues, b), a)
  {
    var ab, ba := Updated(Updated(queues, a), b), Updated(Updated(queues, b), a);
    forall k ensures (k in ab <==> k in ba) && (k in ab ==> ab[k] == ba[k]) {
      assert k in a ==> k !in b;
    }
  }
}
