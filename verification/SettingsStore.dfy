/**
 * The settings document: concurrent updates under one lock, each a read, a merge and a
 * write-then-rename, with a crash possible at every file step.
 *
 * A run is an arbitrary list of steps; a step that is not enabled in the state it meets
 * leaves that state alone.
 */
module SettingsStore {
  import opened Wrappers
  import opened DiskModel
  import opened Documents

  /** Largest document that is read at all. */
  const MAX_DOCUMENT_BYTES: nat := 64 * 1024 * 1024

  /** The update loop, over the keys of the patch in any order. */
  method MergePatch(s: Fields, p: Patch) returns (r: Fields)
    ensures r == Merged(s, p)
  {
    r := s;
    var pending := p.values.Keys;
    assert Merged(s, p.(values := p.values - pending)) == s;
    while pending != {}
      invariant pending <= p.values.Keys
      invariant r == Merged(s, p.(values := p.values - pending))
      decreases pending
    {
      var key :| key in pending;
      MergedStep(s, p, pending, key);
      pending := pending - {key};
      if p.onlyMissing && key in r {
        continue;
      }
      if p.values[key].Null? {
        r := r - {key};
      } else {
        r := r[key := p.values[key]];
      }
    }
    assert p.values - {} == p.values;
  }

  /** What serde_json does: printing settings and parsing them again is the identity. */
  datatype Codec = Codec(encode: Fields -> Bytes, parse: Bytes -> Option<Fields>)

  ghost predicate Faithful(c: Codec) {
    forall s :: c.parse(c.encode(s)) == Some(s)
  }

  datatype Commit = Commit(id: nat, patch: Patch)

  /** The settings after the commits of `log`, in order. */
  function Fold(base: Fields, log: seq<Commit>): Fields {
    if log == [] then base else Merged(Fold(base, log[..|log| - 1]), log[|log| - 1].patch)
  }

  /** What the document that was there first says; a missing one is an empty object. */
  function Base(c: Codec, doc: Option<Bytes>): Fields {
    match doc
    case None => map[]
    case Some(bytes) => if c.parse(bytes).Some? then c.parse(bytes).value else map[]
  }

  // ------------------------------------------------------------------ protocol

  datatype Phase =
    | Waiting
    | Reading
    | Merging(settings: Fields)
    | Writing(inode: nat, bytes: Bytes, written: nat)
    | Renaming(renamed: nat, synced: Bytes)
    | Unlocking(ok: bool)
    | Returned(result: bool)

  datatype Update = Update(patch: Patch, phase: Phase)

  /**
   * `log` are the updates whose rename is part of the current directory, in that order;
   * `lost` those whose rename a crash undid; `acked` those that returned Ok.
   */
  datatype State = State(disk: Disk, lock: Option<nat>, updates: map<nat, Update>, used: set<nat>, log: seq<Commit>,
                         acked: set<nat>, lost: set<nat>)

  /** What an update does next; each can fail. */
  datatype Event =
    | Lock
    | Read(ok: bool)
    | CreateTemporary(unused: nat, ok: bool)
    | WriteChunk(length: nat, ok: bool)
    | SyncTemporary(ok: bool)
    | RenameTemporary(ok: bool)
    | Unlock

  datatype Step =
    | Start(id: nat, patch: Patch)
    | Own(update: nat, event: Event)
    | FlushDirectory(operations: nat)
    | PowerCut(operations: nat, torn: map<nat, Bytes>)

  predicate HoldsLock(p: Phase) {
    !p.Waiting? && !p.Returned?
  }

  function At(s: State, id: nat, phase: Phase): State
    requires id in s.updates
  {
    s.(updates := s.updates[id := s.updates[id].(phase := phase)])
  }

  /** read_document_capped and the parse: the settings to merge into, or None for an error. */
  function ReadSettings(c: Codec, d: Disk): Option<Fields> {
    if !Exists(d, Document) then Some(map[])
    else if |Content(d, Document)| > MAX_DOCUMENT_BYTES then None
    else c.parse(Content(d, Document))
  }

  function Ids(log: seq<Commit>): set<nat> {
    set k | 0 <= k < |log| :: log[k].id
  }

  function Crashed(s: State, k: nat, torn: map<nat, Bytes>): State
    requires k < |s.disk.journal|
  {
    var kept := if s.disk.journal[k].commits <= |s.log| then s.disk.journal[k].commits else |s.log|;
    State(Crash(s.disk, k, torn), None, map[], s.used, s.log[..kept], s.acked, s.lost + Ids(s.log[kept..]))
  }

  function Apply(c: Codec, s: State, step: Step): State {
    match step
    case Start(id, patch) =>
      if id in s.used then s
      else s.(updates := s.updates[id := Update(patch, Waiting)], used := s.used + {id})
    case FlushDirectory(k) => if k < |s.disk.journal| then s.(disk := Flush(s.disk, k)) else s
    case PowerCut(k, torn) => if k < |s.disk.journal| then Crashed(s, k, torn) else s
    case Own(id, event) => if id in s.updates then OwnStep(c, s, id, event) else s
  }

  function OwnStep(c: Codec, s: State, id: nat, event: Event): State
    requires id in s.updates
  {
    var u := s.updates[id];
    match event
    case Lock => if u.phase.Waiting? && s.lock.None? then At(s.(lock := Some(id)), id, Reading) else s
    case Read(ok) =>
      if !u.phase.Reading? then s
      else
        var settings := ReadSettings(c, s.disk);
        At(s, id, if ok && settings.Some? then Merging(settings.value) else Unlocking(false))
    case CreateTemporary(unused, ok) =>
      if !u.phase.Merging? then s
      else if !ok then At(s, id, Unlocking(false))
      else if |s.disk.journal| == 0 || Exists(s.disk, Temporary(id)) || unused in s.disk.inodes then s
      else
        At(s.(disk := Create(s.disk, Temporary(id), unused)), id,
           Writing(unused, c.encode(Merged(u.phase.settings, u.patch)), 0))
    case WriteChunk(length, ok) =>
      if !u.phase.Writing? || u.phase.inode !in s.disk.inodes then s
      else if !ok then At(s, id, Unlocking(false))
      else if u.phase.written + length > |u.phase.bytes| then s
      else
        var w := u.phase;
        At(s.(disk := Append(s.disk, w.inode, w.bytes[w.written..w.written + length])), id,
           w.(written := w.written + length))
    case SyncTemporary(ok) =>
      if !u.phase.Writing? || u.phase.inode !in s.disk.inodes || u.phase.written != |u.phase.bytes| then s
      else if !ok then At(s, id, Unlocking(false))
      else At(s.(disk := Sync(s.disk, u.phase.inode)), id, Renaming(u.phase.inode, u.phase.bytes))
    case RenameTemporary(ok) =>
      if !u.phase.Renaming? || !Exists(s.disk, Temporary(id)) then s
      else if ok then
        At(s.(disk := Rename(s.disk, Temporary(id), Document), log := s.log + [Commit(id, u.patch)]), id,
           Unlocking(true))
      else At(s.(disk := Remove(s.disk, Temporary(id))), id, Unlocking(false))
    case Unlock =>
      if !u.phase.Unlocking? then s
      else At(s.(lock := None, acked := if u.phase.ok then s.acked + {id} else s.acked), id, Returned(u.phase.ok))
  }

  function Initial(doc: Option<Bytes>): State {
    var disk := match doc
                case None => Disk(map[], [Dir(map[], 0)])
                case Some(bytes) => Disk(map[0 := Inode(bytes, true)], [Dir(map[Document := 0], 0)]);
    State(disk, None, map[], {}, [], {}, {})
  }

  function Run(c: Codec, s: State, steps: seq<Step>): State
    decreases |steps|
  {
    if steps == [] then s else Run(c, Apply(c, s, steps[0]), steps[1..])
  }

  // ---------------------------------------------------------------- invariants

  /** Directory `dir` holds the fold of the first `dir.commits` updates of the log, durably. */
  ghost predicate HoldsFold(c: Codec, doc: Option<Bytes>, log: seq<Commit>, inodes: map<nat, Inode>, dir: Dir) {
    && dir.commits <= |log|
    && if dir.commits == 0 then
         match doc
         case None => Document !in dir.entries
         case Some(bytes) => HoldsDocument(inodes, dir, bytes)
       else
         HoldsDocument(inodes, dir, c.encode(Fold(Base(c, doc), log[..dir.commits])))
  }

  predicate HoldsDocument(inodes: map<nat, Inode>, dir: Dir, bytes: Bytes) {
    Document in dir.entries && dir.entries[Document] in inodes && inodes[dir.entries[Document]] == Inode(bytes, true)
  }

  ghost predicate DiskInv(c: Codec, doc: Option<Bytes>, s: State) {
    && WellFormed(s.disk)
    && Now(s.disk).commits == |s.log|
    && forall k :: 0 <= k < |s.disk.journal| ==> HoldsFold(c, doc, s.log, s.disk.inodes, s.disk.journal[k])
  }

  /** `inode` is the temporary file of `id`, and no directory has it as the document. */
  ghost predicate Private(d: Disk, id: nat, inode: nat) {
    && Exists(d, Temporary(id)) && InodeOf(d, Temporary(id)) == inode
    && forall k :: 0 <= k < |d.journal| && Document in d.journal[k].entries ==>
         d.journal[k].entries[Document] != inode
  }

  /** What the update in the critical section has achieved so far. */
  ghost predicate PhaseOk(c: Codec, doc: Option<Bytes>, s: State, id: nat, u: Update) {
    match u.phase
    case Merging(settings) => settings == Fold(Base(c, doc), s.log)
    case Writing(inode, bytes, written) =>
      && bytes == c.encode(Merged(Fold(Base(c, doc), s.log), u.patch))
      && written <= |bytes| && Private(s.disk, id, inode) && s.disk.inodes[inode].bytes == bytes[..written]
    case Renaming(inode, bytes) =>
      && bytes == c.encode(Merged(Fold(Base(c, doc), s.log), u.patch))
      && Private(s.disk, id, inode) && s.disk.inodes[inode] == Inode(bytes, true)
    case Unlocking(ok) => ok ==> id in Ids(s.log)
    case _ => true
  }

  ghost predicate LockInv(c: Codec, doc: Option<Bytes>, s: State) {
    && (forall id :: id in s.updates ==> (HoldsLock(s.updates[id].phase) <==> s.lock == Some(id)))
    && (s.lock.Some? ==> s.lock.value in s.updates
                         && PhaseOk(c, doc, s, s.lock.value, s.updates[s.lock.value]))
    && s.acked <= Ids(s.log) + s.lost
  }

  ghost predicate Inv(c: Codec, doc: Option<Bytes>, s: State) {
    DiskInv(c, doc, s) && LockInv(c, doc, s)
  }

  // --------------------------------------------------------------- each step

  lemma HoldsFoldFrame(c: Codec, doc: Option<Bytes>, log: seq<Commit>, log': seq<Commit>, inodes: map<nat, Inode>,
                       inodes': map<nat, Inode>, dir: Dir)
    requires HoldsFold(c, doc, log, inodes, dir) && log <= log'
    requires Document in dir.entries && dir.entries[Document] in inodes ==>
               dir.entries[Document] in inodes' && inodes'[dir.entries[Document]] == inodes[dir.entries[Document]]
    ensures HoldsFold(c, doc, log', inodes', dir)
  {
    assert log'[..dir.commits] == log[..dir.commits];
  }

  /** Nothing about the disk or the log changes: only `id` moves on. */
  lemma QuietKeepsInv(c: Codec, doc: Option<Bytes>, s: State, t: State, id: nat, phase: Phase)
    requires Inv(c, doc, s) && id in s.updates
    requires t == At(s.(lock := t.lock, acked := t.acked), id, phase)
    requires HoldsLock(phase) ==> t.lock == Some(id) && PhaseOk(c, doc, s, id, s.updates[id].(phase := phase))
    requires if HoldsLock(s.updates[id].phase) then t.lock == (if HoldsLock(phase) then s.lock else None)
             else if HoldsLock(phase) then s.lock == None else t.lock == s.lock
    requires t.acked <= Ids(s.log) + s.lost
    ensures Inv(c, doc, t)
  {
    forall i | i in t.updates ensures HoldsLock(t.updates[i].phase) <==> t.lock == Some(i) {
      assert i in s.updates;
    }
  }

  lemma StartKeepsInv(c: Codec, doc: Option<Bytes>, s: State, id: nat, patch: Patch)
    requires Inv(c, doc, s) && id !in s.used && UsedInv(s)
    ensures Inv(c, doc, Apply(c, s, Start(id, patch)))
  {
  }

  /** The updates under way were all started. */
  ghost predicate UsedInv(s: State) {
    forall id :: id in s.updates ==> id in s.used
  }

  /** What the reader finds is the fold of everything committed so far. */
  lemma ReadFindsFold(c: Codec, doc: Option<Bytes>, s: State)
    requires Faithful(c) && DiskInv(c, doc, s)
    ensures var r := ReadSettings(c, s.disk); r.Some? ==> r.value == Fold(Base(c, doc), s.log)
  {
    var k := |s.disk.journal| - 1;
    assert HoldsFold(c, doc, s.log, s.disk.inodes, s.disk.journal[k]);
    assert s.log[..|s.log|] == s.log;
  }

  lemma ReadKeepsInv(c: Codec, doc: Option<Bytes>, s: State, id: nat, ok: bool)
    requires Faithful(c) && Inv(c, doc, s) && id in s.updates
    ensures Inv(c, doc, OwnStep(c, s, id, Read(ok)))
  {
    if s.updates[id].phase.Reading? {
      ReadFindsFold(c, doc, s);
      var t := OwnStep(c, s, id, Read(ok));
      QuietKeepsInv(c, doc, s, t, id, t.updates[id].phase);
    }
  }

  /** One more directory operation, whose directory holds the fold of the whole log. */
  lemma ExtendKeepsDiskInv(c: Codec, doc: Option<Bytes>, s: State, t: State, dir: Dir)
    requires DiskInv(c, doc, s) && s.log <= t.log && t.disk.journal == s.disk.journal + [dir]
    requires forall i :: i in s.disk.inodes ==> i in t.disk.inodes && t.disk.inodes[i] == s.disk.inodes[i]
    requires forall n :: n in dir.entries ==> dir.entries[n] in t.disk.inodes
    requires dir.commits == |t.log| && HoldsFold(c, doc, t.log, t.disk.inodes, dir)
    ensures DiskInv(c, doc, t)
  {
    forall k | 0 <= k < |t.disk.journal| ensures HoldsFold(c, doc, t.log, t.disk.inodes, t.disk.journal[k]) {
      if k < |s.disk.journal| {
        HoldsFoldFrame(c, doc, s.log, t.log, s.disk.inodes, t.disk.inodes, s.disk.journal[k]);
      }
    }
  }

  lemma CreateKeepsInv(c: Codec, doc: Option<Bytes>, s: State, id: nat, unused: nat)
    requires Inv(c, doc, s) && id in s.updates && s.updates[id].phase.Merging?
    requires !Exists(s.disk, Temporary(id)) && unused !in s.disk.inodes
    ensures Inv(c, doc, OwnStep(c, s, id, CreateTemporary(unused, true)))
  {
    var t := OwnStep(c, s, id, CreateTemporary(unused, true));
    assert t.disk == Create(s.disk, Temporary(id), unused);
    HoldsFoldFrame(c, doc, s.log, t.log, s.disk.inodes, t.disk.inodes, Now(s.disk));
    ExtendKeepsDiskInv(c, doc, s, t, Now(t.disk));
    forall k | 0 <= k < |t.disk.journal| && Document in t.disk.journal[k].entries
      ensures t.disk.journal[k].entries[Document] != unused
    {
      var l := if k < |s.disk.journal| then k else k - 1;
      assert s.disk.journal[l].entries[Document] in s.disk.inodes;
    }
    assert PhaseOk(c, doc, t, id, t.updates[id]);
  }

  /** Writing to a private file changes no document. */
  lemma WriteKeepsInv(c: Codec, doc: Option<Bytes>, s: State, t: State, id: nat, inode: nat, after: Inode, phase: Phase)
    requires Inv(c, doc, s) && id in s.updates && s.lock == Some(id) && Private(s.disk, id, inode)
    requires t == At(s.(disk := s.disk.(inodes := s.disk.inodes[inode := after])), id, phase) && HoldsLock(phase)
    requires PhaseOk(c, doc, t, id, t.updates[id])
    ensures Inv(c, doc, t)
  {
    forall k | 0 <= k < |t.disk.journal| ensures HoldsFold(c, doc, t.log, t.disk.inodes, t.disk.journal[k]) {
      HoldsFoldFrame(c, doc, s.log, t.log, s.disk.inodes, t.disk.inodes, s.disk.journal[k]);
    }
  }

  lemma WriteChunkKeepsInv(c: Codec, doc: Option<Bytes>, s: State, id: nat, length: nat)
    requires Inv(c, doc, s) && id in s.updates && s.updates[id].phase.Writing?
    requires s.updates[id].phase.written + length <= |s.updates[id].phase.bytes|
    ensures Inv(c, doc, OwnStep(c, s, id, WriteChunk(length, true)))
  {
    var Writing(inode, bytes, written) := s.updates[id].phase;
    var after := Inode(bytes[..written] + bytes[written..written + length], false);
    assert after.bytes == bytes[..written + length];
    var t := OwnStep(c, s, id, WriteChunk(length, true));
    assert t.disk == s.disk.(inodes := s.disk.inodes[inode := after]);
    assert Private(t.disk, id, inode);
    WriteKeepsInv(c, doc, s, t, id, inode, after, Writing(inode, bytes, written + length));
  }

  lemma SyncKeepsInv(c: Codec, doc: Option<Bytes>, s: State, id: nat)
    requires Inv(c, doc, s) && id in s.updates && s.updates[id].phase.Writing?
    requires s.updates[id].phase.written == |s.updates[id].phase.bytes|
    ensures Inv(c, doc, OwnStep(c, s, id, SyncTemporary(true)))
  {
    var Writing(inode, bytes, written) := s.updates[id].phase;
    var t := OwnStep(c, s, id, SyncTemporary(true));
    assert bytes[..written] == bytes;
    assert Private(t.disk, id, inode);
    WriteKeepsInv(c, doc, s, t, id, inode, Inode(bytes, true), Renaming(inode, bytes));
  }

  lemma RenameKeepsInv(c: Codec, doc: Option<Bytes>, s: State, id: nat)
    requires Inv(c, doc, s) && id in s.updates && s.updates[id].phase.Renaming?
    ensures Inv(c, doc, OwnStep(c, s, id, RenameTemporary(true)))
  {
    var t := OwnStep(c, s, id, RenameTemporary(true));
    var u := s.updates[id];
    assert t.log[|s.log|] == Commit(id, u.patch) && t.log[..|t.log| - 1] == s.log && t.log[..|t.log|] == t.log;
    ExtendKeepsDiskInv(c, doc, s, t, Now(t.disk));
    assert Ids(s.log) <= Ids(t.log) by {
      forall i | i in Ids(s.log) ensures i in Ids(t.log) {
        var k :| 0 <= k < |s.log| && s.log[k].id == i;
        assert t.log[k].id == i;
      }
    }
    assert id in Ids(t.log);
  }

  lemma RemoveKeepsInv(c: Codec, doc: Option<Bytes>, s: State, id: nat)
    requires Inv(c, doc, s) && id in s.updates && s.updates[id].phase.Renaming?
    ensures Inv(c, doc, OwnStep(c, s, id, RenameTemporary(false)))
  {
    var t := OwnStep(c, s, id, RenameTemporary(false));
    HoldsFoldFrame(c, doc, s.log, t.log, s.disk.inodes, t.disk.inodes, Now(t.disk));
    ExtendKeepsDiskInv(c, doc, s, t, Now(t.disk));
  }

  lemma FlushKeepsInv(c: Codec, doc: Option<Bytes>, s: State, k: nat)
    requires Inv(c, doc, s) && k < |s.disk.journal|
    ensures Inv(c, doc, s.(disk := Flush(s.disk, k)))
  {
    var t := s.(disk := Flush(s.disk, k));
    assert forall i :: 0 <= i < |t.disk.journal| ==> t.disk.journal[i] == s.disk.journal[i + k];
    if s.lock.Some? { assert PhaseOk(c, doc, t, s.lock.value, s.updates[s.lock.value]); }
  }

  lemma CrashKeepsInv(c: Codec, doc: Option<Bytes>, s: State, k: nat, torn: map<nat, Bytes>)
    requires Inv(c, doc, s) && k < |s.disk.journal|
    ensures Inv(c, doc, Crashed(s, k, torn))
  {
    var t := Crashed(s, k, torn);
    var dir := s.disk.journal[k];
    assert HoldsFold(c, doc, s.log, s.disk.inodes, dir);
    assert t.log == s.log[..dir.commits] && t.log[..dir.commits] == t.log;
    assert HoldsFold(c, doc, t.log, t.disk.inodes, dir);
    forall i | i in s.acked ensures i in Ids(t.log) + t.lost {
      if i !in s.lost {
        var j :| 0 <= j < |s.log| && s.log[j].id == i;
        if j < dir.commits { assert t.log[j].id == i; } else { assert s.log[dir.commits..][j - dir.commits].id == i; }
      }
    }
  }

  lemma OwnStepKeepsInv(c: Codec, doc: Option<Bytes>, s: State, id: nat, event: Event)
    requires Faithful(c) && Inv(c, doc, s) && id in s.updates
    ensures Inv(c, doc, OwnStep(c, s, id, event))
  {
    var t := OwnStep(c, s, id, event);
    var phase := s.updates[id].phase;
    if t != s {
      match event
      case Lock => QuietKeepsInv(c, doc, s, t, id, Reading);
      case Read(ok) => ReadKeepsInv(c, doc, s, id, ok);
      case CreateTemporary(unused, ok) =>
        if ok { CreateKeepsInv(c, doc, s, id, unused); } else { QuietKeepsInv(c, doc, s, t, id, Unlocking(false)); }
      case WriteChunk(length, ok) =>
        if ok { WriteChunkKeepsInv(c, doc, s, id, length); } else { QuietKeepsInv(c, doc, s, t, id, Unlocking(false)); }
      case SyncTemporary(ok) =>
        if ok { SyncKeepsInv(c, doc, s, id); } else { QuietKeepsInv(c, doc, s, t, id, Unlocking(false)); }
      case RenameTemporary(ok) =>
        if ok { RenameKeepsInv(c, doc, s, id); } else { RemoveKeepsInv(c, doc, s, id); }
      case Unlock => QuietKeepsInv(c, doc, s, t, id, Returned(phase.ok));
    }
  }

  lemma ApplyKeepsUsedInv(c: Codec, s: State, step: Step)
    requires UsedInv(s)
    ensures UsedInv(Apply(c, s, step))
  {
  }

  lemma ApplyKeepsInv(c: Codec, doc: Option<Bytes>, s: State, step: Step)
    requires Faithful(c) && Inv(c, doc, s) && UsedInv(s)
    ensures Inv(c, doc, Apply(c, s, step)) && UsedInv(Apply(c, s, step))
  {
    ApplyKeepsUsedInv(c, s, step);
    match step
    case Start(id, patch) => if id !in s.used { StartKeepsInv(c, doc, s, id, patch); }
    case FlushDirectory(k) => if k < |s.disk.journal| { FlushKeepsInv(c, doc, s, k); }
    case PowerCut(k, torn) => if k < |s.disk.journal| { CrashKeepsInv(c, doc, s, k, torn); }
    case Own(id, event) => if id in s.updates { OwnStepKeepsInv(c, doc, s, id, event); }
  }

  lemma {:induction false} RunKeepsInv(c: Codec, doc: Option<Bytes>, s: State, steps: seq<Step>)
    requires Faithful(c) && Inv(c, doc, s) && UsedInv(s)
    ensures Inv(c, doc, Run(c, s, steps)) && UsedInv(Run(c, s, steps))
    decreases |steps|
  {
    if steps != [] {
      ApplyKeepsInv(c, doc, s, steps[0]);
      RunKeepsInv(c, doc, Apply(c, s, steps[0]), steps[1..]);
    }
  }

  lemma InitialInv(c: Codec, doc: Option<Bytes>)
    ensures Inv(c, doc, Initial(doc)) && UsedInv(Initial(doc))
  {
  }

  // ------------------------------------------------------------- main results

  /** Whether the document that was there first can be merged into at all. */
  predicate Mergeable(c: Codec, doc: Option<Bytes>) {
    doc.Some? ==> |doc.value| <= MAX_DOCUMENT_BYTES && c.parse(doc.value).Some?
  }

  /**
   * In every run the document is the fold, in lock order, of the updates in the log, and
   * reading it fails exactly when its print is above the size that is read.
   */
  lemma ReadIsFoldOfLog(c: Codec, doc: Option<Bytes>, steps: seq<Step>)
    requires Faithful(c) && Mergeable(c, doc)
    ensures
      var s := Run(c, Initial(doc), steps);
      var fold := Fold(Base(c, doc), s.log);
      ReadSettings(c, s.disk) ==
        if s.log != [] && |c.encode(fold)| > MAX_DOCUMENT_BYTES then None else Some(fold)
  {
    InitialInv(c, doc);
    RunKeepsInv(c, doc, Initial(doc), steps);
    var s := Run(c, Initial(doc), steps);
    assert HoldsFold(c, doc, s.log, s.disk.inodes, Now(s.disk));
    assert s.log[..|s.log|] == s.log;
  }

  /**
   * A crash at any step of any run leaves the first document, or the whole print of the
   * fold of a prefix of the updates committed before it; never a part of a document.
   */
  lemma CrashLeavesFoldOfPrefix(c: Codec, doc: Option<Bytes>, steps: seq<Step>, k: nat, torn: map<nat, Bytes>)
    requires Faithful(c) && k < |Run(c, Initial(doc), steps).disk.journal|
    ensures
      var s := Run(c, Initial(doc), steps);
      var t := Crashed(s, k, torn);
      && t.log <= s.log
      && (t.log == [] ==> (Exists(t.disk, Document) <==> doc.Some?)
                          && (doc.Some? ==> Content(t.disk, Document) == doc.value))
      && (t.log != [] ==> Exists(t.disk, Document)
                          && Content(t.disk, Document) == c.encode(Fold(Base(c, doc), t.log)))
  {
    InitialInv(c, doc);
    RunKeepsInv(c, doc, Initial(doc), steps);
    var s := Run(c, Initial(doc), steps);
    CrashKeepsInv(c, doc, s, k, torn);
    var t := Crashed(s, k, torn);
    assert HoldsFold(c, doc, t.log, t.disk.inodes, t.disk.journal[0]);
    assert t.log[..|t.log|] == t.log;
  }

  // ------------------------------------------------------ an undisturbed update

  /** The steps of an update that nothing disturbs and that writes `bytes` in one piece. */
  function Undisturbed(id: nat, patch: Patch, unused: nat, bytes: Bytes): seq<Step> {
    [Start(id, patch), Own(id, Lock), Own(id, Read(true)), Own(id, CreateTemporary(unused, true)),
     Own(id, WriteChunk(|bytes|, true)), Own(id, SyncTemporary(true)), Own(id, RenameTemporary(true)), Own(id, Unlock)]
  }

  /** What an update that starts now writes. */
  function NewPrint(c: Codec, s: State, patch: Patch): Bytes
    requires ReadSettings(c, s.disk).Some?
  {
    c.encode(Merged(ReadSettings(c, s.disk).value, patch))
  }

  /** The update has the lock to itself, can read the document, and its two names are new. */
  predicate FreeFor(c: Codec, s: State, id: nat, unused: nat) {
    && |s.disk.journal| > 0 && s.lock.None? && id !in s.used && ReadSettings(c, s.disk).Some?
    && !Exists(s.disk, Temporary(id)) && unused !in s.disk.inodes
  }

  /** `id` alone has moved since `s`, and only its temporary file, on a new inode, is new on the disk. */
  predicate Advanced(s: State, t: State, id: nat, u: Update, unused: nat, inode: Inode) {
    && t.updates == s.updates[id := u] && t.lock == Some(id)
    && t.log == s.log && t.acked == s.acked && t.lost == s.lost
    && |s.disk.journal| > 0
    && t.disk.journal == s.disk.journal + [Now(s.disk).(entries := Now(s.disk).entries[Temporary(id) := unused])]
    && t.disk.inodes == s.disk.inodes[unused := inode]
  }

  lemma {:induction false} RunAppend(c: Codec, s: State, a: seq<Step>, b: seq<Step>)
    ensures Run(c, s, a + b) == Run(c, Run(c, s, a), b)
    decreases |a|
  {
    if a == [] {
      assert a + b == b;
    } else {
      assert (a + b)[1..] == a[1..] + b;
      RunAppend(c, Apply(c, s, a[0]), a[1..], b);
    }
  }

  lemma UndisturbedReachesCreate(c: Codec, s: State, id: nat, patch: Patch, unused: nat)
    requires FreeFor(c, s, id, unused)
    ensures var bytes := NewPrint(c, s, patch);
            Advanced(s, Run(c, s, Undisturbed(id, patch, unused, bytes)[..4]), id,
                     Update(patch, Writing(unused, bytes, 0)), unused, Inode([], false))
  {
    var bytes := NewPrint(c, s, patch);
    var steps := Undisturbed(id, patch, unused, bytes);
    var started := Apply(c, s, steps[0]);
    assert started.updates[id] == Update(patch, Waiting) && started.disk == s.disk;
    var locked := Apply(c, started, steps[1]);
    assert locked.updates[id] == Update(patch, Reading) && locked.disk == s.disk;
    var merging := Apply(c, locked, steps[2]);
    assert merging.updates[id] == Update(patch, Merging(ReadSettings(c, s.disk).value)) && merging.disk == s.disk;
    var created := Apply(c, merging, steps[3]);
    assert created.updates == s.updates[id := Update(patch, Writing(unused, bytes, 0))];
    RunOne(c, s, steps[..4]);
    RunOne(c, started, steps[1..4]);
    RunOne(c, locked, steps[2..4]);
    RunOne(c, merging, steps[3..4]);
  }

  lemma RunOne(c: Codec, s: State, steps: seq<Step>)
    requires steps != []
    ensures Run(c, s, steps) == Run(c, Apply(c, s, steps[0]), steps[1..])
    ensures |steps| == 1 ==> Run(c, s, steps) == Apply(c, s, steps[0])
  {}

  lemma UndisturbedReachesRename(c: Codec, s: State, t: State, id: nat, patch: Patch, unused: nat, bytes: Bytes)
    requires Advanced(s, t, id, Update(patch, Writing(unused, bytes, 0)), unused, Inode([], false))
    ensures Advanced(s, Run(c, t, [Own(id, WriteChunk(|bytes|, true)), Own(id, SyncTemporary(true))]), id,
                     Update(patch, Renaming(unused, bytes)), unused, Inode(bytes, true))
  {
    var write, sync := Own(id, WriteChunk(|bytes|, true)), Own(id, SyncTemporary(true));
    assert [] + bytes[0..0 + |bytes|] == bytes;
    var written := Apply(c, t, write);
    assert Advanced(s, written, id, Update(patch, Writing(unused, bytes, |bytes|)), unused, Inode(bytes, false));
    RunOne(c, t, [write, sync]);
    RunOne(c, written, [sync]);
    assert [write, sync][1..] == [sync];
  }

  lemma UndisturbedEnds(c: Codec, s: State, t: State, id: nat, patch: Patch, unused: nat, bytes: Bytes)
    requires Advanced(s, t, id, Update(patch, Renaming(unused, bytes)), unused, Inode(bytes, true))
    ensures var r := Run(c, t, [Own(id, RenameTemporary(true)), Own(id, Unlock)]);
            && r.log == s.log + [Commit(id, patch)] && r.acked == s.acked + {id} && r.lost == s.lost && r.lock.None?
            && r.updates == s.updates[id := Update(patch, Returned(true))]
            && s.disk.journal <= r.disk.journal && |r.disk.journal| == |s.disk.journal| + 2
            && Exists(r.disk, Document) && r.disk.inodes[InodeOf(r.disk, Document)] == Inode(bytes, true)
  {
    var rename, unlock := Own(id, RenameTemporary(true)), Own(id, Unlock);
    var renamed := Apply(c, t, rename);
    assert renamed.updates == s.updates[id := Update(patch, Unlocking(true))];
    assert renamed.log == s.log + [Commit(id, patch)] && renamed.disk == Rename(t.disk, Temporary(id), Document);
    RunOne(c, t, [rename, unlock]);
    RunOne(c, renamed, [unlock]);
    assert [rename, unlock][1..] == [unlock];
  }

  /**
   * An update that finds the lock free and the document readable, and that nothing disturbs,
   * commits its patch last, puts the whole merged document in place, its data durable, and
   * returns Ok; the other updates are where they were.
   */
  lemma UndisturbedUpdateCommits(c: Codec, s: State, id: nat, patch: Patch, unused: nat)
    requires FreeFor(c, s, id, unused)
    ensures var bytes := NewPrint(c, s, patch);
            var t := Run(c, s, Undisturbed(id, patch, unused, bytes));
            && t.log == s.log + [Commit(id, patch)] && t.acked == s.acked + {id} && t.lost == s.lost && t.lock.None?
            && t.updates == s.updates[id := Update(patch, Returned(true))]
            && s.disk.journal <= t.disk.journal && |t.disk.journal| == |s.disk.journal| + 2
            && Exists(t.disk, Document) && t.disk.inodes[InodeOf(t.disk, Document)] == Inode(bytes, true)
  {
    var bytes := NewPrint(c, s, patch);
    var steps := Undisturbed(id, patch, unused, bytes);
    UndisturbedReachesCreate(c, s, id, patch, unused);
    var created := Run(c, s, steps[..4]);
    UndisturbedReachesRename(c, s, created, id, patch, unused, bytes);
    var synced := Run(c, created, steps[4..6]);
    assert steps[4..6] == [Own(id, WriteChunk(|bytes|, true)), Own(id, SyncTemporary(true))];
    UndisturbedEnds(c, s, synced, id, patch, unused, bytes);
    assert steps[6..] == [Own(id, RenameTemporary(true)), Own(id, Unlock)];
    RunAppend(c, s, steps[..4], steps[4..]);
    RunAppend(c, created, steps[4..6], steps[6..]);
    assert steps == steps[..4] + steps[4..] && steps[4..] == steps[4..6] + steps[6..];
  }

  // -------------------------------------------------------------- what can be lost

  /** A power cut undoes no rename when it falls back to a directory as new as the last commit. */
  predicate UndoesNoRename(s: State, step: Step) {
    step.PowerCut? && step.operations < |s.disk.journal| ==> s.disk.journal[step.operations].commits >= |s.log|
  }

  /** No power cut of the run undoes a rename, whatever other directory operations it undoes. */
  ghost predicate RenamesSurvive(c: Codec, s: State, steps: seq<Step>)
    decreases |steps|
  {
    steps != [] ==> UndoesNoRename(s, steps[0]) && RenamesSurvive(c, Apply(c, s, steps[0]), steps[1..])
  }

  /** A step takes a commit back iff it is a power cut that undoes a rename. */
  lemma StepLosesNothingIff(c: Codec, doc: Option<Bytes>, s: State, step: Step)
    requires DiskInv(c, doc, s)
    ensures s.log <= Apply(c, s, step).log <==> UndoesNoRename(s, step)
    ensures UndoesNoRename(s, step) ==> Apply(c, s, step).lost == s.lost
  {
    match step
    case PowerCut(k, torn) =>
      if k < |s.disk.journal| {
        assert HoldsFold(c, doc, s.log, s.disk.inodes, s.disk.journal[k]);
        if UndoesNoRename(s, step) { assert s.log[..|s.log|] == s.log && s.log[|s.log|..] == []; }
      }
    case Own(id, event) => if id in s.updates { OwnStepExtends(c, s, id, event); }
    case _ =>
  }

  lemma {:induction false} NothingLost(c: Codec, doc: Option<Bytes>, s: State, steps: seq<Step>)
    requires Faithful(c) && Inv(c, doc, s) && UsedInv(s) && RenamesSurvive(c, s, steps)
    ensures Run(c, s, steps).lost == s.lost && s.log <= Run(c, s, steps).log
    decreases |steps|
  {
    if steps != [] {
      StepLosesNothingIff(c, doc, s, steps[0]);
      ApplyKeepsInv(c, doc, s, steps[0]);
      NothingLost(c, doc, Apply(c, s, steps[0]), steps[1..]);
    }
  }

  /**
   * While no power cut undoes a rename, every update that returned Ok is in the log, and so
   * in everything read later; cuts may come at any step and undo any other operation.
   */
  lemma AcknowledgedUpdatesLast(c: Codec, doc: Option<Bytes>, steps: seq<Step>)
    requires Faithful(c) && RenamesSurvive(c, Initial(doc), steps)
    ensures var s := Run(c, Initial(doc), steps); s.acked <= Ids(s.log)
  {
    InitialInv(c, doc);
    RunKeepsInv(c, doc, Initial(doc), steps);
    NothingLost(c, doc, Initial(doc), steps);
  }

  /** A cut while a later update writes undoes only the creation of its temporary file, and so no rename. */
  lemma CutWhileWritingUndoesNoRename(c: Codec, s: State, id: nat, patch: Patch, unused: nat, torn: map<nat, Bytes>)
    requires FreeFor(c, s, id, unused) && Now(s.disk).commits == |s.log|
    ensures var steps := Undisturbed(id, patch, unused, NewPrint(c, s, patch))[..4];
            UndoesNoRename(Run(c, s, steps), PowerCut(|s.disk.journal| - 1, torn))
  {
    UndisturbedReachesCreate(c, s, id, patch, unused);
  }

  /**
   * The store never syncs the directory, and this is exactly what it costs: a power cut can
   * take back the j-th commit if and only if its rename is not among the directory operations
   * known to be durable.
   */
  lemma CommitCanBeLostIffNotFlushed(c: Codec, doc: Option<Bytes>, steps: seq<Step>, j: nat)
    requires Faithful(c) && j < |Run(c, Initial(doc), steps).log|
    ensures
      var s := Run(c, Initial(doc), steps);
      && |s.disk.journal| > 0
      && ((exists k :: 0 <= k < |s.disk.journal| && |Crashed(s, k, map[]).log| <= j) <==>
          s.disk.journal[0].commits <= j)
  {
    InitialInv(c, doc);
    RunKeepsInv(c, doc, Initial(doc), steps);
    var s := Run(c, Initial(doc), steps);
    assert HoldsFold(c, doc, s.log, s.disk.inodes, s.disk.journal[0]);
    if s.disk.journal[0].commits <= j {
      assert |Crashed(s, 0, map[]).log| <= j;
    } else {
      forall k | 0 <= k < |s.disk.journal| ensures |Crashed(s, k, map[]).log| > j {
        assert HoldsFold(c, doc, s.log, s.disk.inodes, s.disk.journal[k]);
      }
    }
  }

  /** The step leaves an update acknowledged of which nothing is left in the document. */
  ghost predicate LosesAcknowledged(c: Codec, s: State, step: Step, id: nat) {
    var t := Apply(c, s, step);
    step.PowerCut? && id in t.acked && id in t.lost && id !in Ids(t.log)
  }

  /**
   * Returning Ok does not help: an acknowledged update can be lost to a power cut if and only
   * if its rename is not among the directory operations known to be durable.
   */
  lemma AcknowledgedCanBeLostIffNotFlushed(c: Codec, doc: Option<Bytes>, steps: seq<Step>, id: nat)
    requires Faithful(c) && id in Run(c, Initial(doc), steps).acked
    ensures
      var s := Run(c, Initial(doc), steps);
      && |s.disk.journal| > 0 && s.disk.journal[0].commits <= |s.log|
      && ((exists step :: LosesAcknowledged(c, s, step, id)) <==> id !in Ids(s.log[..s.disk.journal[0].commits]))
  {
    InitialInv(c, doc);
    RunKeepsInv(c, doc, Initial(doc), steps);
    var s := Run(c, Initial(doc), steps);
    assert HoldsFold(c, doc, s.log, s.disk.inodes, s.disk.journal[0]);
    var durable := s.disk.journal[0].commits;
    if id in Ids(s.log[..durable]) {
      forall step ensures !LosesAcknowledged(c, s, step, id) {
        if step.PowerCut? {
          DurableKept(c, doc, s, step);
          InPrefix(Apply(c, s, step).log, s.log, durable, id);
        }
      }
    } else {
      var cut := PowerCut(0, map[]);
      LostOrKept(s.log, durable, id);
      assert Apply(c, s, cut).log == s.log[..durable] && Apply(c, s, cut).lost == s.lost + Ids(s.log[durable..]);
      assert LosesAcknowledged(c, s, cut, id);
    }
  }

  lemma InPrefix(a: seq<Commit>, b: seq<Commit>, n: nat, id: nat)
    requires n <= |a| && n <= |b| && a[..n] == b[..n] && id in Ids(b[..n])
    ensures id in Ids(a)
  {
    var k :| 0 <= k < n && b[..n][k].id == id;
    assert a[k] == a[..n][k];
  }

  lemma LostOrKept(log: seq<Commit>, n: nat, id: nat)
    requires n <= |log|
    ensures id in Ids(log) <==> id in Ids(log[..n]) || id in Ids(log[n..])
  {
    if id in Ids(log) {
      var k :| 0 <= k < |log| && log[k].id == id;
      if k < n { assert log[..n][k].id == id; } else { assert log[n..][k - n].id == id; }
    }
    if id in Ids(log[n..]) {
      var k :| 0 <= k < |log[n..]| && log[n..][k].id == id;
      assert log[n + k].id == id;
    }
  }

  /**
   * It happens: the first update of a fresh run returns Ok, the power is cut before its
   * rename is durable, and the settings read as if it had never been.
   */
  lemma AcknowledgedUpdateLost(c: Codec, doc: Option<Bytes>, id: nat, patch: Patch)
    requires Faithful(c) && Mergeable(c, doc)
    ensures
      var steps := Undisturbed(id, patch, 1, NewPrint(c, Initial(doc), patch)) + [PowerCut(0, map[])];
      var t := Run(c, Initial(doc), steps);
      id in t.acked && id in t.lost && t.log == [] && ReadSettings(c, t.disk) == Some(Base(c, doc))
  {
    var s := Initial(doc);
    var steps := Undisturbed(id, patch, 1, NewPrint(c, s, patch));
    var cut: Step := PowerCut(0, map[]);
    UndisturbedUpdateCommits(c, s, id, patch, 1);
    RunAppend(c, s, steps, [cut]);
    var u := Run(c, s, steps);
    RunOne(c, u, [cut]);
    CutToNothing(u, Commit(id, patch));
    ReadIsFoldOfLog(c, doc, steps + [cut]);
  }

  lemma CutToNothing(s: State, commit: Commit)
    requires s.log == [commit] && |s.disk.journal| > 0 && s.disk.journal[0].commits == 0
    ensures var t := Crashed(s, 0, map[]); t.log == [] && commit.id in t.lost && t.acked == s.acked
  {
    assert s.log[..0] == [] && s.log[0..] == [commit];
    assert [commit][0].id in Ids([commit]);
  }

  lemma OwnStepExtends(c: Codec, s: State, id: nat, event: Event)
    requires id in s.updates && |s.disk.journal| > 0
    ensures
      var t := OwnStep(c, s, id, event);
      s.log <= t.log && |t.disk.journal| > 0 && t.disk.journal[0] == s.disk.journal[0] && t.lost == s.lost
  {
  }

  lemma DurableKept(c: Codec, doc: Option<Bytes>, s: State, step: Step)
    requires Faithful(c) && Inv(c, doc, s) && UsedInv(s)
    ensures
      var n := s.disk.journal[0].commits;
      var t := Apply(c, s, step);
      && n <= |s.log| && n <= |t.log| && t.log[..n] == s.log[..n]
      && |t.disk.journal| > 0 && n <= t.disk.journal[0].commits
  {
    assert HoldsFold(c, doc, s.log, s.disk.inodes, s.disk.journal[0]);
    match step
    case Start(_, _) =>
    case FlushDirectory(k) =>
    case PowerCut(k, torn) =>
      if k < |s.disk.journal| { assert HoldsFold(c, doc, s.log, s.disk.inodes, s.disk.journal[k]); }
    case Own(id, event) => if id in s.updates { OwnStepExtends(c, s, id, event); }
  }

  /** Once its rename is durable, an update stays, whatever crashes come. */
  lemma {:induction false} DurableUpdatesStay(c: Codec, doc: Option<Bytes>, s: State, steps: seq<Step>)
    requires Faithful(c) && Inv(c, doc, s) && UsedInv(s)
    ensures
      var n := s.disk.journal[0].commits;
      var t := Run(c, s, steps);
      n <= |s.log| && n <= |t.log| && t.log[..n] == s.log[..n]
    decreases |steps|
  {
    assert HoldsFold(c, doc, s.log, s.disk.inodes, s.disk.journal[0]);
    if steps != [] {
      var n, u := s.disk.journal[0].commits, Apply(c, s, steps[0]);
      DurableKept(c, doc, s, steps[0]);
      ApplyKeepsInv(c, doc, s, steps[0]);
      DurableUpdatesStay(c, doc, u, steps[1..]);
      var t := Run(c, s, steps);
      assert t.log[..u.disk.journal[0].commits][..n] == t.log[..n];
      assert u.log[..u.disk.journal[0].commits][..n] == u.log[..n];
    }
  }

  // ------------------------------------------- a document that cannot be merged into

  /** Nothing has been committed, and no update is past reading the document or about to return Ok. */
  predicate Refusing(s: State) {
    && s.log == [] && s.acked == {} && s.lost == {}
    && forall id :: id in s.updates ==>
         var p := s.updates[id].phase;
         !p.Merging? && !p.Writing? && !p.Renaming? && p != Unlocking(true) && p != Returned(true)
  }

  /** While nothing is committed, the document is the very file that was there first. */
  lemma FirstDocumentStays(c: Codec, doc: Option<Bytes>, s: State)
    requires DiskInv(c, doc, s) && s.log == [] && doc.Some?
    ensures Exists(s.disk, Document) && Content(s.disk, Document) == doc.value
  {
    assert HoldsFold(c, doc, s.log, s.disk.inodes, Now(s.disk));
  }

  lemma StepStaysRefusing(c: Codec, doc: Option<Bytes>, s: State, step: Step)
    requires DiskInv(c, doc, s) && doc.Some? && !Mergeable(c, doc) && Refusing(s)
    ensures Refusing(Apply(c, s, step))
  {
    FirstDocumentStays(c, doc, s);
    match step
    case PowerCut(k, torn) => if k < |s.disk.journal| { assert Ids(s.log) == {}; }
    case _ =>
  }

  lemma {:induction false} RunStaysRefusing(c: Codec, doc: Option<Bytes>, s: State, steps: seq<Step>)
    requires Faithful(c) && doc.Some? && !Mergeable(c, doc) && Inv(c, doc, s) && UsedInv(s) && Refusing(s)
    ensures Refusing(Run(c, s, steps)) && Inv(c, doc, Run(c, s, steps))
    decreases |steps|
  {
    if steps != [] {
      ApplyKeepsInv(c, doc, s, steps[0]);
      StepStaysRefusing(c, doc, s, steps[0]);
      RunStaysRefusing(c, doc, Apply(c, s, steps[0]), steps[1..]);
    }
  }

  /**
   * A settings file that does not parse, or that is too large, is never merged over: in every
   * run, with whatever updates, failures and power cuts, nothing is committed, no update
   * returns Ok, and the document still has exactly its first bytes.
   */
  lemma UnreadableDocumentIsLeftAlone(c: Codec, doc: Option<Bytes>, steps: seq<Step>)
    requires Faithful(c) && doc.Some? && (|doc.value| > 67108864 || c.parse(doc.value).None?)
    ensures
      var t := Run(c, Initial(doc), steps);
      && t.log == [] && t.acked == {}
      && (forall id :: id in t.updates ==> t.updates[id].phase != Returned(true))
      && Exists(t.disk, Document) && Content(t.disk, Document) == doc.value
  {
    InitialInv(c, doc);
    RunStaysRefusing(c, doc, Initial(doc), steps);
    FirstDocumentStays(c, doc, Run(c, Initial(doc), steps));
  }

  /**
   * Both ways: the first update of a fresh run, undisturbed, commits if and only if the
   * document is missing or is of the size that is read and parses.
   */
  lemma FirstUpdateCommitsIff(c: Codec, doc: Option<Bytes>, id: nat, patch: Patch, unused: nat)
    requires Faithful(c) && unused > 0
    ensures
      var s := Initial(doc);
      var merged := Merged(Base(c, doc), patch);
      var t := Run(c, s, Undisturbed(id, patch, unused, c.encode(merged)));
      (doc.Some? ==> |doc.value| <= 67108864 && c.parse(doc.value).Some?) <==>
      id in t.acked && Exists(t.disk, Document) && Content(t.disk, Document) == c.encode(merged)
  {
    var s := Initial(doc);
    var steps := Undisturbed(id, patch, unused, c.encode(Merged(Base(c, doc), patch)));
    if Mergeable(c, doc) {
      ReadIsFoldOfLog(c, doc, []);
      assert Run(c, s, []) == s && ReadSettings(c, s.disk) == Some(Base(c, doc));
      UndisturbedUpdateCommits(c, s, id, patch, unused);
    } else {
      UnreadableDocumentIsLeftAlone(c, doc, steps);
    }
  }

  // ----------------------------------------------------- what an update that fails leaves

  /** The step is the one the update does next, and it fails. */
  predicate FailsNow(s: State, id: nat, event: Event)
    requires id in s.updates
  {
    match s.updates[id].phase
    case Reading => event == Read(false)
    case Merging(_) => event.CreateTemporary? && !event.ok
    case Writing(inode, bytes, written) =>
      inode in s.disk.inodes && ((event.WriteChunk? && !event.ok) || (event == SyncTemporary(false) && written == |bytes|))
    case Renaming(_, _) => event == RenameTemporary(false) && Exists(s.disk, Temporary(id))
    case _ => false
  }

  /** A step that fails ends its update with an error: the lock is free again, and the log and the document are as they were. */
  lemma FailureEndsTheUpdate(c: Codec, s: State, id: nat, event: Event)
    requires id in s.updates && |s.disk.journal| > 0 && FailsNow(s, id, event)
    ensures
      var t := Run(c, s, [Own(id, event), Own(id, Unlock)]);
      && id in t.updates && t.updates[id].phase == Returned(false) && t.lock.None?
      && t.log == s.log && t.acked == s.acked
      && (Exists(t.disk, Document) <==> Exists(s.disk, Document))
      && (Exists(s.disk, Document) ==> Content(t.disk, Document) == Content(s.disk, Document))
      && (event.RenameTemporary? ==> !Exists(t.disk, Temporary(id)))
  {
    var steps := [Own(id, event), Own(id, Unlock)];
    RunOne(c, s, steps);
    assert steps[1..] == [Own(id, Unlock)];
    var failed := Apply(c, s, steps[0]);
    assert failed.updates[id].phase == Unlocking(false);
    RunOne(c, failed, steps[1..]);
  }

  /** Only updates that went through, and were started, are in the log or among the lost. */
  ghost predicate OutcomesAgree(s: State) {
    && (forall id :: id in Ids(s.log) + s.lost + s.acked ==> id in s.used)
    && forall id :: id in s.updates ==>
         var p := s.updates[id].phase;
         && (id in Ids(s.log) ==> p == Unlocking(true) || p == Returned(true))
         && id !in s.lost
         && (id in s.acked <==> p == Returned(true))
  }

  lemma IdsAppend(log: seq<Commit>, commit: Commit)
    ensures Ids(log + [commit]) == Ids(log) + {commit.id}
  {
    assert (log + [commit])[|log|] == commit;
    forall i | i in Ids(log) ensures i in Ids(log + [commit]) {
      var k :| 0 <= k < |log| && log[k].id == i;
      assert (log + [commit])[k].id == i;
    }
  }

  lemma CutKeepsOutcomes(c: Codec, s: State, k: nat, torn: map<nat, Bytes>)
    requires OutcomesAgree(s) && k < |s.disk.journal|
    ensures OutcomesAgree(Crashed(s, k, torn))
  {
    var n := if s.disk.journal[k].commits <= |s.log| then s.disk.journal[k].commits else |s.log|;
    forall id ensures id in Ids(s.log) <==> id in Ids(s.log[..n]) || id in Ids(s.log[n..]) {
      LostOrKept(s.log, n, id);
    }
  }

  lemma OwnStepKeepsOutcomes(c: Codec, s: State, id: nat, event: Event)
    requires UsedInv(s) && OutcomesAgree(s) && id in s.updates
    ensures OutcomesAgree(OwnStep(c, s, id, event))
  {
    if event.RenameTemporary? { IdsAppend(s.log, Commit(id, s.updates[id].patch)); }
  }

  lemma StepKeepsOutcomes(c: Codec, s: State, step: Step)
    requires UsedInv(s) && OutcomesAgree(s)
    ensures OutcomesAgree(Apply(c, s, step))
  {
    match step
    case PowerCut(k, torn) => if k < |s.disk.journal| { CutKeepsOutcomes(c, s, k, torn); }
    case Own(id, event) => if id in s.updates { OwnStepKeepsOutcomes(c, s, id, event); }
    case _ =>
  }

  lemma {:induction false} RunKeepsOutcomes(c: Codec, s: State, steps: seq<Step>)
    requires UsedInv(s) && OutcomesAgree(s)
    ensures OutcomesAgree(Run(c, s, steps))
    decreases |steps|
  {
    if steps != [] {
      ApplyKeepsUsedInv(c, s, steps[0]);
      StepKeepsOutcomes(c, s, steps[0]);
      RunKeepsOutcomes(c, Apply(c, s, steps[0]), steps[1..]);
    }
  }

  /**
   * What an update returned is what happened to it: in every run one that returned an error
   * is neither in the document nor was ever, and one that returned Ok is acknowledged.
   */
  lemma ReturnedErrorLeavesNoTrace(c: Codec, doc: Option<Bytes>, steps: seq<Step>, id: nat)
    requires id in Run(c, Initial(doc), steps).updates
    ensures
      var s := Run(c, Initial(doc), steps);
      && (s.updates[id].phase == Returned(false) ==> id !in Ids(s.log) && id !in s.lost && id !in s.acked)
      && (s.updates[id].phase == Returned(true) <==> id in s.acked)
  {
    RunKeepsOutcomes(c, Initial(doc), steps);
  }

  // ------------------------------------------------------------ the size cap

  /** The document is too large to be read again, and nobody is about to replace it. */
  predicate Wedged(s: State) {
    && Exists(s.disk, Document) && |Content(s.disk, Document)| > MAX_DOCUMENT_BYTES
    && forall id :: id in s.updates ==>
         !s.updates[id].phase.Merging? && !s.updates[id].phase.Writing? && !s.updates[id].phase.Renaming?
  }

  lemma CutStaysWedged(c: Codec, doc: Option<Bytes>, s: State, k: nat, torn: map<nat, Bytes>)
    requires DiskInv(c, doc, s) && Wedged(s) && k < |s.disk.journal| && s.disk.journal[k].commits >= |s.log|
    ensures Wedged(Crashed(s, k, torn)) && Crashed(s, k, torn).log == s.log
  {
    assert HoldsFold(c, doc, s.log, s.disk.inodes, s.disk.journal[k]);
    assert HoldsFold(c, doc, s.log, s.disk.inodes, Now(s.disk));
    assert s.log[..|s.log|] == s.log;
  }

  lemma OwnStepStaysWedged(c: Codec, s: State, id: nat, event: Event)
    requires Wedged(s) && id in s.updates
    ensures Wedged(OwnStep(c, s, id, event)) && OwnStep(c, s, id, event).log == s.log
  {}

  lemma StepStaysWedged(c: Codec, doc: Option<Bytes>, s: State, step: Step)
    requires DiskInv(c, doc, s) && Wedged(s) && UndoesNoRename(s, step)
    ensures Wedged(Apply(c, s, step)) && Apply(c, s, step).log == s.log
  {
    match step
    case PowerCut(k, torn) => if k < |s.disk.journal| { CutStaysWedged(c, doc, s, k, torn); }
    case Own(id, event) => if id in s.updates { OwnStepStaysWedged(c, s, id, event); }
    case _ =>
  }

  /**
   * The size is capped when reading but not when writing: once the document is beyond the cap
   * no update ever commits again, whatever it removes, unless a power cut undoes a rename.
   */
  lemma {:induction false} OversizeRefusesEveryUpdate(c: Codec, doc: Option<Bytes>, s: State, steps: seq<Step>)
    requires Faithful(c) && Inv(c, doc, s) && UsedInv(s) && Wedged(s) && RenamesSurvive(c, s, steps)
    ensures var t := Run(c, s, steps); Wedged(t) && t.log == s.log && ReadSettings(c, t.disk).None?
    decreases |steps|
  {
    if steps != [] {
      StepStaysWedged(c, doc, s, steps[0]);
      ApplyKeepsInv(c, doc, s, steps[0]);
      OversizeRefusesEveryUpdate(c, doc, Apply(c, s, steps[0]), steps[1..]);
    }
  }

  /** An undisturbed update gets the store there iff what it writes is beyond the cap. */
  lemma UpdateWedgesIffOversize(c: Codec, doc: Option<Bytes>, s: State, id: nat, patch: Patch, unused: nat)
    requires Inv(c, doc, s) && FreeFor(c, s, id, unused)
    ensures
      var bytes := NewPrint(c, s, patch);
      Wedged(Run(c, s, Undisturbed(id, patch, unused, bytes))) <==> |bytes| > 67108864
  {
    UndisturbedUpdateCommits(c, s, id, patch, unused);
    assert forall i :: i in s.updates ==> !HoldsLock(s.updates[i].phase);
  }
}
