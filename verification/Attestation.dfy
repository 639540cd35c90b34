/**
 * Attestation of installed executables with a cache of file hashes.
 *
 * Other processes may modify files, or save caches of their own, between any two
 * system calls.  `Host.Interfere` stands for all of them.  The one thing assumed of
 * them is that a file they modify, or create, gets an `Info` no file has had before,
 * as the change time, the size and the inode number make it; and that a cache is only
 * ever written by `Save`.
 */
module Attestation {
  import opened Wrappers

  type Bytes = seq<bv8>
  type Digest = string

  /** A receipt is the file of its provider's name in the directory of receipts. */
  datatype Path = ReceiptOf(provider: Provider) | File(path: string)

  datatype Provider = Claude | Codex | Grok | Kimi | Zai | UnknownProvider(name: string)

  datatype Role = Entrypoint | ClaudeCli | CodexLauncher | CodexNativeExecutable | GrokNative | RipgrepExecutable

  datatype Recipe = LinuxNativeTextV1 | OtherRecipe(name: string)

  datatype Status = Passed | OtherStatus(name: string)

  /** What `fstat` and `lstat` report and the identity of a file is made of. */
  datatype Info = Info(dev: int, ino: int, size: int, mtime: int, ctime: int, uid: int, gid: int, mode: bv16, nlink: int)

  datatype Identity = Identity(path: Path, info: Info)

  datatype Inode = Inode(info: Info, bytes: Bytes)

  /** Directory entries name inodes; an open descriptor keeps its inode when an entry is replaced. */
  datatype Fs = Fs(inodes: map<nat, Inode>, dir: map<Path, nat>)

  datatype Entry = Entry(identity: Identity, sha256: Digest)

  datatype Context = Context(schemaVersion: int, provider: Provider, sandboxRevision: string, policyFingerprint: string,
                             receipt: Identity, receiptSha256: Digest)

  datatype CacheFile = Missing | Unprotected | Damaged | Saved(context: Context, entries: map<Path, Entry>)

  datatype Artifact = Artifact(path: Path, sha256: Digest)

  datatype Header = Header(schemaVersion: int, recipe: Recipe, provider: Provider, sandboxRevision: string,
                           policyFingerprint: string, status: Status)

  datatype Proof = Proof(header: Header, runtimeArtifacts: map<Role, Artifact>)

  datatype Operation = Verify | VerifyCold | VerifyStrict

  datatype Request = Request(provider: Provider, revision: string, policy: string)

  /** A file that is open: the path it was opened by, its inode and what `fstat` reported. */
  datatype Opened = Opened(path: Path, inode: nat, info: Info)

  /** A file to attest: the target of a pinned launcher script, or one found by its place. */
  datatype Name =
    | ClaudeAcpTarget | ClaudeTarget | CodexAcpTarget | CodexTarget | GrokTarget | KimiTarget | OpencodeTarget
    | CodexNative | Ripgrep

  const CHUNK: nat := 1024 * 1024

  // ------------------------------------------------------------------ checks

  predicate ProtectedFile(info: Info) {
    info.mode & 0xF000 == 0x8000 && info.uid == 0 && info.mode & 0x12 == 0
  }

  predicate ProtectedReceipt(info: Info) {
    ProtectedFile(info) && info.nlink == 1 && info.size <= 8192
  }

  predicate IsHex64(digest: Digest) {
    |digest| == 64 && forall i :: 0 <= i < 64 ==> '0' <= digest[i] <= '9' || 'a' <= digest[i] <= 'f'
  }

  function CachedDigest(entries: map<Path, Entry>, path: Path, observed: Identity): Option<Digest> {
    if path in entries && entries[path].identity == observed && IsHex64(entries[path].sha256) then
      Some(entries[path].sha256)
    else None
  }

  /** The roles a provider's receipt covers, in the order they are hashed. */
  function Roles(provider: Provider): seq<Role> {
    match provider
    case Claude => [Entrypoint, ClaudeCli]
    case Codex => [Entrypoint, CodexLauncher, CodexNativeExecutable]
    case Grok => [Entrypoint]
    case Kimi => [Entrypoint]
    case Zai => [Entrypoint, RipgrepExecutable]
    case UnknownProvider(_) => []
  }

  function NameOf(provider: Provider, role: Role): Name {
    match role
    case Entrypoint =>
      (match provider
       case Claude => ClaudeAcpTarget case Codex => CodexAcpTarget case Grok => GrokTarget
       case Kimi => KimiTarget case _ => OpencodeTarget)
    case ClaudeCli => ClaudeTarget
    case CodexLauncher => CodexTarget
    case CodexNativeExecutable => CodexNative
    case GrokNative => GrokTarget
    case RipgrepExecutable => Ripgrep
  }

  /** Grok's entry point is its native executable, so it is reported under both roles. */
  function Reported(provider: Provider, found: map<Role, Artifact>): map<Role, Artifact> {
    if provider == Grok && Entrypoint in found then found[GrokNative := found[Entrypoint]] else found
  }

  predicate HeaderFits(header: Header, req: Request) {
    header == Header(1, LinuxNativeTextV1, req.provider, req.revision, req.policy, Passed)
  }

  // ------------------------------------------------- the strict specification

  /** What the code around the cache cannot see into: SHA-256, the JSON decoder, path resolution, directory modes. */
  datatype Oracles = Oracles(hash: Bytes -> Digest, parse: Bytes -> Option<Proof>, resolve: (Fs, Name) -> Option<Path>,
                             directoriesProtected: Fs -> bool)

  ghost predicate Sane(o: Oracles) {
    forall b :: IsHex64(o.hash(b))
  }

  ghost predicate HasFile(fs: Fs, path: Path) {
    path in fs.dir && fs.dir[path] in fs.inodes
  }

  ghost function FileAt(fs: Fs, path: Path): Inode
    requires HasFile(fs, path)
  {
    fs.inodes[fs.dir[path]]
  }

  /** The artifact a full hash yields for `name` while the file system stands still. */
  ghost function StrictArtifact(o: Oracles, fs: Fs, name: Name): Option<Artifact> {
    match o.resolve(fs, name)
    case None => None
    case Some(path) =>
      if HasFile(fs, path) && ProtectedFile(FileAt(fs, path).info) then
        Some(Artifact(path, o.hash(FileAt(fs, path).bytes)))
      else None
  }

  ghost function StrictCollect(o: Oracles, fs: Fs, provider: Provider, roles: seq<Role>): Option<map<Role, Artifact>> {
    if roles == [] then Some(map[])
    else
      var last := roles[|roles| - 1];
      match (StrictCollect(o, fs, provider, roles[..|roles| - 1]), StrictArtifact(o, fs, NameOf(provider, last)))
      case (Some(found), Some(a)) => Some(found[last := a])
      case _ => None
  }

  /** The proof of a receipt, if it is for this request. */
  function ProofFor(o: Oracles, raw: Bytes, req: Request): Option<Proof> {
    match o.parse(raw)
    case Some(proof) => if HeaderFits(proof.header, req) then Some(proof) else None
    case None => None
  }

  /** validate_receipt on the content of a receipt. */
  ghost function StrictValidate(o: Oracles, fs: Fs, raw: Bytes, req: Request): Option<map<Role, Artifact>> {
    match (ProofFor(o, raw, req), StrictCollect(o, fs, req.provider, Roles(req.provider)))
    case (Some(proof), Some(found)) =>
      if proof.runtimeArtifacts == Reported(req.provider, found) then Some(proof.runtimeArtifacts) else None
    case _ => None
  }

  predicate Admissible(req: Request) {
    !req.provider.UnknownProvider? && |req.revision| == 64 && |req.policy| == 64
  }

  ghost predicate ReceiptReadable(fs: Fs, path: Path) {
    HasFile(fs, path) && ProtectedReceipt(FileAt(fs, path).info) && |FileAt(fs, path).bytes| <= 8192
  }

  /** What verify-strict prints in state `fs`, or None where it rejects. */
  ghost function StrictOutcome(o: Oracles, fs: Fs, req: Request): Option<map<Role, Artifact>> {
    var path := ReceiptOf(req.provider);
    if Admissible(req) && o.directoriesProtected(fs) && ReceiptReadable(fs, path) then
      StrictValidate(o, fs, FileAt(fs, path).bytes, req)
    else None
  }

  // ---------------------------------------------------------------- the host

  /** Every file keeps its bytes or gets an `Info` never seen before. */
  predicate Lawful(seen: map<Info, Bytes>, fs: Fs, next: Fs) {
    && (forall p :: p in next.dir ==> next.dir[p] in next.inodes)
    && (forall o :: o in fs.inodes ==> o in next.inodes)
    && (forall o :: o in next.inodes ==> (o in fs.inodes && next.inodes[o] == fs.inodes[o]) || next.inodes[o].info !in seen)
  }

  predicate NoneReturns(seen: map<Info, Bytes>, fs: Fs, next: Fs) {
    forall o :: o in fs.inodes ==>
      o in next.inodes && (next.inodes[o].info in seen ==> next.inodes[o] == fs.inodes[o])
  }

  predicate Recorded(seen: map<Info, Bytes>, fs: Fs) {
    forall o :: o in fs.inodes ==> fs.inodes[o].info in seen && seen[fs.inodes[o].info] == fs.inodes[o].bytes
  }

  predicate Grown(seen: map<Info, Bytes>, seen': map<Info, Bytes>) {
    forall k :: k in seen ==> k in seen' && seen'[k] == seen[k]
  }

  /** An entry is sound when the file that had its identity had the digest's content. */
  predicate SoundEntries(hash: Bytes -> Digest, seen: map<Info, Bytes>, entries: map<Path, Entry>) {
    forall p :: p in entries ==>
      var info := entries[p].identity.info; info in seen && entries[p].sha256 == hash(seen[info])
  }

  predicate SoundCache(hash: Bytes -> Digest, seen: map<Info, Bytes>, cache: CacheFile) {
    cache.Saved? ==> SoundEntries(hash, seen, cache.entries)
  }

  /** `Artifact(path, sha)` was what `name` stood for at the moment of `fs`. */
  ghost predicate AttestedAt(o: Oracles, fs: Fs, a: Artifact) {
    HasFile(fs, a.path) && ProtectedFile(FileAt(fs, a.path).info) && a.sha256 == o.hash(FileAt(fs, a.path).bytes)
  }

  /** `name` led to the artifact's path at one moment, and the path to its digest at that or a later one. */
  ghost predicate Attested(o: Oracles, log: seq<Fs>, name: Name, a: Artifact) {
    exists j, i :: 0 <= j <= i < |log| && o.resolve(log[j], name) == Some(a.path) && AttestedAt(o, log[i], a)
  }

  /** `name` led to `path` at one moment, and at that or a later one `path` held `inode`. */
  ghost predicate Held(o: Oracles, log: seq<Fs>, name: Name, path: Path, inode: Inode) {
    exists j, i :: 0 <= j <= i < |log| && o.resolve(log[j], name) == Some(path) && HasFile(log[i], path)
                   && FileAt(log[i], path) == inode
  }

  ghost predicate AllAttested(o: Oracles, log: seq<Fs>, provider: Provider, found: map<Role, Artifact>) {
    forall role :: role in found ==> Attested(o, log, NameOf(provider, role), found[role])
  }

  /** What each provider's runtime is: the roles its receipt must cover, and the name each file is found under. */
  function Runtime(provider: Provider): map<Role, Name> {
    match provider
    case Claude => map[Entrypoint := ClaudeAcpTarget, ClaudeCli := ClaudeTarget]
    case Codex => map[Entrypoint := CodexAcpTarget, CodexLauncher := CodexTarget, CodexNativeExecutable := CodexNative]
    case Grok => map[Entrypoint := GrokTarget, GrokNative := GrokTarget]
    case Kimi => map[Entrypoint := KimiTarget]
    case Zai => map[Entrypoint := OpencodeTarget, RipgrepExecutable := Ripgrep]
    case UnknownProvider(_) => map[]
  }

  /** Exactly the runtime's roles, each with what its file held at a moment of `log`. */
  ghost predicate RuntimeAttested(o: Oracles, log: seq<Fs>, provider: Provider, a: map<Role, Artifact>) {
    a.Keys == Runtime(provider).Keys && forall role :: role in a ==> Attested(o, log, Runtime(provider)[role], a[role])
  }

  /** `path` holds a protected receipt for `req` that lists exactly `artifacts`. */
  ghost predicate ReceiptHeld(o: Oracles, fs: Fs, path: Path, req: Request, artifacts: map<Role, Artifact>) {
    && HasFile(fs, path) && ProtectedReceipt(FileAt(fs, path).info)
    && ListsExactly(ProofFor(o, FileAt(fs, path).bytes, req), artifacts)
  }

  predicate ListsExactly(proof: Option<Proof>, artifacts: map<Role, Artifact>) {
    proof.Some? && proof.value.runtimeArtifacts == artifacts
  }

  /**
   * What an accepting verification has established of the artifacts it prints: at a moment
   * of `log` the receipt in place listed exactly these, and each was the hash of what its
   * file held at a moment of `log`.
   */
  ghost predicate Verified(o: Oracles, log: seq<Fs>, path: Path, req: Request, artifacts: map<Role, Artifact>) {
    && (exists i :: 0 <= i < |log| && ReceiptHeld(o, log[i], path, req, artifacts))
    && RuntimeAttested(o, log, req.provider, artifacts)
  }

  lemma AttestedLasts(o: Oracles, log: seq<Fs>, log': seq<Fs>, name: Name, a: Artifact)
    requires Attested(o, log, name, a) && log <= log'
    ensures Attested(o, log', name, a)
  {
    var j, i :| 0 <= j <= i < |log| && o.resolve(log[j], name) == Some(a.path) && AttestedAt(o, log[i], a);
    assert log'[j] == log[j] && log'[i] == log[i];
  }

  lemma AllAttestedLasts(o: Oracles, log: seq<Fs>, log': seq<Fs>, provider: Provider, found: map<Role, Artifact>)
    requires AllAttested(o, log, provider, found) && log <= log'
    ensures AllAttested(o, log', provider, found)
  {
    forall role | role in found ensures Attested(o, log', NameOf(provider, role), found[role]) {
      AttestedLasts(o, log, log', NameOf(provider, role), found[role]);
    }
  }

  lemma RuntimeAttestedLasts(o: Oracles, log: seq<Fs>, log': seq<Fs>, provider: Provider, a: map<Role, Artifact>)
    requires RuntimeAttested(o, log, provider, a) && log <= log'
    ensures RuntimeAttested(o, log', provider, a)
  {
    forall role | role in a ensures Attested(o, log', Runtime(provider)[role], a[role]) {
      AttestedLasts(o, log, log', Runtime(provider)[role], a[role]);
    }
  }

  lemma HeldLasts(o: Oracles, log: seq<Fs>, log': seq<Fs>, name: Name, path: Path, inode: Inode)
    requires Held(o, log, name, path, inode) && log <= log'
    ensures Held(o, log', name, path, inode)
  {
    var j, i :| 0 <= j <= i < |log| && o.resolve(log[j], name) == Some(path) && HasFile(log[i], path)
                && FileAt(log[i], path) == inode;
    assert log'[j] == log[j] && log'[i] == log[i];
  }

  lemma VerifiedLasts(o: Oracles, log: seq<Fs>, log': seq<Fs>, path: Path, req: Request, artifacts: map<Role, Artifact>)
    requires Verified(o, log, path, req, artifacts) && log <= log'
    ensures Verified(o, log', path, req, artifacts)
  {
    var i :| 0 <= i < |log| && ReceiptHeld(o, log[i], path, req, artifacts);
    assert log'[i] == log[i];
    RuntimeAttestedLasts(o, log, log', req.provider, artifacts);
  }

  lemma VerifiedNow(o: Oracles, log: seq<Fs>, log': seq<Fs>, path: Path, raw: Bytes, req: Request,
                    artifacts: map<Role, Artifact>)
    requires RuntimeAttested(o, log, req.provider, artifacts) && log <= log' && log' != []
    requires ListsExactly(ProofFor(o, raw, req), artifacts)
    requires var now := log'[|log'| - 1];
             HasFile(now, path) && ProtectedReceipt(FileAt(now, path).info) && FileAt(now, path).bytes == raw
    ensures Verified(o, log', path, req, artifacts)
  {
    assert ReceiptHeld(o, log'[|log'| - 1], path, req, artifacts);
    RuntimeAttestedLasts(o, log, log', req.provider, artifacts);
  }

  // ------------------------------------------------------- what accepting means

  /** A regular file of root that neither its group nor others may write. */
  lemma ProtectedFileIff(info: Info)
    ensures ProtectedFile(info) <==>
            (info.mode / 0x1000 == 8 && info.uid == 0 && info.mode & 0x10 == 0 && info.mode & 0x02 == 0)
  {
    assert info.mode & 0xF000 == 0x8000 <==> info.mode / 0x1000 == 8;
    assert info.mode & 0x12 == 0 <==> info.mode & 0x10 == 0 && info.mode & 0x02 == 0;
  }

  /** And a receipt is such a file of one name and at most 8192 bytes. */
  lemma ProtectedReceiptIff(info: Info)
    ensures ProtectedReceipt(info) <==>
            (info.mode / 0x1000 == 8 && info.uid == 0 && info.mode & 0x10 == 0 && info.mode & 0x02 == 0
             && info.nlink == 1 && info.size <= 8192)
  {
    ProtectedFileIff(info);
  }

  /** What the decoder finds in the receipt is a passed qualification for this very request. */
  predicate Qualifies(decoded: Option<Proof>, req: Request, artifacts: map<Role, Artifact>) {
    && decoded.Some?
    && decoded.value.header.schemaVersion == 1
    && decoded.value.header.recipe == LinuxNativeTextV1
    && decoded.value.header.provider == req.provider
    && decoded.value.header.sandboxRevision == req.revision
    && decoded.value.header.policyFingerprint == req.policy
    && decoded.value.header.status == Passed
    && decoded.value.runtimeArtifacts == artifacts
  }

  lemma QualifiesIff(o: Oracles, raw: Bytes, req: Request, artifacts: map<Role, Artifact>)
    ensures ListsExactly(ProofFor(o, raw, req), artifacts) <==> Qualifies(o.parse(raw), req, artifacts)
  {}

  lemma RolesAreTheRuntime(provider: Provider)
    ensures forall role :: role in Runtime(provider) <==> role in Roles(provider) || (provider == Grok && role == GrokNative)
    ensures forall role :: role in Runtime(provider) ==> Runtime(provider)[role] == NameOf(provider, role)
  {
    forall role
      ensures role in Runtime(provider) <==> role in Roles(provider) || (provider == Grok && role == GrokNative)
    {
      var roles := Roles(provider);
      match provider
      case Claude => assert role in roles <==> role == Entrypoint || role == ClaudeCli;
      case Codex => assert role in roles <==> role == Entrypoint || role == CodexLauncher || role == CodexNativeExecutable;
      case Grok => assert role in roles <==> role == Entrypoint;
      case Kimi => assert role in roles <==> role == Entrypoint;
      case Zai => assert role in roles <==> role == Entrypoint || role == RipgrepExecutable;
      case UnknownProvider(_) =>
    }
  }

  lemma ReportedKeys(provider: Provider, found: map<Role, Artifact>)
    requires found.Keys == (set role | role in Roles(provider))
    ensures Reported(provider, found).Keys == Runtime(provider).Keys
    ensures provider == Grok ==> Reported(provider, found)[GrokNative] == Reported(provider, found)[Entrypoint]
    ensures forall role :: role in found && role != GrokNative ==> Reported(provider, found)[role] == found[role]
  {
    RolesAreTheRuntime(provider);
    if provider == Grok { assert Roles(provider)[0] == Entrypoint; }
  }

  lemma ReportedIsAttested(o: Oracles, log: seq<Fs>, provider: Provider, found: map<Role, Artifact>)
    requires found.Keys == (set role | role in Roles(provider)) && AllAttested(o, log, provider, found)
    ensures RuntimeAttested(o, log, provider, Reported(provider, found))
  {
    RolesAreTheRuntime(provider);
    ReportedKeys(provider, found);
  }

  /** At some moment the receipt in place was protected and, decoded, a passed qualification for this request. */
  ghost predicate QualifiedAt(o: Oracles, fs: Fs, path: Path, req: Request, artifacts: map<Role, Artifact>) {
    HasFile(fs, path) && ProtectedReceipt(FileAt(fs, path).info) && Qualifies(o.parse(FileAt(fs, path).bytes), req, artifacts)
  }

  /** What accepting means, on what the decoder found and the names of the runtime's files. */
  lemma VerifiedMeans(o: Oracles, log: seq<Fs>, path: Path, req: Request, artifacts: map<Role, Artifact>)
    requires Verified(o, log, path, req, artifacts)
    ensures exists i :: 0 <= i < |log| && QualifiedAt(o, log[i], path, req, artifacts)
  {
    var i :| 0 <= i < |log| && ReceiptHeld(o, log[i], path, req, artifacts);
    QualifiesIff(o, FileAt(log[i], path).bytes, req, artifacts);
    assert QualifiedAt(o, log[i], path, req, artifacts);
  }

  /** Exactly the runtime's roles, each with what a full hash finds in `fs`. */
  ghost predicate RuntimeIs(o: Oracles, fs: Fs, provider: Provider, a: map<Role, Artifact>) {
    && a.Keys == Runtime(provider).Keys
    && forall role :: role in a ==> StrictArtifact(o, fs, Runtime(provider)[role]) == Some(a[role])
  }

  ghost predicate RolesAre(o: Oracles, fs: Fs, provider: Provider, roles: seq<Role>, found: map<Role, Artifact>) {
    && found.Keys == (set role | role in roles)
    && forall role :: role in found ==> StrictArtifact(o, fs, NameOf(provider, role)) == Some(found[role])
  }

  lemma {:induction false} StrictCollectIff(o: Oracles, fs: Fs, provider: Provider, roles: seq<Role>)
    ensures match StrictCollect(o, fs, provider, roles)
            case Some(found) => RolesAre(o, fs, provider, roles, found)
            case None => exists role :: role in roles && StrictArtifact(o, fs, NameOf(provider, role)) == None
    decreases |roles|
  {
    if roles != [] {
      var init, last := roles[..|roles| - 1], roles[|roles| - 1];
      StrictCollectIff(o, fs, provider, init);
      assert roles == init + [last];
      if StrictCollect(o, fs, provider, init).None? {
        var role :| role in init && StrictArtifact(o, fs, NameOf(provider, role)) == None;
        assert role in roles;
      }
    }
  }

  lemma StrictCollectIsRuntime(o: Oracles, fs: Fs, provider: Provider, a: map<Role, Artifact>)
    ensures (match StrictCollect(o, fs, provider, Roles(provider))
             case Some(found) => Reported(provider, found) == a
             case None => false)
            <==> RuntimeIs(o, fs, provider, a)
  {
    StrictCollectIff(o, fs, provider, Roles(provider));
    RolesAreTheRuntime(provider);
    match StrictCollect(o, fs, provider, Roles(provider))
    case Some(found) =>
      ReportedKeys(provider, found);
      ReportedIsRuntime(o, fs, provider, found);
      if RuntimeIs(o, fs, provider, a) { assert Reported(provider, found) == a; }
    case None =>
  }

  lemma ReportedIsRuntime(o: Oracles, fs: Fs, provider: Provider, found: map<Role, Artifact>)
    requires RolesAre(o, fs, provider, Roles(provider), found)
    ensures RuntimeIs(o, fs, provider, Reported(provider, found))
  {
    RolesAreTheRuntime(provider);
    ReportedKeys(provider, found);
    if provider == Grok { assert Roles(provider)[0] == Entrypoint; }
  }

  /**
   * Both ways: verify-strict prints these artifacts if and only if the request is well formed, the
   * receipt is a protected file of at most 8192 bytes that decodes to a passed qualification for
   * this provider, revision and policy, and the runtime's files are exactly those it lists.
   */
  lemma StrictOutcomeIff(o: Oracles, fs: Fs, req: Request, a: map<Role, Artifact>)
    ensures StrictOutcome(o, fs, req) == Some(a) <==>
            && !req.provider.UnknownProvider? && |req.revision| == 64 && |req.policy| == 64
            && o.directoriesProtected(fs)
            && HasFile(fs, ReceiptOf(req.provider)) && |FileAt(fs, ReceiptOf(req.provider)).bytes| <= 8192
            && QualifiedAt(o, fs, ReceiptOf(req.provider), req, a)
            && RuntimeIs(o, fs, req.provider, a)
  {
    StrictCollectIsRuntime(o, fs, req.provider, a);
    if HasFile(fs, ReceiptOf(req.provider)) { QualifiesIff(o, FileAt(fs, ReceiptOf(req.provider)).bytes, req, a); }
  }

  /** A cache entry stands for a digest only under the very identity it was saved for. */
  lemma CachedDigestIff(entries: map<Path, Entry>, path: Path, observed: Identity, d: Digest)
    ensures CachedDigest(entries, path, observed) == Some(d) <==>
            path in entries && entries[path] == Entry(observed, d) && |d| == 64
            && forall i :: 0 <= i < 64 ==> '0' <= d[i] <= '9' || 'a' <= d[i] <= 'f'
  {}

  // ------------------------------------------------------- what the cache is for

  /** The files of the artifacts found, if any are. */
  function PathsOf(found: Option<map<Role, Artifact>>): set<Path> {
    match found
    case None => {}
    case Some(a) => set role | role in a :: a[role].path
  }

  /**
   * From `entries` and `before`, the files hashed until then, to `entries'` and `after`: a cache in
   * use knows `paths` now, and they were all hashed unless an entry was there already.
   */
  predicate Tracked(entries: map<Path, Entry>, entries': map<Path, Entry>, before: set<Path>, after: set<Path>,
                    cached: bool, paths: set<Path>) {
    && before <= after && entries.Keys <= entries'.Keys && (cached ==> paths <= entries'.Keys)
    && (!cached ==> paths <= after)
    && (cached && entries.Keys <= before ==> paths <= after && entries'.Keys <= after)
  }

  lemma TrackedOne(entries: map<Path, Entry>, path: Path, observed: Identity, d: Digest, before: set<Path>,
                   after: set<Path>, cached: bool)
    requires after == before + if cached && CachedDigest(entries, path, observed).Some? then {} else {path}
    ensures Tracked(entries, entries, before, after, cached, {})
    ensures Tracked(entries, if cached then entries[path := Entry(observed, d)] else entries, before, after, cached, {path})
  {}

  lemma TrackedFurther(e0: map<Path, Entry>, e1: map<Path, Entry>, e2: map<Path, Entry>, h0: set<Path>, h1: set<Path>,
                       h2: set<Path>, cached: bool, found: map<Role, Artifact>, last: Role, a: Option<Artifact>)
    requires Tracked(e0, e1, h0, h1, cached, PathsOf(Some(found)))
    requires Tracked(e1, e2, h1, h2, cached, if a.Some? then {a.value.path} else {})
    ensures Tracked(e0, e2, h0, h2, cached, PathsOf(if a.Some? then Some(found[last := a.value]) else None))
  {
    if a.Some? { assert PathsOf(Some(found[last := a.value])) <= PathsOf(Some(found)) + {a.value.path}; }
  }

  lemma TrackedReported(entries: map<Path, Entry>, entries': map<Path, Entry>, before: set<Path>, after: set<Path>,
                        cached: bool, provider: Provider, found: Option<map<Role, Artifact>>)
    requires Tracked(entries, entries', before, after, cached, PathsOf(found))
    ensures Tracked(entries, entries', before, after, cached, PathsOf(None))
    ensures found.Some? ==> Tracked(entries, entries', before, after, cached, PathsOf(Some(Reported(provider, found.value))))
  {
    if found.Some? { assert PathsOf(Some(Reported(provider, found.value))) <= PathsOf(found); }
  }

  /** How an accepting run leaves the files it prints: hashed in full, or known to the cache, or both. */
  predicate Known(op: Operation, entries: map<Path, Entry>, before: set<Path>, after: set<Path>, cache: CacheFile,
                  context: Context, paths: set<Path>) {
    && (op == VerifyStrict || entries.Keys <= before ==> paths <= after)
    && (op != VerifyStrict ==> cache.Saved? && cache.context == context && paths <= cache.entries.Keys)
  }

  lemma TrackedKnown(op: Operation, entries: map<Path, Entry>, entries': map<Path, Entry>, before: set<Path>,
                     after: set<Path>, cache: CacheFile, context: Context, paths: set<Path>)
    requires Tracked(entries, entries', before, after, op != VerifyStrict, paths)
    requires op != VerifyStrict ==> cache == Saved(context, entries')
    ensures Known(op, entries, before, after, cache, context, paths)
  {}

  ghost predicate InPlaceOnce(log: seq<Fs>, path: Path, inode: Inode) {
    exists i :: 0 <= i < |log| && HasFile(log[i], path) && FileAt(log[i], path) == inode
  }

  /** Verified, by a receipt that was this inode. */
  ghost predicate Accepting(o: Oracles, log: seq<Fs>, path: Path, req: Request, artifacts: map<Role, Artifact>, inode: Inode) {
    Verified(o, log, path, req, artifacts) && InPlaceOnce(log, path, inode)
  }

  lemma AcceptingNow(o: Oracles, log: seq<Fs>, log': seq<Fs>, path: Path, req: Request, artifacts: map<Role, Artifact>,
                     inode: Inode)
    requires RuntimeAttested(o, log, req.provider, artifacts) && log <= log' && log' != []
    requires ListsExactly(ProofFor(o, inode.bytes, req), artifacts) && ProtectedReceipt(inode.info)
    requires var now := log'[|log'| - 1]; HasFile(now, path) && FileAt(now, path) == inode
    ensures Accepting(o, log', path, req, artifacts, inode)
  {
    VerifiedNow(o, log, log', path, inode.bytes, req, artifacts);
    assert FileAt(log'[|log'| - 1], path) == inode;
  }

  lemma AcceptingLasts(o: Oracles, log: seq<Fs>, log': seq<Fs>, path: Path, req: Request, artifacts: map<Role, Artifact>,
                       inode: Inode)
    requires Accepting(o, log, path, req, artifacts, inode) && log <= log'
    ensures Accepting(o, log', path, req, artifacts, inode)
  {
    VerifiedLasts(o, log, log', path, req, artifacts);
    InPlaceOnceLasts(log, log', path, inode);
  }

  lemma InPlaceOnceLasts(log: seq<Fs>, log': seq<Fs>, path: Path, inode: Inode)
    requires InPlaceOnce(log, path, inode) && log <= log'
    ensures InPlaceOnce(log', path, inode)
  {
    var i :| 0 <= i < |log| && HasFile(log[i], path) && FileAt(log[i], path) == inode;
    assert log'[i] == log[i];
  }

  /** The cache is for this request and a receipt that was in place, and knows all these files. */
  ghost predicate SavedFor(o: Oracles, log: seq<Fs>, req: Request, cache: CacheFile, paths: set<Path>) {
    && cache.Saved? && paths <= cache.entries.Keys
    && cache.context.schemaVersion == 1 && cache.context.provider == req.provider
    && cache.context.sandboxRevision == req.revision && cache.context.policyFingerprint == req.policy
    && cache.context.receipt.path == ReceiptOf(req.provider)
    && exists inode :: InPlaceOnce(log, ReceiptOf(req.provider), inode) && inode.info == cache.context.receipt.info
                       && cache.context.receiptSha256 == o.hash(inode.bytes)
  }

  lemma SavedForReceipt(o: Oracles, log: seq<Fs>, req: Request, inode: Inode, cache: CacheFile, paths: set<Path>)
    requires InPlaceOnce(log, ReceiptOf(req.provider), inode)
    ensures cache.Saved? && paths <= cache.entries.Keys
            && cache.context == Context(1, req.provider, req.revision, req.policy,
                                        Identity(ReceiptOf(req.provider), inode.info), o.hash(inode.bytes)) ==>
              SavedFor(o, log, req, cache, paths)
  {}

  class Host {
    const oracles: Oracles
    var fs: Fs
    var cache: CacheFile
    /** Every `Info` a file has ever had, with the bytes it had then. */
    var seen: map<Info, Bytes>
    /** How many more modifications the others will make: any number, but not infinitely many. */
    var upcoming: nat
    /** Whether the cache could be written now. */
    var saveWorks: bool
    /** The files read in full since the current call began. */
    ghost var hashed: set<Path>
    /** How often this host's own calls have saved the cache. */
    ghost var saves: nat
    /** The file system at every moment since the current call began; the last one is now. */
    ghost var log: seq<Fs>
    /** Whether the cache was protected and could be written at every moment since the current call began. */
    ghost var healthy: bool

    ghost predicate Valid()
      reads this
    {
      && Sane(oracles)
      && (forall p :: p in fs.dir ==> fs.dir[p] in fs.inodes)
      && Recorded(seen, fs)
      && SoundCache(oracles.hash, seen, cache)
      && |log| > 0 && log[|log| - 1] == fs
      && (healthy ==> !cache.Unprotected? && saveWorks)
    }

    /** Any file system, with a cache only `save` has written: missing, damaged, unprotected or sound. */
    constructor (o: Oracles, files: Fs, known: map<Info, Bytes>, modifications: nat, saved: CacheFile)
      requires Sane(o) && Recorded(known, files) && forall p :: p in files.dir ==> files.dir[p] in files.inodes
      requires SoundCache(o.hash, known, saved)
      ensures Valid() && oracles == o && fs == files && cache == saved
    {
      oracles, fs, cache, seen, upcoming, log := o, files, saved, known, modifications, [files];
      saveWorks, saves, healthy := true, 0, false;
    }

    /**
     * Whatever happens, nothing seen is forgotten and no file gets an identity back that
     * it has lost; and while no modification is made, no file changes.
     */
    twostate predicate Onwards()
      reads this
    {
      && Grown(old(seen), seen) && old(log) <= log
      && NoneReturns(old(seen), old(fs), fs)
      && upcoming <= old(upcoming)
      && (upcoming == old(upcoming) ==> fs == old(fs))
      && (healthy ==> old(healthy))
    }

    /** Another process modifies files, or does not. */
    method Modify()
      requires Valid()
      modifies this`fs, this`seen, this`upcoming, this`log
      ensures Valid() && Onwards()
      ensures log == old(log) + [fs]
      ensures Lawful(old(seen), old(fs), fs)
    {
      var next: Fs := *;
      var known: map<Info, Bytes> := *;
      if upcoming > 0 && Lawful(seen, fs, next) && Grown(seen, known) && Recorded(known, next) {
        if cache.Saved? { SoundEntriesGrow(oracles.hash, seen, known, cache.entries); }
        fs, seen := next, known;
        upcoming := upcoming - 1;
      }
      log := log + [fs];
    }

    /** Whatever the others do between two system calls: they may save, damage or unprotect caches as well. */
    method Interfere()
      requires Valid()
      modifies this`fs, this`cache, this`seen, this`upcoming, this`saveWorks, this`log, this`healthy
      ensures Valid() && Onwards()
      ensures log == old(log) + [fs]
      ensures Lawful(old(seen), old(fs), fs)
    {
      Modify();
      var theirs: CacheFile := *;
      if SoundCache(oracles.hash, seen, theirs) { cache := theirs; }
      saveWorks := *;
      healthy := healthy && !cache.Unprotected? && saveWorks;
    }

    method Resolve(name: Name) returns (r: Option<Path>)
      requires Valid()
      modifies this`fs, this`cache, this`seen, this`upcoming, this`saveWorks, this`log, this`healthy
      ensures Valid() && Onwards() && r == oracles.resolve(fs, name)
    {
      Interfere();
      r := oracles.resolve(fs, name);
    }

    method Lstat(path: Path) returns (r: Option<Info>)
      requires Valid()
      modifies this`fs, this`cache, this`seen, this`upcoming, this`saveWorks, this`log, this`healthy
      ensures Valid() && Onwards()
      ensures r == (if HasFile(fs, path) then Some(FileAt(fs, path).info) else None)
      ensures r.Some? ==> r.value in seen && FileAt(fs, path) == Inode(r.value, seen[r.value])
    {
      Interfere();
      r := if path in fs.dir then Some(fs.inodes[fs.dir[path]].info) else None;
    }

    method Open(path: Path) returns (r: Option<nat>)
      requires Valid()
      modifies this`fs, this`cache, this`seen, this`upcoming, this`saveWorks, this`log, this`healthy
      ensures Valid() && Onwards()
      ensures r == (if HasFile(fs, path) then Some(fs.dir[path]) else None)
      ensures r.Some? ==> r.value in fs.inodes
    {
      Interfere();
      r := if path in fs.dir then Some(fs.dir[path]) else None;
    }

    method Fstat(inode: nat) returns (r: Info)
      requires Valid() && inode in fs.inodes
      modifies this`fs, this`cache, this`seen, this`upcoming, this`saveWorks, this`log, this`healthy
      ensures Valid() && Onwards()
      ensures inode in fs.inodes && r == fs.inodes[inode].info && r in seen
    {
      Interfere();
      r := fs.inodes[inode].info;
    }

    /** `path` as `lstat` sees it, then as `open` does. */
    method OpenProtected(path: Path) returns (r: Option<nat>)
      requires Valid()
      modifies this`fs, this`cache, this`seen, this`upcoming, this`saveWorks, this`log, this`healthy
      ensures Valid() && Onwards()
      ensures r.Some? ==> r.value in fs.inodes
      ensures upcoming == old(upcoming) ==>
                if HasFile(fs, path) && ProtectedFile(FileAt(fs, path).info) then r == Some(fs.dir[path]) else r == None
    {
      var first := Lstat(path);
      if first.None? || !ProtectedFile(first.value) { return None; }
      r := Open(path);
    }

    /** The identity under which the open file and the path agree, if they do. */
    method AgreedInfo(path: Path, inode: nat) returns (r: Option<Info>)
      requires Valid() && inode in fs.inodes
      modifies this`fs, this`cache, this`seen, this`upcoming, this`saveWorks, this`log, this`healthy
      ensures Valid() && Onwards() && inode in fs.inodes
      ensures r.Some? ==> r.value in seen && HasFile(fs, path) && FileAt(fs, path) == Inode(r.value, seen[r.value])
      ensures r.Some? && r.value in old(seen) ==> r.value == old(fs.inodes[inode].info)
      ensures upcoming == old(upcoming) && HasFile(fs, path) && fs.dir[path] == inode ==>
                r == Some(fs.inodes[inode].info)
    {
      var info := Fstat(inode);
      r := Lstat(path);
      if r != Some(info) { return None; }
    }

    /** One read of at most CHUNK bytes; nothing at the end of the file. */
    method Read(inode: nat, offset: nat) returns (chunk: Bytes)
      requires Valid() && inode in fs.inodes
      modifies this`fs, this`cache, this`seen, this`upcoming, this`saveWorks, this`log, this`healthy
      ensures Valid() && Onwards() && inode in fs.inodes
      ensures var bytes := fs.inodes[inode].bytes;
              chunk == if offset >= |bytes| then []
                       else if offset + CHUNK < |bytes| then bytes[offset..offset + CHUNK] else bytes[offset..]
    {
      Interfere();
      var bytes := fs.inodes[inode].bytes;
      chunk := if offset >= |bytes| then []
               else if offset + CHUNK < |bytes| then bytes[offset..offset + CHUNK] else bytes[offset..];
    }

    /**
     * Reads an inode to its end while the others may write to it.  If it still has the
     * identity it was opened with, the digest is that of the content it had throughout.
     */
    method ReadAndHash(ghost path: Path, inode: nat, info: Info) returns (d: Digest)
      requires Valid() && inode in fs.inodes && info in seen
      modifies this`fs, this`cache, this`seen, this`upcoming, this`saveWorks, this`log, this`healthy, this`hashed
      ensures Valid() && Onwards()
      ensures inode in fs.inodes && info in seen && hashed == old(hashed) + {path}
      ensures fs.inodes[inode].info == info ==> d == oracles.hash(seen[info])
    {
      ghost var content := seen[info];
      hashed := hashed + {path};
      var bytes: Bytes := [];
      var more := true;
      while more
        invariant hashed == old(hashed) + {path}
        invariant Valid() && Onwards() && inode in fs.inodes && info in seen && seen[info] == content
        invariant fs.inodes[inode].info == info ==> bytes <= content && (more || bytes == content)
        decreases upcoming, more, |fs.inodes[inode].bytes| - |bytes|
      {
        var chunk := Read(inode, |bytes|);
        if chunk == [] { more := false; } else { bytes := bytes + chunk; }
      }
      d := oracles.hash(bytes);
    }

    /** Resolves and opens a runtime file, up to the first identity check. */
    method OpenRuntime(name: Name) returns (r: Option<Opened>)
      requires Valid()
      modifies this`fs, this`cache, this`seen, this`upcoming, this`saveWorks, this`log, this`healthy
      ensures Valid() && Onwards()
      ensures r.Some? ==>
                && r.value.inode in fs.inodes && r.value.info in seen && ProtectedFile(r.value.info)
                && Held(oracles, log, name, r.value.path, Inode(r.value.info, seen[r.value.info]))
      ensures upcoming == old(upcoming) ==>
                if r.None? then StrictArtifact(oracles, fs, name) == None
                else
                  && oracles.resolve(fs, name) == Some(r.value.path)
                  && HasFile(fs, r.value.path) && fs.dir[r.value.path] == r.value.inode
                  && fs.inodes[r.value.inode].info == r.value.info
    {
      var target := Resolve(name);
      if target.None? { return None; }
      ghost var resolved := log;
      var inode := OpenProtected(target.value);
      if inode.None? { return None; }
      var info := AgreedInfo(target.value, inode.value);
      if info.None? || !ProtectedFile(info.value) { return None; }
      assert log[|resolved| - 1] == resolved[|resolved| - 1];
      assert FileAt(log[|log| - 1], target.value) == Inode(info.value, seen[info.value]);
      r := Some(Opened(target.value, inode.value, info.value));
    }

    /** The cached digest of an open file, or else that of its content. */
    method DigestOf(path: Path, inode: nat, info: Info, entries: map<Path, Entry>, cached: bool) returns (d: Digest)
      requires Valid() && inode in fs.inodes && info in seen && SoundEntries(oracles.hash, seen, entries)
      modifies this`fs, this`cache, this`seen, this`upcoming, this`saveWorks, this`log, this`healthy, this`hashed
      ensures Valid() && Onwards() && inode in fs.inodes && info in seen
      ensures hashed == old(hashed) + if cached && CachedDigest(entries, path, Identity(path, info)).Some? then {} else {path}
      ensures fs.inodes[inode].info == info ==> d == oracles.hash(seen[info])
    {
      var digest := if cached then CachedDigest(entries, path, Identity(path, info)) else None;
      if digest.Some? { d := digest.value; } else { d := ReadAndHash(path, inode, info); }
    }

    /** From the first identity check to the last: look the digest up or compute it, then check again. */
    method DigestUnchanged(path: Path, inode: nat, info: Info, entries: map<Path, Entry>, cached: bool)
      returns (r: Option<Digest>, entries': map<Path, Entry>)
      requires Valid() && inode in fs.inodes && info in seen && SoundEntries(oracles.hash, seen, entries)
      modifies this`fs, this`cache, this`seen, this`upcoming, this`saveWorks, this`log, this`healthy, this`hashed
      ensures Valid() && Onwards() && SoundEntries(oracles.hash, seen, entries')
      ensures r.Some? ==> info in seen && r.value == oracles.hash(seen[info])
      ensures entries' == if r.Some? && cached then entries[path := Entry(Identity(path, info), r.value)] else entries
      ensures Tracked(entries, entries', old(hashed), hashed, cached, if r.Some? then {path} else {})
      ensures upcoming == old(upcoming) && HasFile(fs, path) && fs.dir[path] == inode && fs.inodes[inode].info == info ==>
                r.Some?
    {
      var d := DigestOf(path, inode, info, entries, cached);
      var after := AgreedInfo(path, inode);
      SoundEntriesGrow(oracles.hash, old(seen), seen, entries);
      TrackedOne(entries, path, Identity(path, info), d, old(hashed), hashed, cached);
      if after != Some(info) { return None, entries; }
      r := Some(d);
      entries' := if cached then entries[path := Entry(Identity(path, info), d)] else entries;
    }

    /** One artifact: the hash of what its file held at a moment between the two identity checks. */
    method AttestFile(name: Name, entries: map<Path, Entry>, cached: bool)
      returns (r: Option<Artifact>, entries': map<Path, Entry>)
      requires Valid() && SoundEntries(oracles.hash, seen, entries)
      modifies this`fs, this`cache, this`seen, this`upcoming, this`saveWorks, this`log, this`healthy, this`hashed
      ensures Valid() && Onwards() && SoundEntries(oracles.hash, seen, entries')
      ensures r.Some? ==> Attested(oracles, log, name, r.value)
      ensures Tracked(entries, entries', old(hashed), hashed, cached, if r.Some? then {r.value.path} else {})
      ensures upcoming == old(upcoming) ==> r == StrictArtifact(oracles, fs, name)
    {
      var file := OpenRuntime(name);
      SoundEntriesGrow(oracles.hash, old(seen), seen, entries);
      if file.None? { return None, entries; }
      var Opened(path, inode, info) := file.value;
      ghost var content, opening := Inode(info, seen[info]), log;
      var d;
      d, entries' := DigestUnchanged(path, inode, info, entries, cached);
      if d.None? { return None, entries'; }
      HeldLasts(oracles, opening, log, name, path, content);
      r := Some(Artifact(path, d.value));
    }

    /** Every role in order, threading the cache entries through. */
    method Collect(provider: Provider, roles: seq<Role>, entries: map<Path, Entry>, cached: bool)
      returns (r: Option<map<Role, Artifact>>, entries': map<Path, Entry>)
      requires Valid() && SoundEntries(oracles.hash, seen, entries)
      modifies this`fs, this`cache, this`seen, this`upcoming, this`saveWorks, this`log, this`healthy, this`hashed
      ensures Valid() && Onwards() && SoundEntries(oracles.hash, seen, entries')
      ensures r.Some? ==> r.value.Keys == (set role | role in roles) && AllAttested(oracles, log, provider, r.value)
      ensures Tracked(entries, entries', old(hashed), hashed, cached, PathsOf(r))
      ensures upcoming == old(upcoming) ==> r == StrictCollect(oracles, fs, provider, roles)
      decreases |roles|
    {
      if roles == [] {
        assert PathsOf(Some(map[])) == {};
        return Some(map[]), entries;
      }
      var init, last := roles[..|roles| - 1], roles[|roles| - 1];
      assert roles == init + [last];
      r, entries' := Collect(provider, init, entries, cached);
      if r.None? { return; }
      ghost var before, found, midway, hashed' := log, r, entries', hashed;
      var a;
      a, entries' := AttestFile(NameOf(provider, last), entries', cached);
      TrackedFurther(entries, midway, entries', old(hashed), hashed', hashed, cached, found.value, last, a);
      if a.None? { return None, entries'; }
      AllAttestedLasts(oracles, before, log, provider, r.value);
      r := Some(r.value[last := a.value]);
    }

    /** Opening the cache: a damaged or foreign one is empty, an unprotected one ends the verification. */
    method OpenCache(context: Context) returns (r: Option<map<Path, Entry>>)
      requires Valid()
      modifies this`fs, this`cache, this`seen, this`upcoming, this`saveWorks, this`log, this`healthy
      ensures Valid() && Onwards()
      ensures r.Some? ==> SoundEntries(oracles.hash, seen, r.value)
      ensures r.None? <==> cache.Unprotected?
      ensures r.Some? ==>
                r.value == if cache.Saved? && cache.context == context && |cache.entries| <= 8 then cache.entries else map[]
    {
      Interfere();
      match cache
      case Missing => r := Some(map[]);
      case Unprotected => r := None;
      case Damaged => r := Some(map[]);
      case Saved(theirs, entries) => r := Some(if theirs == context && |entries| <= 8 then entries else map[]);
    }

    /** Replaces the cache, unless it would be too large or writing it fails. */
    method Save(context: Context, entries: map<Path, Entry>) returns (ok: bool)
      requires Valid() && SoundEntries(oracles.hash, seen, entries)
      modifies this`fs, this`cache, this`seen, this`upcoming, this`saveWorks, this`log, this`healthy, this`saves
      ensures Valid() && Onwards()
      ensures ok == saveWorks && (ok ==> cache == Saved(context, entries))
      ensures saves == old(saves) + if ok then 1 else 0
    {
      ghost var before := seen;
      Interfere();
      SoundEntriesGrow(oracles.hash, before, seen, entries);
      ok := saveWorks;
      if ok {
        cache := Saved(context, entries);
        saves := saves + 1;
      }
    }

    /** The receipt as it was read, with the identity it is held to until the end. */
    method ReadReceipt(path: Path) returns (r: Option<(nat, Info, Bytes)>)
      requires Valid()
      modifies this`fs, this`cache, this`seen, this`upcoming, this`saveWorks, this`log, this`healthy
      ensures Valid() && Onwards()
      ensures r.Some? ==>
                && r.value.0 in fs.inodes && r.value.1 in seen && ProtectedReceipt(r.value.1) && |r.value.2| <= 8192
                && (fs.inodes[r.value.0].info == r.value.1 ==> r.value.2 == seen[r.value.1])
      ensures upcoming == old(upcoming) ==>
                if ReceiptReadable(fs, path) then
                  r == Some((fs.dir[path], FileAt(fs, path).info, FileAt(fs, path).bytes))
                else r == None
    {
      var inode := Open(path);
      if inode.None? { return None; }
      var info := Fstat(inode.value);
      if !ProtectedReceipt(info) { return None; }
      var raw := Read(inode.value, 0);
      if |raw| > 8192 { return None; }
      r := Some((inode.value, info, raw));
    }

    /** The entries to start from, or None where the cache cannot be opened. */
    method StartingEntries(op: Operation, context: Context) returns (r: Option<map<Path, Entry>>)
      requires Valid()
      modifies this`fs, this`cache, this`seen, this`upcoming, this`saveWorks, this`log, this`healthy
      ensures Valid() && Onwards()
      ensures r.Some? ==> SoundEntries(oracles.hash, seen, r.value)
      ensures op == VerifyStrict ==> r.Some?
      ensures r.None? ==> !healthy
      ensures r.Some? ==>
                r.value == if op == Verify && cache.Saved? && cache.context == context && |cache.entries| <= 8
                           then cache.entries else map[]
    {
      if op == VerifyStrict { return Some(map[]); }
      r := OpenCache(context);
      if r.Some? && op == VerifyCold { r := Some(map[]); }
    }

    /** The content of a receipt against the runtime it is to cover. */
    method ValidateReceipt(raw: Bytes, req: Request, entries: map<Path, Entry>, cached: bool)
      returns (r: Option<map<Role, Artifact>>, observed: map<Path, Entry>)
      requires Valid() && SoundEntries(oracles.hash, seen, entries)
      modifies this`fs, this`cache, this`seen, this`upcoming, this`saveWorks, this`log, this`healthy, this`hashed
      ensures Valid() && Onwards() && SoundEntries(oracles.hash, seen, observed)
      ensures r.Some? ==> ListsExactly(ProofFor(oracles, raw, req), r.value)
      ensures r.Some? ==> RuntimeAttested(oracles, log, req.provider, r.value)
      ensures Tracked(entries, observed, old(hashed), hashed, cached, PathsOf(r))
      ensures upcoming == old(upcoming) ==> r == StrictValidate(oracles, fs, raw, req)
    {
      var proof := ProofFor(oracles, raw, req);
      if proof.None? { return None, entries; }
      var found;
      found, observed := Collect(req.provider, Roles(req.provider), entries, cached);
      TrackedReported(entries, observed, old(hashed), hashed, cached, req.provider, found);
      if found.None? || proof.value.runtimeArtifacts != Reported(req.provider, found.value) { return None, observed; }
      ReportedIsAttested(oracles, log, req.provider, found.value);
      r := Some(proof.value.runtimeArtifacts);
    }

    /** The last check: the receipt that was read is the one in place. */
    method StillInPlace(path: Path, inode: nat, info: Info, ghost raw: Bytes, ghost entries: map<Path, Entry>)
      returns (ok: bool)
      requires Valid() && inode in fs.inodes && SoundEntries(oracles.hash, seen, entries)
      requires info in seen && (fs.inodes[inode].info == info ==> raw == seen[info])
      modifies this`fs, this`cache, this`seen, this`upcoming, this`saveWorks, this`log, this`healthy
      ensures Valid() && Onwards() && SoundEntries(oracles.hash, seen, entries)
      ensures ok ==> HasFile(fs, path) && FileAt(fs, path) == Inode(info, raw)
      ensures upcoming == old(upcoming) && HasFile(fs, path) && fs.dir[path] == inode && fs.inodes[inode].info == info ==>
                ok
    {
      var again := AgreedInfo(path, inode);
      SoundEntriesGrow(oracles.hash, old(seen), seen, entries);
      ok := again == Some(info);
    }

    /** Validation, then the check that the receipt read is still the one in place. */
    method ValidateInPlace(req: Request, path: Path, inode: nat, info: Info, raw: Bytes,
                           entries: map<Path, Entry>, cached: bool)
      returns (r: Option<map<Role, Artifact>>, observed: map<Path, Entry>)
      requires Valid() && SoundEntries(oracles.hash, seen, entries)
      requires inode in fs.inodes && info in seen && ProtectedReceipt(info)
      requires fs.inodes[inode].info == info ==> raw == seen[info]
      modifies this`fs, this`cache, this`seen, this`upcoming, this`saveWorks, this`log, this`healthy, this`hashed
      ensures Valid() && Onwards() && SoundEntries(oracles.hash, seen, observed)
      ensures r.Some? ==> Tracked(entries, observed, old(hashed), hashed, cached, PathsOf(r))
      ensures r.Some? ==> Accepting(oracles, log, path, req, r.value, Inode(info, raw))
      ensures upcoming == old(upcoming) && HasFile(fs, path) && fs.dir[path] == inode && fs.inodes[inode].info == info ==>
                r == StrictValidate(oracles, fs, raw, req)
    {
      r, observed := ValidateReceipt(raw, req, entries, cached);
      if r.None? { return; }
      ghost var collected := log;
      var ok := StillInPlace(path, inode, info, raw, observed);
      if !ok { return None, observed; }
      AcceptingNow(oracles, collected, log, path, req, r.value, Inode(info, raw));
    }

    /** The cache is saved only after the observed hashes matched the proof. */
    method Conclude(op: Operation, context: Context, observed: map<Path, Entry>) returns (ok: bool)
      requires Valid() && SoundEntries(oracles.hash, seen, observed)
      modifies this`fs, this`cache, this`seen, this`upcoming, this`saveWorks, this`log, this`healthy, this`saves
      ensures Valid() && Onwards()
      ensures op == VerifyStrict ==> ok
      ensures !ok ==> !healthy
      ensures ok && op != VerifyStrict ==> cache == Saved(context, observed)
      ensures saves == old(saves) + if ok && op != VerifyStrict then 1 else 0
    {
      ok := true;
      if op != VerifyStrict { ok := Save(context, observed); }
    }

    /** From the entries to start from to the saved cache. */
    method VerifyWith(op: Operation, req: Request, path: Path, inode: nat, info: Info,
                      raw: Bytes, context: Context, entries: map<Path, Entry>)
      returns (r: Option<map<Role, Artifact>>, saved: bool)
      requires Valid() && SoundEntries(oracles.hash, seen, entries)
      requires inode in fs.inodes && info in seen && ProtectedReceipt(info)
      requires fs.inodes[inode].info == info ==> raw == seen[info]
      modifies this
      ensures Valid() && Onwards()
      ensures r.Some? ==> saved && Accepting(oracles, log, path, req, r.value, Inode(info, raw))
      ensures upcoming == old(upcoming) && HasFile(fs, path) && fs.dir[path] == inode && fs.inodes[inode].info == info ==>
                r == StrictValidate(oracles, fs, raw, req) || !saved
      ensures r.Some? ==> Known(op, entries, old(hashed), hashed, cache, context, PathsOf(r))
      ensures op == VerifyStrict ==> saved
      ensures !saved ==> !healthy
      ensures saves == old(saves) + if r.Some? && op != VerifyStrict then 1 else 0
    {
      var observed;
      r, observed := ValidateInPlace(req, path, inode, info, raw, entries, op != VerifyStrict);
      if r.None? { return None, true; }
      ghost var checked := log;
      saved := Conclude(op, context, observed);
      if saved { TrackedKnown(op, entries, observed, old(hashed), hashed, cache, context, PathsOf(r)); }
      AcceptingLasts(oracles, checked, log, path, req, r.value, Inode(info, raw));
      if !saved { r := None; }
    }

    /** From opening the receipt on. */
    method VerifyOpened(op: Operation, req: Request) returns (r: Option<map<Role, Artifact>>, cacheTrouble: bool)
      requires Valid()
      modifies this
      ensures Valid() && Onwards()
      ensures r.Some? ==> Verified(oracles, log, ReceiptOf(req.provider), req, r.value)
      ensures upcoming == old(upcoming) && (r.Some? || !cacheTrouble) ==>
                var path := ReceiptOf(req.provider);
                r == if ReceiptReadable(fs, path) then StrictValidate(oracles, fs, FileAt(fs, path).bytes, req) else None
      ensures r.Some? && op != Verify ==> PathsOf(r) <= hashed
      ensures r.Some? && op != VerifyStrict ==> SavedFor(oracles, log, req, cache, PathsOf(r))
      ensures cacheTrouble ==> op != VerifyStrict && !healthy
      ensures saves == old(saves) + if r.Some? && op != VerifyStrict then 1 else 0
    {
      var path := ReceiptOf(req.provider);
      var receipt := ReadReceipt(path);
      if receipt.None? { return None, false; }
      var (inode, info, raw) := receipt.value;
      var context := Context(1, req.provider, req.revision, req.policy, Identity(path, info), oracles.hash(raw));
      var entries := StartingEntries(op, context);
      if entries.None? { return None, true; }
      var saved;
      r, saved := VerifyWith(op, req, path, inode, info, raw, context, entries.value);
      cacheTrouble := !saved;
      if r.Some? { SavedForReceipt(oracles, log, req, Inode(info, raw), cache, PathsOf(r)); }
    }

    /**
     * verify, verify-cold and verify-strict.  Whatever the others do meanwhile, what is
     * printed is the content of a receipt that was in place, and each artifact in it the
     * hash of what its file held during this very call.  While nobody modifies a file,
     * what is printed is what verify-strict would print; and if at every moment the cache
     * is protected and can be written, this accepts exactly when verify-strict does.  The
     * cache left behind is sound, so all of this holds again of the next call.  Other than
     * verify, this reads every file it prints in full; other than verify-strict, it leaves a
     * cache for this very receipt and request that knows each of them.
     */
    method VerifyReceipt(op: Operation, req: Request) returns (r: Option<map<Role, Artifact>>, cacheTrouble: bool)
      requires Valid()
      modifies this
      ensures Valid() && log[0] == old(fs) && upcoming <= old(upcoming)
      ensures r.Some? ==> Verified(oracles, log, ReceiptOf(req.provider), req, r.value)
      ensures r.Some? ==> exists i :: 0 <= i < |log| && QualifiedAt(oracles, log[i], ReceiptOf(req.provider), req, r.value)
      ensures r.Some? ==> RuntimeAttested(oracles, log, req.provider, r.value)
      ensures r.Some? && op != Verify ==> PathsOf(r) <= hashed
      ensures r.Some? && op != VerifyStrict ==> SavedFor(oracles, log, req, cache, PathsOf(r))
      ensures saves == old(saves) + if r.Some? && op != VerifyStrict then 1 else 0
      ensures upcoming == old(upcoming) ==> fs == old(fs)
      ensures upcoming == old(upcoming) && (r.Some? || !cacheTrouble) ==> r == StrictOutcome(oracles, fs, req)
      ensures cacheTrouble ==> op != VerifyStrict && !healthy
    {
      log, hashed := [fs], {};
      healthy := !cache.Unprotected? && saveWorks;
      if !Admissible(req) { return None, false; }
      Interfere();
      if !oracles.directoriesProtected(fs) { return None, false; }
      r, cacheTrouble := VerifyOpened(op, req);
      if r.Some? { VerifiedMeans(oracles, log, ReceiptOf(req.provider), req, r.value); }
    }
  }

  lemma SoundEntriesGrow(hash: Bytes -> Digest, seen: map<Info, Bytes>, seen': map<Info, Bytes>, entries: map<Path, Entry>)
    requires SoundEntries(hash, seen, entries) && Grown(seen, seen')
    ensures SoundEntries(hash, seen', entries)
  {
    forall p | p in entries
      ensures var info := entries[p].identity.info; info in seen' && entries[p].sha256 == hash(seen'[info])
    {
      assert entries[p].identity.info in seen;
    }
  }
}
