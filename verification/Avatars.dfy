/**
 * The files behind imported avatars: which avatar owns a file name, how an import rolls
 * back, and how a delete that was cut short is finished by running it again.
 */
module Avatars {
  import opened Text
  import opened Wrappers

  // ------------------------------------------------------------------- names

  datatype Extension = Png | Jpg | Webp | Gif | Webm | Mp4 | Mov | M4v

  function ExtensionText(e: Extension): (r: string)
    ensures 0 < |r| <= 4 && Plain(r)
  {
    match e
    case Png => ['p', 'n', 'g']
    case Jpg => ['j', 'p', 'g']
    case Webp => ['w', 'e', 'b', 'p']
    case Gif => ['g', 'i', 'f']
    case Webm => ['w', 'e', 'b', 'm']
    case Mp4 => ['m', 'p', '4']
    case Mov => ['m', 'o', 'v']
    case M4v => ['m', '4', 'v']
  }

  predicate IsImage(e: Extension) {
    e.Png? || e.Jpg? || e.Webp? || e.Gif?
  }

  predicate PlainChar(c: char) {
    'a' <= c <= 'z' || '0' <= c <= '9' || c == '-' || c == '_'
  }

  predicate Plain(s: string) {
    forall i :: 0 <= i < |s| ==> PlainChar(s[i])
  }

  predicate ValidId(id: string) {
    0 < |id| <= 64 && Plain(id) && id[0] != '-' && id[0] != '_'
  }

  lemma ExtensionTexts(a: Extension, b: Extension)
    ensures ExtensionText(a) == ExtensionText(b) ==> a == b
    ensures ExtensionText(Png) == "png" && ExtensionText(Jpg) == "jpg" && ExtensionText(Webp) == "webp"
    ensures ExtensionText(Gif) == "gif" && ExtensionText(Webm) == "webm" && ExtensionText(Mp4) == "mp4"
    ensures ExtensionText(Mov) == "mov" && ExtensionText(M4v) == "m4v"
  {}

  /** An id is one to 64 lower-case letters, digits, dashes and underscores, and begins with a letter or a digit. */
  lemma ValidIdIff(id: string)
    ensures ValidId(id) <==>
            && 1 <= |id| <= 64 && ('a' <= id[0] <= 'z' || '0' <= id[0] <= '9')
            && forall i :: 0 <= i < |id| ==> 'a' <= id[i] <= 'z' || '0' <= id[i] <= '9' || id[i] == '-' || id[i] == '_'
  {
    if |id| > 0 && Plain(id) { assert PlainChar(id[0]); }
  }

  const POSTER: string := ['p', 'o', 's', 't', 'e', 'r']
  const JSON: string := ['j', 's', 'o', 'n']
  const FOLDER: string := ['.', 'a', 'v', 'a', 't', 'a', 'r', 's']

  function MediaName(id: string, e: Extension): string {
    id + ['.'] + ExtensionText(e)
  }

  function PosterName(id: string, e: Extension): string {
    id + ['.'] + (POSTER + ['.'] + ExtensionText(e))
  }

  function ManifestName(id: string): string {
    id + ['.'] + JSON
  }

  function AgentName(id: string, e: Extension): string {
    FOLDER + ['/'] + MediaName(id, e)
  }

  datatype Dir = Media | Meta | Agent(folder: string)

  datatype Path = Path(dir: Dir, name: string)

  ghost predicate Owns(id: string, p: Path) {
    match p.dir
    case Meta => p.name == ManifestName(id)
    case Media => exists e :: p.name == MediaName(id, e) || p.name == PosterName(id, e)
    case Agent(_) => exists e :: p.name == AgentName(id, e)
  }

  function Stem(name: string): string {
    name[..IndexOf(name, '.')]
  }

  lemma StemIsId(id: string, tail: string)
    requires Plain(id)
    ensures Stem(id + ['.'] + tail) == id
  {
    assert forall i :: 0 <= i < |id| ==> PlainChar(id[i]);
    IndexOfFirst(id, '.', tail);
  }

  /** The file name without the folder that agents keep their media in. */
  function BareName(p: Path): string {
    if p.dir.Agent? && |p.name| > |FOLDER| then p.name[|FOLDER| + 1..] else p.name
  }

  lemma OwnedStem(id: string, p: Path)
    requires ValidId(id) && Owns(id, p)
    ensures Stem(BareName(p)) == id
  {
    match p.dir
    case Meta => StemIsId(id, JSON);
    case Media =>
      var e :| p.name == MediaName(id, e) || p.name == PosterName(id, e);
      StemIsId(id, ExtensionText(e));
      StemIsId(id, POSTER + ['.'] + ExtensionText(e));
    case Agent(_) =>
      var e :| p.name == AgentName(id, e);
      StemIsId(id, ExtensionText(e));
      assert BareName(p) == MediaName(id, e);
  }

  /** No file belongs to two avatars, whatever the kinds of the two files would be. */
  lemma OneOwner(a: string, b: string, p: Path)
    requires ValidId(a) && ValidId(b) && Owns(a, p) && Owns(b, p)
    ensures a == b
  {
    OwnedStem(a, p);
    OwnedStem(b, p);
  }

  // --------------------------------------------------------------- safe paths

  /** A path of normal components only: relative, and never to the parent or the folder itself. */
  predicate SafeRelative(path: string) {
    && path != [] && Free(path, '\\') && Free(path, '\0') && path[0] != '/'
    && var parts := Split(path, '/');
       parts[0] != ['.'] && forall i :: 0 <= i < |parts| ==> parts[i] != ['.', '.']
  }

  lemma NamesAreSafe(id: string, tail: string)
    requires ValidId(id) && Free(tail, '\\') && Free(tail, '\0') && Free(tail, '/')
    ensures SafeRelative(id + ['.'] + tail)
    ensures SafeRelative(FOLDER + ['/'] + (id + ['.'] + tail))
  {
    var name := id + ['.'] + tail;
    assert forall i :: 0 <= i < |id| ==> PlainChar(id[i]);
    assert PlainChar(name[0]);
    assert Free(name, '/') && Free(name, '\\') && Free(name, '\0');
    SplitFree(name, '/');
    SplitAfterField(FOLDER, '/', name);
  }

  /** What is no safe path, whatever stands around it: none, an absolute one, one with a parent, or with a backslash or a null. */
  lemma UnsafePaths(a: string, b: string)
    ensures !SafeRelative("") && !SafeRelative("/" + b) && !SafeRelative("./" + b)
    ensures !SafeRelative("..") && !SafeRelative("../" + b) && !SafeRelative(a + "/..") && !SafeRelative(a + "/../" + b)
    ensures !SafeRelative(a + "\\" + b) && !SafeRelative(a + "\0" + b)
  {
    SplitFree(".", '/');
    SplitFree("..", '/');
    assert "./" + b == "." + "/" + b && "../" + b == ".." + "/" + b && a + "/.." == a + "/" + "..";
    SplitAtSeparator(".", '/', b);
    SplitAtSeparator("..", '/', b);
    var n := |Split(a, '/')|;
    SplitAtSeparator(a, '/', "..");
    assert Split(a + "/..", '/')[n] == "..";
    assert a + "/../" + b == a + "/" + ("../" + b);
    SplitAtSeparator(a, '/', "../" + b);
    assert Split(a + "/../" + b, '/')[n] == "..";
    assert (a + "\\" + b)[|a|] == '\\' && (a + "\0" + b)[|a|] == '\0';
  }

  // --------------------------------------------------------------- manifests

  datatype AlphaMode = NoAlpha | Stacked | OtherAlpha

  /** A stored manifest; `extension` is what its media type stands for, if it is a known type. */
  datatype Manifest = Manifest(
    id: string, path: string, extension: Option<Extension>, alphaMode: AlphaMode,
    posterPath: Option<string>, agentSource: Option<string>)

  datatype Content = Blob(bytes: seq<int>) | Record(manifest: Manifest)

  type Files = map<Path, Content>

  predicate PosterBelongs(poster: string, id: string) {
    || poster == PosterName(id, Png) || poster == PosterName(id, Jpg)
    || poster == PosterName(id, Webp) || poster == PosterName(id, Gif)
  }

  predicate ValidPaths(m: Manifest) {
    && m.extension.Some?
    && m.path == (if m.agentSource.Some? then AgentName(m.id, m.extension.value) else MediaName(m.id, m.extension.value))
    && SafeRelative(m.path)
    && !(m.agentSource.Some? && m.posterPath.Some?)
    && (m.posterPath.Some? ==> SafeRelative(m.posterPath.value) && PosterBelongs(m.posterPath.value, m.id))
  }

  function ManifestPath(id: string): Path {
    Path(Meta, ManifestName(id))
  }

  /** Reads the manifest of an id and checks it. */
  function ReadManifest(files: Files, id: string): Option<Manifest> {
    if !ValidId(id) || ManifestPath(id) !in files || files[ManifestPath(id)].Blob? then None
    else
      var m := files[ManifestPath(id)].manifest;
      if m.id == id && ValidPaths(m) && !m.alphaMode.OtherAlpha? then Some(m) else None
  }

  /** The poster an imported avatar may name: an image beside its media. */
  predicate PosterOf(poster: string, id: string) {
    poster == id + ".poster.png" || poster == id + ".poster.jpg" || poster == id + ".poster.webp" || poster == id + ".poster.gif"
  }

  /**
   * A manifest is read iff it is the stored record of a valid id, of a known media type and
   * alpha mode, and names exactly its own media: in the agents' folder and without a poster for
   * an agent's, beside the others and at most with its own poster otherwise.
   */
  lemma ManifestIsReadIff(files: Files, id: string, m: Manifest)
    ensures ReadManifest(files, id) == Some(m) <==>
            && ValidId(id) && Path(Meta, id + ".json") in files && files[Path(Meta, id + ".json")] == Record(m)
            && m.id == id && m.extension.Some? && !m.alphaMode.OtherAlpha?
            && if m.agentSource.Some? then
                 m.path == ".avatars/" + id + "." + ExtensionText(m.extension.value) && m.posterPath.None?
               else
                 m.path == id + "." + ExtensionText(m.extension.value)
                 && (m.posterPath.Some? ==> PosterOf(m.posterPath.value, id))
  {
    NamesAre(id);
    if ValidId(id) {
      forall e: Extension ensures SafeRelative(MediaName(id, e)) && SafeRelative(AgentName(id, e)) && SafeRelative(PosterName(id, e)) {
        NamesAreSafe(id, ExtensionText(e));
        NamesAreSafe(id, POSTER + ['.'] + ExtensionText(e));
      }
    }
  }

  lemma NamesAre(id: string)
    ensures ManifestName(id) == id + ".json"
    ensures forall e :: MediaName(id, e) == id + "." + ExtensionText(e)
    ensures forall e :: AgentName(id, e) == ".avatars/" + id + "." + ExtensionText(e)
    ensures forall poster :: PosterBelongs(poster, id) <==> PosterOf(poster, id)
  {
    forall e ensures AgentName(id, e) == ".avatars/" + id + "." + ExtensionText(e) { AgentNameIs(id, e); }
    PostersAre(id);
  }

  lemma AgentNameIs(id: string, e: Extension)
    ensures AgentName(id, e) == ".avatars/" + id + "." + ExtensionText(e)
  {
    assert FOLDER + ['/'] == ".avatars/";
  }

  lemma PostersAre(id: string)
    ensures forall poster :: PosterBelongs(poster, id) <==> PosterOf(poster, id)
  {
    PosterNameIs(id, Png, ".poster.png");
    PosterNameIs(id, Jpg, ".poster.jpg");
    PosterNameIs(id, Webp, ".poster.webp");
    PosterNameIs(id, Gif, ".poster.gif");
  }

  lemma PosterNameIs(id: string, e: Extension, tail: string)
    requires ['.'] + POSTER + ['.'] + ExtensionText(e) == tail
    ensures PosterName(id, e) == id + tail
  {
    assert ['.'] + (POSTER + ['.'] + ExtensionText(e)) == tail;
  }

  /** Where the media is; `folderOf` gives the folder of an agent file that still passes its checks. */
  function MediaPath(m: Manifest, folderOf: string -> Option<string>): Option<Path> {
    match m.agentSource
    case None => Some(Path(Media, m.path))
    case Some(source) =>
      match folderOf(source)
      case None => None
      case Some(folder) => Some(Path(Agent(folder), m.path))
  }

  // ------------------------------------------------------------------- delete

  datatype Plan = Absent | Refuse | Remove(paths: seq<Path>)

  function PlanFor(files: Files, id: string, folderOf: string -> Option<string>): Plan {
    if ManifestPath(id) !in files then Absent
    else
      match ReadManifest(files, id)
      case None => Refuse
      case Some(m) =>
        match MediaPath(m, folderOf)
        case None => Refuse
        case Some(media) =>
          Remove([media] + (if m.posterPath.Some? then [Path(Media, m.posterPath.value)] else []) + [ManifestPath(id)])
  }

  /**
   * What a delete removes, in order: the media, under the agent's folder if it is an agent's, the
   * poster if there is one, and the manifest last.
   */
  lemma PlanIs(files: Files, id: string, folderOf: string -> Option<string>, m: Manifest)
    requires ReadManifest(files, id) == Some(m)
    ensures m.agentSource.None? && m.posterPath.None? ==>
              PlanFor(files, id, folderOf) == Remove([Path(Media, m.path), Path(Meta, id + ".json")])
    ensures m.agentSource.None? && m.posterPath.Some? ==>
              PlanFor(files, id, folderOf)
              == Remove([Path(Media, m.path), Path(Media, m.posterPath.value), Path(Meta, id + ".json")])
    ensures m.agentSource.Some? ==>
              PlanFor(files, id, folderOf)
              == match folderOf(m.agentSource.value)
                 case None => Refuse
                 case Some(folder) => Remove([Path(Agent(folder), m.path), Path(Meta, id + ".json")])
  {
    NamesAre(id);
  }

  /** Nothing is removed, and no error reported, when there is no manifest; one that cannot be read refuses. */
  lemma PlanWithoutManifest(files: Files, id: string, folderOf: string -> Option<string>)
    ensures PlanFor(files, id, folderOf) == Absent <==> Path(Meta, id + ".json") !in files
    ensures Path(Meta, id + ".json") in files && ReadManifest(files, id).None? ==> PlanFor(files, id, folderOf) == Refuse
  {
    NamesAre(id);
  }

  /** The states of the files while the paths are removed in order, up to the first that cannot be. */
  function States(files: Files, paths: seq<Path>, stuck: set<Path>): (r: seq<Files>)
    ensures 0 < |r| <= |paths| + 1 && r[0] == files
  {
    if paths == [] || paths[0] in stuck then [files] else [files] + States(files - {paths[0]}, paths[1..], stuck)
  }

  /** What a run that removed the first path still adds to the trace. */
  lemma StatesStep(trace: seq<Files>, files: Files, path: Path, rest: seq<Path>, stuck: set<Path>)
    ensures path in stuck ==> trace + States(files, [path] + rest, stuck)[1..] == trace
    ensures path !in stuck ==>
              trace + States(files, [path] + rest, stuck)[1..]
              == trace + [files - {path}] + States(files - {path}, rest, stuck)[1..]
  {
    assert ([path] + rest)[1..] == rest;
    if path !in stuck {
      var later := States(files - {path}, rest, stuck);
      assert later == [files - {path}] + later[1..];
    }
  }

  function Last<T>(s: seq<T>): T
    requires s != []
  {
    s[|s| - 1]
  }

  function SetOf(paths: seq<Path>): set<Path> {
    set p | p in paths
  }

  lemma {:induction false} StateRemovesPrefix(files: Files, paths: seq<Path>, stuck: set<Path>, k: nat)
    requires k < |States(files, paths, stuck)|
    ensures k <= |paths| && States(files, paths, stuck)[k] == files - SetOf(paths[..k])
    decreases |paths|
  {
    if k > 0 {
      StateRemovesPrefix(files - {paths[0]}, paths[1..], stuck, k - 1);
      assert paths[..k] == [paths[0]] + paths[1..][..k - 1];
      assert SetOf(paths[..k]) == {paths[0]} + SetOf(paths[1..][..k - 1]);
      assert files - {paths[0]} - SetOf(paths[1..][..k - 1]) == files - SetOf(paths[..k]);
    }
  }

  lemma {:induction false} NothingStuckRemovesAll(files: Files, paths: seq<Path>)
    ensures Last(States(files, paths, {})) == files - SetOf(paths)
    decreases |paths|
  {
    var states := States(files, paths, {});
    AllStates(files, paths);
    StateRemovesPrefix(files, paths, {}, |paths|);
    assert paths[..|paths|] == paths;
  }

  lemma {:induction false} AllStates(files: Files, paths: seq<Path>)
    ensures |States(files, paths, {})| == |paths| + 1
    decreases |paths|
  {
    if paths != [] { AllStates(files - {paths[0]}, paths[1..]); }
  }

  lemma PlanIsOwned(files: Files, id: string, folderOf: string -> Option<string>)
    requires PlanFor(files, id, folderOf).Remove?
    ensures ValidId(id) && forall p :: p in PlanFor(files, id, folderOf).paths ==> Owns(id, p)
  {
    var m := ReadManifest(files, id).value;
    var e := m.extension.value;
    if m.posterPath.Some? {
      var poster := m.posterPath.value;
      assert poster == PosterName(id, Png) || poster == PosterName(id, Jpg)
             || poster == PosterName(id, Webp) || poster == PosterName(id, Gif);
    }
  }

  /** Whatever an accepted manifest of one avatar says, at no moment is a file of another touched. */
  lemma DeleteTouchesNoOtherAvatar(files: Files, a: string, b: string, folderOf: string -> Option<string>,
                                   stuck: set<Path>, k: nat, p: Path)
    requires PlanFor(files, a, folderOf).Remove? && ValidId(b) && a != b && Owns(b, p)
    requires k < |States(files, PlanFor(files, a, folderOf).paths, stuck)|
    ensures var now := States(files, PlanFor(files, a, folderOf).paths, stuck)[k];
            (p in now <==> p in files) && (p in files ==> now[p] == files[p])
  {
    var paths := PlanFor(files, a, folderOf).paths;
    PlanIsOwned(files, a, folderOf);
    StateRemovesPrefix(files, paths, stuck, k);
    if p in paths { OneOwner(a, b, p); }
  }

  lemma ManifestIsRemovedLast(files: Files, id: string, folderOf: string -> Option<string>)
    requires PlanFor(files, id, folderOf).Remove?
    ensures var paths := PlanFor(files, id, folderOf).paths;
            |paths| >= 2 && Last(paths) == ManifestPath(id)
            && forall i :: 0 <= i < |paths| - 1 ==> paths[i].dir != Meta
  {}

  /**
   * A delete stopped after any of its steps, by an error or by the end of the process, is
   * finished by running it again: the files end as after one undisturbed delete.
   */
  lemma RerunFinishesDelete(files: Files, id: string, folderOf: string -> Option<string>, stuck: set<Path>, k: nat)
    requires PlanFor(files, id, folderOf).Remove?
    requires k < |States(files, PlanFor(files, id, folderOf).paths, stuck)|
    ensures var paths := PlanFor(files, id, folderOf).paths;
            var now := States(files, paths, stuck)[k];
            if k == |paths| then PlanFor(now, id, folderOf) == Absent && now == files - SetOf(paths)
            else PlanFor(now, id, folderOf) == Remove(paths) && Last(States(now, paths, {})) == files - SetOf(paths)
  {
    var paths := PlanFor(files, id, folderOf).paths;
    var now := States(files, paths, stuck)[k];
    StateRemovesPrefix(files, paths, stuck, k);
    ManifestIsRemovedLast(files, id, folderOf);
    if k == |paths| {
      assert paths[..k] == paths;
    } else {
      forall p | p in paths[..k] ensures p != ManifestPath(id) {}
      NothingStuckRemovesAll(now, paths);
      assert now - SetOf(paths) == files - SetOf(paths);
    }
  }

  /** The avatar of an agent whose file no longer passes its checks can never be deleted. */
  lemma AgentGoneRefusesDelete(files: Files, id: string, folderOf: string -> Option<string>, m: Manifest)
    requires ReadManifest(files, id) == Some(m) && m.agentSource.Some?
    ensures PlanFor(files, id, folderOf) == Refuse <==> folderOf(m.agentSource.value).None?
  {}

  // ------------------------------------------------------------------- import

  /** The final-named files an import writes, in order. */
  function WrittenPaths(id: string, media: Extension, poster: Option<Extension>): seq<Path> {
    [Path(Media, MediaName(id, media))]
    + (if poster.Some? then [Path(Media, PosterName(id, poster.value))] else [])
    + [ManifestPath(id)]
  }

  function ManifestOf(id: string, media: Extension, alphaMode: AlphaMode, poster: Option<Extension>): Manifest {
    Manifest(id, MediaName(id, media), Some(media), alphaMode,
             if poster.Some? then Some(PosterName(id, poster.value)) else None, None)
  }

  function Put(files: Files, paths: seq<Path>, contents: seq<Content>): Files
    requires |paths| == |contents|
  {
    if paths == [] then files
    else Put(files, paths[..|paths| - 1], contents[..|paths| - 1])[Last(paths) := Last(contents)]
  }

  type PosterFile = Option<(seq<int>, Option<Extension>)>

  predicate Accepted(id: string, extension: Option<Extension>, alphaMode: AlphaMode, poster: PosterFile) {
    && !alphaMode.OtherAlpha? && ValidId(id) && extension.Some?
    && (poster.Some? ==> poster.value.1.Some? && IsImage(poster.value.1.value))
  }

  function PosterExtension(poster: PosterFile): Option<Extension> {
    if poster.Some? then poster.value.1 else None
  }

  function WrittenContents(id: string, bytes: seq<int>, media: Extension, alphaMode: AlphaMode, poster: PosterFile)
    : seq<Content>
  {
    [Blob(bytes)]
    + (if poster.Some? && poster.value.1.Some? then [Blob(poster.value.0)] else [])
    + [Record(ManifestOf(id, media, alphaMode, PosterExtension(poster)))]
  }

  /** A rollback deletes what it can. */
  function RolledBack(files: Files, paths: seq<Path>, stuck: set<Path>): Files {
    files - (set p | p in paths && p !in stuck)
  }

  /** How many leading paths can be written. */
  function Writable(paths: seq<Path>, faulty: set<Path>): (n: nat)
    ensures n <= |paths|
  {
    if paths == [] || paths[0] in faulty then 0 else 1 + Writable(paths[1..], faulty)
  }

  lemma {:induction false} WritableIs(paths: seq<Path>, faulty: set<Path>, n: nat)
    requires n <= |paths| && (n < |paths| ==> paths[n] in faulty)
    requires forall i :: 0 <= i < n ==> paths[i] !in faulty
    ensures Writable(paths, faulty) == n
  {
    if n > 0 { WritableIs(paths[1..], faulty, n - 1); }
  }

  lemma PutOneMore(files: Files, paths: seq<Path>, contents: seq<Content>, n: nat)
    requires n < |paths| == |contents|
    ensures Put(files, paths[..n + 1], contents[..n + 1]) ==
            Put(files, paths[..n], contents[..n])[paths[n] := contents[n]]
  {
    assert paths[..n + 1][..n] == paths[..n] && contents[..n + 1][..n] == contents[..n];
  }

  ghost predicate ImportEnds(before: Files, after: Files, ok: bool, paths: seq<Path>, contents: seq<Content>,
                             faulty: set<Path>, stuck: set<Path>)
    requires |paths| == |contents|
  {
    var n := Writable(paths, faulty);
    && ok == (n == |paths|)
    && after == if ok then Put(before, paths, contents)
                else RolledBack(Put(before, paths[..n], contents[..n]), paths[..n], stuck)
  }

  lemma {:induction false} PutElsewhere(files: Files, paths: seq<Path>, contents: seq<Content>, p: Path)
    requires |paths| == |contents|
    ensures p in Put(files, paths, contents) <==> p in files || p in paths
    ensures p !in paths && p in files ==> Put(files, paths, contents)[p] == files[p]
    decreases |paths|
  {
    if paths != [] {
      var n := |paths| - 1;
      PutElsewhere(files, paths[..n], contents[..n], p);
      assert paths == paths[..n] + [paths[n]];
    }
  }

  /** Under a fresh id a failed import leaves the files as they were iff no rollback delete failed. */
  lemma FailedImportLeavesNoTraceIff(files: Files, paths: seq<Path>, contents: seq<Content>, stuck: set<Path>)
    requires |paths| == |contents| && forall p :: p in paths ==> p !in files
    ensures RolledBack(Put(files, paths, contents), paths, stuck) == files <==> forall p :: p in paths ==> p !in stuck
  {
    var after := Put(files, paths, contents);
    var back := RolledBack(after, paths, stuck);
    forall p
      ensures p in after <==> p in files || p in paths
      ensures p !in paths && p in files ==> after[p] == files[p]
    {
      PutElsewhere(files, paths, contents, p);
    }
    if forall p :: p in paths ==> p !in stuck {
      assert forall p :: p in back <==> p in files;
      assert back == files;
    }
    if p :| p in paths && p in stuck { assert p in back; }
  }

  lemma WrittenManifestIsValid(id: string, media: Extension, alphaMode: AlphaMode, poster: PosterFile)
    requires Accepted(id, Some(media), alphaMode, poster)
    ensures ValidPaths(ManifestOf(id, media, alphaMode, PosterExtension(poster)))
  {
    NamesAreSafe(id, ExtensionText(media));
    if poster.Some? {
      var e := poster.value.1.value;
      assert IsImage(e);
      NamesAreSafe(id, POSTER + ['.'] + ExtensionText(e));
      assert e == Png || e == Jpg || e == Webp || e == Gif;
    }
  }

  /** An import is accepted iff its id, media type and alpha mode are known, and its poster, if any, is an image. */
  lemma AcceptedIff(id: string, extension: Option<Extension>, alphaMode: AlphaMode, poster: PosterFile)
    ensures Accepted(id, extension, alphaMode, poster) <==>
            && ValidId(id) && extension.Some? && (alphaMode == NoAlpha || alphaMode == Stacked)
            && (poster.None? || poster.value.1 in {Some(Png), Some(Jpg), Some(Webp), Some(Gif)})
  {}

  /** After an import the media, the poster and the manifest hold what was imported; every other file is as it was. */
  lemma ImportWrites(files: Files, id: string, bytes: seq<int>, media: Extension, alphaMode: AlphaMode,
                     poster: PosterFile, p: Path)
    requires Accepted(id, Some(media), alphaMode, poster)
    ensures
      var after := Put(files, WrittenPaths(id, media, PosterExtension(poster)),
                       WrittenContents(id, bytes, media, alphaMode, poster));
      var mediaName := id + "." + ExtensionText(media);
      var posterName := if poster.Some? then Some(id + ".poster." + ExtensionText(poster.value.1.value)) else None;
      var manifest := Manifest(id, mediaName, Some(media), alphaMode, posterName, None);
      if p == Path(Media, mediaName) then p in after && after[p] == Blob(bytes)
      else if posterName.Some? && p == Path(Media, posterName.value) then p in after && after[p] == Blob(poster.value.0)
      else if p == Path(Meta, id + ".json") then p in after && after[p] == Record(manifest)
      else (p in after <==> p in files) && (p in files ==> after[p] == files[p])
  {
    var paths, contents := WrittenPaths(id, media, PosterExtension(poster)), WrittenContents(id, bytes, media, alphaMode, poster);
    NamesAre(id);
    if poster.Some? {
      var e := poster.value.1.value;
      assert PosterName(id, e) == id + ".poster." + ExtensionText(e);
      assert |PosterName(id, e)| > |MediaName(id, media)|;
      assert paths == [paths[0], paths[1], paths[2]];
      PutOneMore(files, paths, contents, 2);
      PutOneMore(files, paths, contents, 1);
      PutOneMore(files, paths, contents, 0);
    } else {
      assert paths == [paths[0], paths[1]];
      PutOneMore(files, paths, contents, 1);
      PutOneMore(files, paths, contents, 0);
    }
    assert paths[..|paths|] == paths && contents[..|contents|] == contents;
  }

  lemma ImportedManifestIsRead(files: Files, id: string, bytes: seq<int>, media: Extension, alphaMode: AlphaMode,
                               poster: PosterFile)
    requires Accepted(id, Some(media), alphaMode, poster)
    ensures var paths := WrittenPaths(id, media, PosterExtension(poster));
            var after := Put(files, paths, WrittenContents(id, bytes, media, alphaMode, poster));
            ManifestPath(id) in after
            && ReadManifest(after, id) == Some(ManifestOf(id, media, alphaMode, PosterExtension(poster)))
  {
    WrittenManifestIsValid(id, media, alphaMode, poster);
  }

  /** What an import wrote is accepted by a delete, which takes back exactly that. */
  lemma DeleteUndoesImport(files: Files, id: string, bytes: seq<int>, media: Extension, alphaMode: AlphaMode,
                           poster: PosterFile, folderOf: string -> Option<string>)
    requires Accepted(id, Some(media), alphaMode, poster)
    requires forall p :: p in WrittenPaths(id, media, PosterExtension(poster)) ==> p !in files
    ensures var paths := WrittenPaths(id, media, PosterExtension(poster));
            var after := Put(files, paths, WrittenContents(id, bytes, media, alphaMode, poster));
            PlanFor(after, id, folderOf) == Remove(paths) && Last(States(after, paths, {})) == files
  {
    var paths := WrittenPaths(id, media, PosterExtension(poster));
    var contents := WrittenContents(id, bytes, media, alphaMode, poster);
    var after := Put(files, paths, contents);
    ImportedManifestIsRead(files, id, bytes, media, alphaMode, poster);
    NothingStuckRemovesAll(after, paths);
    FailedImportLeavesNoTraceIff(files, paths, contents, {});
    assert after - SetOf(paths) == RolledBack(after, paths, {});
  }

  // -------------------------------------------------------------------- store

  class AvatarStore {
    var files: Files

    /** Every state of the files, oldest first. */
    ghost var trace: seq<Files>

    ghost predicate Valid()
      reads this
    {
      trace != [] && Last(trace) == files
    }

    constructor ()
      ensures Valid() && files == map[]
    {
      files := map[];
      trace := [map[]];
    }

    method RemoveFile(path: Path, stuck: set<Path>) returns (ok: bool)
      requires Valid()
      modifies this
      ensures Valid() && ok == (path !in stuck)
      ensures files == if ok then old(files) - {path} else old(files)
      ensures trace == if ok then old(trace) + [files] else old(trace)
    {
      if path in stuck { return false; }
      files := files - {path};
      trace := trace + [files];
      ok := true;
    }

    method RemoveAvatarFiles(media: Path, poster: Option<Path>, manifest: Path, stuck: set<Path>) returns (ok: bool)
      requires Valid()
      modifies this
      ensures Valid()
      ensures var paths := [media] + (if poster.Some? then [poster.value] else []) + [manifest];
              && trace == old(trace) + States(old(files), paths, stuck)[1..]
              && (ok <==> forall p :: p in paths ==> p !in stuck)
    {
      ghost var posters := if poster.Some? then [poster.value] else [];
      assert [media] + posters + [manifest] == [media] + (posters + [manifest]);
      StatesStep(trace, files, media, posters + [manifest], stuck);
      ok := RemoveFile(media, stuck);
      if !ok { return; }
      if poster.Some? {
        StatesStep(trace, files, poster.value, [manifest], stuck);
        ok := RemoveFile(poster.value, stuck);
        if !ok { return; }
      }
      StatesStep(trace, files, manifest, [], stuck);
      ok := RemoveFile(manifest, stuck);
    }

    method DeleteUserAvatar(reference: Option<string>, folderOf: string -> Option<string>, stuck: set<Path>)
      returns (ok: bool)
      requires Valid()
      modifies this
      ensures Valid()
      ensures reference.None? || !ValidId(reference.value) ==> !ok && files == old(files) && trace == old(trace)
      ensures reference.Some? && ValidId(reference.value) ==>
                var plan := PlanFor(old(files), reference.value, folderOf);
                if plan.Remove? then
                  trace == old(trace) + States(old(files), plan.paths, stuck)[1..]
                  && (ok <==> forall p :: p in plan.paths ==> p !in stuck)
                else ok == plan.Absent? && files == old(files) && trace == old(trace)
    {
      if reference.None? || !ValidId(reference.value) { return false; }
      var id := reference.value;
      if ManifestPath(id) !in files { return true; }
      var manifest := ReadManifest(files, id);
      if manifest.None? { return false; }
      var media := MediaPath(manifest.value, folderOf);
      if media.None? { return false; }
      var poster := if manifest.value.posterPath.Some? then Some(Path(Media, manifest.value.posterPath.value)) else None;
      ok := RemoveAvatarFiles(media.value, poster, ManifestPath(id), stuck);
    }

    method AtomicWrite(path: Path, content: Content, faulty: set<Path>) returns (ok: bool)
      requires Valid()
      modifies this
      ensures Valid() && ok == (path !in faulty) && old(trace) <= trace
      ensures files == if ok then old(files)[path := content] else old(files)
    {
      if path in faulty { return false; }
      files := files[path := content];
      trace := trace + [files];
      ok := true;
    }

    method Rollback(paths: seq<Path>, stuck: set<Path>)
      requires Valid()
      modifies this
      ensures Valid() && old(trace) <= trace
      ensures files == RolledBack(old(files), paths, stuck)
    {
      for i := 0 to |paths|
        invariant Valid() && old(trace) <= trace
        invariant files == RolledBack(old(files), paths[..i], stuck)
      {
        var removed := RemoveFile(paths[i], stuck);
        assert paths[..i + 1] == paths[..i] + [paths[i]];
      }
      assert paths[..|paths|] == paths;
    }

    method WriteAvatarFiles(paths: seq<Path>, contents: seq<Content>, faulty: set<Path>, stuck: set<Path>)
      returns (ok: bool)
      requires Valid() && |paths| == |contents| && 2 <= |paths| <= 3
      modifies this
      ensures Valid() && old(trace) <= trace
      ensures ImportEnds(old(files), files, ok, paths, contents, faulty, stuck)
    {
      ghost var was := files;
      PutOneMore(was, paths, contents, 0);
      ok := AtomicWrite(paths[0], contents[0], faulty);
      if !ok {
        WritableIs(paths, faulty, 0);
        return;
      }
      PutOneMore(was, paths, contents, 1);
      ok := AtomicWrite(paths[1], contents[1], faulty);
      if !ok {
        WritableIs(paths, faulty, 1);
        Rollback(paths[..1], stuck);
        return;
      }
      if |paths| == 3 {
        PutOneMore(was, paths, contents, 2);
        ok := AtomicWrite(paths[2], contents[2], faulty);
        if !ok {
          WritableIs(paths, faulty, 2);
          Rollback(paths[..2], stuck);
          return;
        }
      }
      WritableIs(paths, faulty, |paths|);
      assert paths[..|paths|] == paths && contents[..|contents|] == contents;
    }

    /** Writes media, poster and manifest in this order; a failed write takes the earlier ones back. */
    method WriteUserAvatar(id: string, bytes: seq<int>, extension: Option<Extension>, alphaMode: AlphaMode,
                           poster: PosterFile, faulty: set<Path>, stuck: set<Path>)
      returns (ok: bool)
      requires Valid()
      modifies this
      ensures Valid() && old(trace) <= trace
      ensures !Accepted(id, extension, alphaMode, poster) ==> !ok && files == old(files)
      ensures Accepted(id, extension, alphaMode, poster) ==>
                ImportEnds(old(files), files, ok, WrittenPaths(id, extension.value, PosterExtension(poster)),
                           WrittenContents(id, bytes, extension.value, alphaMode, poster), faulty, stuck)
    {
      if !Accepted(id, extension, alphaMode, poster) { return false; }
      var paths := WrittenPaths(id, extension.value, PosterExtension(poster));
      var contents := WrittenContents(id, bytes, extension.value, alphaMode, poster);
      ok := WriteAvatarFiles(paths, contents, faulty, stuck);
    }
  }
}
