/**
 * Finding a server again by its inventory id, before and after its entry is edited.
 *
 * A disk maps each readable configuration file to its parsed document.  A source is a file
 * as one harness reads it; in it, server maps stand at the top, in Codex profiles and in
 * the local projects of Claude Code.
 */
module McpSources {
  import opened JsonTree
  import opened Wrappers

  datatype Harness = ClaudeCode | Codex | Grok | Gemini | OpenCode

  datatype Scope = User | Project | LocalProject | Profile | Plugin

  datatype Label = FileLabel(text: string) | ProfileLabel(name: string) | LocalProjectLabel

  datatype ConfigFile = ConfigFile(path: string, scope: Scope, shownAs: Label)

  datatype Source = Source(harness: Harness, file: ConfigFile)

  type Disk = map<string, Json>

  type IdOf = (Harness, ConfigFile, string) -> string

  const PROFILES: string := "profiles"
  const PROJECTS: string := "projects"
  const SERVER_MAPS: seq<string> := ["mcpServers", "mcp_servers", "mcp"]

  lemma SectionsAreNoServerMaps()
    ensures PROFILES != PROJECTS && PROFILES !in SERVER_MAPS && PROJECTS !in SERVER_MAPS
    ensures PROFILES == "profiles" && PROJECTS == "projects" && SERVER_MAPS == ["mcpServers", "mcp_servers", "mcp"]
  {
    assert PROFILES[3] == 'f' && PROJECTS[3] == 'j' && PROFILES[0] == 'p' && PROJECTS[0] == 'p';
    assert forall key :: key in SERVER_MAPS ==> key[0] == 'm';
  }

  // -------------------------------------------------------------------- sites

  /** A place that may hold server maps: the file as it is labelled there, and where in the document. */
  datatype Site = Site(scoped: ConfigFile, prefix: Pointer)

  predicate IsObject(j: Option<Json>) {
    j.Some? && j.value.Object?
  }

  /** Whether the source has the site; `matching` are the project paths of the active workspaces. */
  predicate IsSite(document: Json, s: Source, matching: set<string>, site: Site) {
    || (site.prefix == [] && site.scoped == s.file)
    || (&& s.harness == Codex
        && |site.prefix| == 2 && site.prefix[0] == PROFILES
        && Lookup(document, site.prefix).Some?
        && site.scoped == ConfigFile(s.file.path, Profile, ProfileLabel(site.prefix[1])))
    || (&& s.harness == ClaudeCode && s.file.scope == User
        && |site.prefix| == 2 && site.prefix[0] == PROJECTS && site.prefix[1] in matching
        && Lookup(document, site.prefix).Some?
        && site.scoped == ConfigFile(s.file.path, LocalProject, LocalProjectLabel))
  }

  /** A server entry: the source and site it is found at, which map holds it, and its key there. */
  datatype Entry = Entry(source: Source, site: Site, mapKey: string, key: string) {
    function Path(): string { source.file.path }

    function Where(): Pointer { site.prefix + [mapKey, key] }

    function Id(idOf: IdOf): string { idOf(source.harness, site.scoped, key) }
  }

  predicate Present(disk: Disk, sources: seq<Source>, matching: set<string>, e: Entry) {
    && e.source in sources && e.Path() in disk && e.mapKey in SERVER_MAPS
    && IsSite(disk[e.Path()], e.source, matching, e.site)
    && Lookup(disk[e.Path()], e.Where()).Some?
  }

  function ConfigOf(disk: Disk, e: Entry): Option<Json> {
    if e.Path() in disk then Lookup(disk[e.Path()], e.Where()) else None
  }

  predicate SameSpot(a: Entry, b: Entry) {
    a.Path() == b.Path() && a.Where() == b.Where()
  }

  function EditDisk(disk: Disk, target: Entry, action: Action): Disk {
    if target.Path() !in disk then disk
    else
      match Edit(disk[target.Path()], target.Where(), action)
      case Edited(document) => disk[target.Path() := document]
      case _ => disk
  }

  // ----------------------------------------------------- an edit and the sites

  lemma PrefixShape(document: Json, s: Source, matching: set<string>, site: Site)
    requires IsSite(document, s, matching, site)
    ensures site.prefix == [] || (|site.prefix| == 2 && site.prefix[0] in {PROFILES, PROJECTS})
  {}

  /** Two pointers to entries, one of which continues the other, are the same. */
  lemma PointersDoNotNest(a: Entry, b: Entry)
    requires a.mapKey in SERVER_MAPS && b.mapKey in SERVER_MAPS
    requires a.site.prefix == [] || (|a.site.prefix| == 2 && a.site.prefix[0] in {PROFILES, PROJECTS})
    requires b.site.prefix == [] || (|b.site.prefix| == 2 && b.site.prefix[0] in {PROFILES, PROJECTS})
    requires a.Where() <= b.Where()
    ensures a.Where() == b.Where()
  {
    SectionsAreNoServerMaps();
    assert a.Where()[0] == b.Where()[0];
  }

  /** An edit of one entry leaves every site where it was. */
  lemma EditKeepsSites(disk: Disk, sources: seq<Source>, matching: set<string>, target: Entry, action: Action,
                       s: Source, site: Site)
    requires Present(disk, sources, matching, target) && s.file.path == target.Path()
    requires Edit(disk[target.Path()], target.Where(), action).Edited?
    ensures var document := disk[target.Path()];
            IsSite(Edit(document, target.Where(), action).document, s, matching, site)
            <==> IsSite(document, s, matching, site)
  {
    var document := disk[target.Path()];
    var where, q := target.Where(), site.prefix;
    PrefixShape(document, target.source, matching, target.site);
    SectionsAreNoServerMaps();
    if |q| == 2 && q[0] in {PROFILES, PROJECTS} {
      if q <= where {
        assert where[0] == q[0];
        assert where[..2] == q;
        EditAbove(document, where, action, 2);
      } else {
        EditElsewhere(document, where, action, q);
      }
    }
  }

  /** What an edit of one entry does to the configuration of every other. */
  lemma EditKeepsOtherEntries(disk: Disk, sources: seq<Source>, matching: set<string>, target: Entry, action: Action,
                              e: Entry)
    requires Present(disk, sources, matching, target) && e.mapKey in SERVER_MAPS && !SameSpot(e, target)
    requires e.site.prefix == [] || (|e.site.prefix| == 2 && e.site.prefix[0] in {PROFILES, PROJECTS})
    ensures ConfigOf(EditDisk(disk, target, action), e) == ConfigOf(disk, e)
  {
    var document := disk[target.Path()];
    PrefixShape(document, target.source, matching, target.site);
    if e.Path() == target.Path() && Edit(document, target.Where(), action).Edited? {
      if target.Where() <= e.Where() { PointersDoNotNest(target, e); }
      if e.Where() <= target.Where() { PointersDoNotNest(e, target); }
      EditElsewhere(document, target.Where(), action, e.Where());
    }
  }

  lemma EditKeepsSitesOnDisk(disk: Disk, sources: seq<Source>, matching: set<string>, target: Entry, action: Action,
                             e: Entry)
    requires Present(disk, sources, matching, target) && e.Path() in disk
    ensures e.Path() in EditDisk(disk, target, action)
    ensures IsSite(EditDisk(disk, target, action)[e.Path()], e.source, matching, e.site)
            <==> IsSite(disk[e.Path()], e.source, matching, e.site)
  {
    if e.Path() == target.Path() && Edit(disk[target.Path()], target.Where(), action).Edited? {
      EditKeepsSites(disk, sources, matching, target, action, e.source, e.site);
    }
  }

  /** After a removal exactly the other entries are present, each with the configuration it had. */
  lemma RemovalLeavesTheOthers(disk: Disk, sources: seq<Source>, matching: set<string>, target: Entry, e: Entry)
    requires Present(disk, sources, matching, target)
    ensures Present(EditDisk(disk, target, Delete), sources, matching, e) <==>
            Present(disk, sources, matching, e) && !SameSpot(e, target)
    ensures Present(EditDisk(disk, target, Delete), sources, matching, e) ==>
              ConfigOf(EditDisk(disk, target, Delete), e) == ConfigOf(disk, e)
  {
    var document := disk[target.Path()];
    EditOfPresentEntry(document, target.Where(), Delete);
    if e.Path() in disk && e.mapKey in SERVER_MAPS && IsSite(disk[e.Path()], e.source, matching, e.site) {
      PrefixShape(disk[e.Path()], e.source, matching, e.site);
      if SameSpot(e, target) {
        EditAt(document, target.Where(), Delete);
      } else {
        EditKeepsOtherEntries(disk, sources, matching, target, Delete, e);
      }
    }
    if e.Path() in disk { EditKeepsSitesOnDisk(disk, sources, matching, target, Delete, e); }
  }

  /** After a new configuration the same entries are present; only the target's spot holds the new one. */
  lemma ConfiguringKeepsEntries(disk: Disk, sources: seq<Source>, matching: set<string>, target: Entry, config: Json, e: Entry)
    requires Present(disk, sources, matching, target)
    ensures Present(EditDisk(disk, target, Configure(config)), sources, matching, e) <==>
            Present(disk, sources, matching, e)
    ensures Present(disk, sources, matching, e) ==>
              ConfigOf(EditDisk(disk, target, Configure(config)), e) ==
              if SameSpot(e, target) then Some(config) else ConfigOf(disk, e)
  {
    var document := disk[target.Path()];
    var action := Configure(config);
    EditOfPresentEntry(document, target.Where(), action);
    if e.Path() in disk && e.mapKey in SERVER_MAPS && IsSite(disk[e.Path()], e.source, matching, e.site) {
      PrefixShape(disk[e.Path()], e.source, matching, e.site);
      if SameSpot(e, target) {
        EditAt(document, target.Where(), action);
      } else {
        EditKeepsOtherEntries(disk, sources, matching, target, action, e);
      }
    }
    if e.Path() in disk { EditKeepsSitesOnDisk(disk, sources, matching, target, action, e); }
  }

  /** Enabling keeps every entry but panics iff the entry is neither object nor null; it changes one field. */
  lemma EnablingKeepsEntries(disk: Disk, sources: seq<Source>, matching: set<string>, target: Entry, on: bool, e: Entry)
    requires Present(disk, sources, matching, target)
    ensures var entry := ConfigOf(disk, target).value;
            Edit(disk[target.Path()], target.Where(), Enable(on)).Panics? <==> !entry.Object? && !entry.Null?
    ensures Present(EditDisk(disk, target, Enable(on)), sources, matching, e) <==> Present(disk, sources, matching, e)
    ensures Present(disk, sources, matching, e) && !SameSpot(e, target) ==>
              ConfigOf(EditDisk(disk, target, Enable(on)), e) == ConfigOf(disk, e)
    ensures Present(disk, sources, matching, e) && SameSpot(e, target) ==>
              forall key :: key != ENABLED ==>
                Get(ConfigOf(EditDisk(disk, target, Enable(on)), e).value, key) == Get(ConfigOf(disk, e).value, key)
  {
    var document := disk[target.Path()];
    var action := Enable(on);
    EditOfPresentEntry(document, target.Where(), action);
    if Edit(document, target.Where(), action).Edited? { EditAt(document, target.Where(), action); }
    if e.Path() in disk && e.mapKey in SERVER_MAPS && IsSite(disk[e.Path()], e.source, matching, e.site) {
      PrefixShape(disk[e.Path()], e.source, matching, e.site);
      if !SameSpot(e, target) { EditKeepsOtherEntries(disk, sources, matching, target, action, e); }
    }
    if e.Path() in disk { EditKeepsSitesOnDisk(disk, sources, matching, target, action, e); }
  }

  // -------------------------------------------------------------------- locate

  ghost predicate HasId(disk: Disk, sources: seq<Source>, matching: set<string>, idOf: IdOf, id: string, e: Entry) {
    Present(disk, sources, matching, e) && e.Id(idOf) == id
  }

  method FindInMap(fields: map<string, Json>, idOf: IdOf, s: Source, site: Site, id: string) returns (r: Option<string>)
    ensures r.Some? ==> r.value in fields && idOf(s.harness, site.scoped, r.value) == id
    ensures r.None? ==> forall key :: key in fields ==> idOf(s.harness, site.scoped, key) != id
  {
    var remaining := fields.Keys;
    while remaining != {}
      invariant remaining <= fields.Keys
      invariant forall key :: key in fields.Keys - remaining ==> idOf(s.harness, site.scoped, key) != id
      decreases |remaining|
    {
      var key :| key in remaining;
      if idOf(s.harness, site.scoped, key) == id { return Some(key); }
      remaining := remaining - {key};
    }
    r := None;
  }

  /** The keys of an object in some order; none for any other value. */
  method KeysOf(j: Option<Json>) returns (keys: seq<string>)
    ensures forall key :: key in keys <==> IsObject(j) && key in j.value.fields
  {
    keys := [];
    if !IsObject(j) { return; }
    var remaining := j.value.fields.Keys;
    while remaining != {}
      invariant remaining <= j.value.fields.Keys
      invariant forall key :: key in keys <==> key in j.value.fields.Keys - remaining
      decreases |remaining|
    {
      var key :| key in remaining;
      keys := keys + [key];
      remaining := remaining - {key};
    }
  }

  lemma LookupTwo(document: Json, a: string, b: string)
    ensures Lookup(document, [a, b]).Some? <==> IsObject(Get(document, a)) && b in Get(document, a).value.fields
  {
    LookupAppend(document, [a], [b]);
    assert [a] + [b] == [a, b] && [a][1..] == [] && [b][1..] == [];
  }

  method SitesOf(document: Json, s: Source, matching: set<string>) returns (sites: seq<Site>)
    ensures forall site :: site in sites <==> IsSite(document, s, matching, site)
  {
    sites := [Site(s.file, [])];
    var section := if s.harness == Codex then PROFILES else PROJECTS;
    if s.harness == Codex || (s.harness == ClaudeCode && s.file.scope == User) {
      var names := KeysOf(Get(document, section));
      for i := 0 to |names|
        invariant forall site :: site in sites <==>
          site == Site(s.file, [])
          || exists k :: 0 <= k < i && site == SectionSite(s, section, names[k]) && (s.harness == Codex || names[k] in matching)
      {
        if s.harness == Codex || names[i] in matching { sites := sites + [SectionSite(s, section, names[i])]; }
      }
      forall site ensures site in sites <==> IsSite(document, s, matching, site) {
        if |site.prefix| == 2 {
          assert site.prefix == [site.prefix[0], site.prefix[1]];
          LookupTwo(document, site.prefix[0], site.prefix[1]);
        }
        if IsSite(document, s, matching, site) && site.prefix != [] {
          var k :| 0 <= k < |names| && names[k] == site.prefix[1];
          assert site == SectionSite(s, section, names[k]);
        }
        if site in sites && site != Site(s.file, []) {
          var k :| 0 <= k < |names| && site == SectionSite(s, section, names[k]) && (s.harness == Codex || names[k] in matching);
          assert names[k] in names;
          LookupTwo(document, section, names[k]);
        }
      }
    }
  }

  function SectionSite(s: Source, section: string, name: string): Site {
    var scoped := if s.harness == Codex then ConfigFile(s.file.path, Profile, ProfileLabel(name))
                  else ConfigFile(s.file.path, LocalProject, LocalProjectLabel);
    Site(scoped, [section, name])
  }

  /** The first entry of one site that has the id, trying the three map keys in order. */
  method FindAtSite(document: Json, idOf: IdOf, s: Source, site: Site, id: string) returns (r: Option<Entry>)
    ensures r.Some? ==>
              && r.value.source == s && r.value.site == site && r.value.mapKey in SERVER_MAPS
              && r.value.Id(idOf) == id && Lookup(document, r.value.Where()).Some?
    ensures r.None? ==> NoneAtSite(document, idOf, s, site, id, SERVER_MAPS)
  {
    for i := 0 to |SERVER_MAPS|
      invariant NoneAtSite(document, idOf, s, site, id, SERVER_MAPS[..i])
    {
      var mapKey := SERVER_MAPS[i];
      var servers := Lookup(document, site.prefix + [mapKey]);
      forall key { LookupOfEntry(document, site.prefix, mapKey, key); }
      if IsObject(servers) {
        var key := FindInMap(servers.value.fields, idOf, s, site, id);
        if key.Some? { return Some(Entry(s, site, mapKey, key.value)); }
      }
    }
    assert SERVER_MAPS[..|SERVER_MAPS|] == SERVER_MAPS;
    r := None;
  }

  ghost predicate NoneAtSite(document: Json, idOf: IdOf, s: Source, site: Site, id: string, mapKeys: seq<string>) {
    forall e: Entry :: e.source == s && e.site == site && e.mapKey in mapKeys && e.Id(idOf) == id ==>
      Lookup(document, e.Where()).None?
  }

  lemma LookupOfEntry(document: Json, prefix: Pointer, mapKey: string, key: string)
    ensures var servers := Lookup(document, prefix + [mapKey]);
            Lookup(document, prefix + [mapKey, key]).Some? <==> IsObject(servers) && key in servers.value.fields
  {
    LookupAppend(document, prefix + [mapKey], [key]);
    assert prefix + [mapKey] + [key] == prefix + [mapKey, key] && [key][1..] == [];
  }

  ghost predicate NoneInSource(disk: Disk, s: Source, matching: set<string>, idOf: IdOf, id: string) {
    forall e: Entry :: Present(disk, [s], matching, e) ==> e.Id(idOf) != id
  }

  method FindInSource(disk: Disk, s: Source, matching: set<string>, idOf: IdOf, id: string) returns (r: Option<Entry>)
    ensures r.Some? ==> Present(disk, [s], matching, r.value) && r.value.Id(idOf) == id
    ensures r.None? ==> NoneInSource(disk, s, matching, idOf, id)
  {
    if s.file.path !in disk { return None; }
    var document := disk[s.file.path];
    var sites := SitesOf(document, s, matching);
    for i := 0 to |sites|
      invariant forall k :: 0 <= k < i ==> NoneAtSite(document, idOf, s, sites[k], id, SERVER_MAPS)
    {
      r := FindAtSite(document, idOf, s, sites[i], id);
      if r.Some? { return; }
    }
    r := None;
  }

  /** An entry with the id from the first source that has one; none iff no source has one. */
  method LocateServer(disk: Disk, sources: seq<Source>, matching: set<string>, idOf: IdOf, id: string)
    returns (r: Option<Entry>)
    ensures r.None? <==> forall e :: !HasId(disk, sources, matching, idOf, id, e)
    ensures r.Some? ==> HasId(disk, sources, matching, idOf, id, r.value)
    ensures r.Some? ==>
              exists i :: 0 <= i < |sources| && sources[i] == r.value.source
                          && forall k :: 0 <= k < i ==> NoneInSource(disk, sources[k], matching, idOf, id)
  {
    for i := 0 to |sources|
      invariant forall k :: 0 <= k < i ==> NoneInSource(disk, sources[k], matching, idOf, id)
    {
      r := FindInSource(disk, sources[i], matching, idOf, id);
      if r.Some? {
        assert HasId(disk, sources, matching, idOf, id, r.value);
        return;
      }
    }
    forall e | Present(disk, sources, matching, e) ensures e.Id(idOf) != id {
      var k :| 0 <= k < |sources| && sources[k] == e.source;
      assert Present(disk, [sources[k]], matching, e);
    }
    r := None;
  }

  // ---------------------------------------------------------------- relocation

  /** After a removal nothing has the id any more iff nothing else had it before. */
  lemma RemovedIdIsGoneIff(disk: Disk, sources: seq<Source>, matching: set<string>, idOf: IdOf, target: Entry)
    requires Present(disk, sources, matching, target)
    ensures (forall e :: !HasId(EditDisk(disk, target, Delete), sources, matching, idOf, target.Id(idOf), e))
            <==> (forall e :: HasId(disk, sources, matching, idOf, target.Id(idOf), e) ==> SameSpot(e, target))
  {
    forall e
      ensures HasId(EditDisk(disk, target, Delete), sources, matching, idOf, target.Id(idOf), e)
              <==> HasId(disk, sources, matching, idOf, target.Id(idOf), e) && !SameSpot(e, target)
    {
      RemovalLeavesTheOthers(disk, sources, matching, target, e);
    }
  }

  ghost predicate Unambiguous(disk: Disk, sources: seq<Source>, matching: set<string>, idOf: IdOf) {
    forall a, b :: Present(disk, sources, matching, a) && Present(disk, sources, matching, b) && a.Id(idOf) == b.Id(idOf) ==>
      SameSpot(a, b)
  }

  /** Where ids are unambiguous, the id of a configured entry leads to that entry and its new configuration. */
  lemma ConfiguredIdFindsItsEntry(disk: Disk, sources: seq<Source>, matching: set<string>, idOf: IdOf,
                                  target: Entry, config: Json, e: Entry)
    requires Present(disk, sources, matching, target) && Unambiguous(disk, sources, matching, idOf)
    requires HasId(EditDisk(disk, target, Configure(config)), sources, matching, idOf, target.Id(idOf), e)
    ensures SameSpot(e, target) && ConfigOf(EditDisk(disk, target, Configure(config)), e) == Some(config)
  {
    ConfiguringKeepsEntries(disk, sources, matching, target, config, e);
  }

  ghost predicate OneMapPerSite(disk: Disk, sources: seq<Source>, matching: set<string>) {
    forall a, b :: Present(disk, sources, matching, a) && Present(disk, sources, matching, b) ==>
      (a.Path() == b.Path() && a.site.prefix == b.site.prefix ==> a.mapKey == b.mapKey)
  }

  ghost predicate LocalProjectsDiffer(disk: Disk, sources: seq<Source>, matching: set<string>) {
    forall a, b :: Present(disk, sources, matching, a) && Present(disk, sources, matching, b) ==>
      (a.site.scoped.scope.LocalProject? && a.site.scoped == b.site.scoped && a.key == b.key ==>
         a.site.prefix == b.site.prefix)
  }

  /** Ids are unambiguous when they are injective, a site has one map, and no two local projects share a key. */
  lemma UnambiguousWhen(disk: Disk, sources: seq<Source>, matching: set<string>, idOf: IdOf)
    requires forall h, f, k, h', f', k' :: idOf(h, f, k) == idOf(h', f', k') ==> h == h' && f == f' && k == k'
    requires forall s :: s in sources ==> !s.file.scope.LocalProject? && !s.file.scope.Profile?
    requires OneMapPerSite(disk, sources, matching) && LocalProjectsDiffer(disk, sources, matching)
    ensures Unambiguous(disk, sources, matching, idOf)
  {
    forall a, b | Present(disk, sources, matching, a) && Present(disk, sources, matching, b) && a.Id(idOf) == b.Id(idOf)
      ensures SameSpot(a, b)
    {
      assert a.site.scoped == b.site.scoped && a.key == b.key && a.Path() == b.Path();
      if a.site.scoped.scope.Profile? {
        assert a.site.prefix == [PROFILES, a.site.prefix[1]] && b.site.prefix == [PROFILES, b.site.prefix[1]];
      }
    }
  }

  /**
   * Two active local projects of one file that name a server alike share its id, however ids
   * are made: either may be the one edited, and removing one leaves the id at the other.
   */
  lemma LocalProjectsShareAnId(disk: Disk, sources: seq<Source>, matching: set<string>, idOf: IdOf, s: Source,
                               p1: string, p2: string, mapKey: string, key: string)
    requires s in sources && s.harness == ClaudeCode && s.file.scope == User && s.file.path in disk
    requires p1 != p2 && p1 in matching && p2 in matching && mapKey in SERVER_MAPS
    requires Lookup(disk[s.file.path], [PROJECTS, p1, mapKey, key]).Some?
    requires Lookup(disk[s.file.path], [PROJECTS, p2, mapKey, key]).Some?
    ensures var a := Entry(s, SectionSite(s, PROJECTS, p1), mapKey, key);
            var b := Entry(s, SectionSite(s, PROJECTS, p2), mapKey, key);
            && HasId(disk, sources, matching, idOf, a.Id(idOf), a) && HasId(disk, sources, matching, idOf, a.Id(idOf), b)
            && HasId(EditDisk(disk, a, Delete), sources, matching, idOf, a.Id(idOf), b)
  {
    var a := Entry(s, SectionSite(s, PROJECTS, p1), mapKey, key);
    var b := Entry(s, SectionSite(s, PROJECTS, p2), mapKey, key);
    assert a.Where() == [PROJECTS, p1, mapKey, key] && b.Where() == [PROJECTS, p2, mapKey, key];
    assert [PROJECTS, p1] + [mapKey, key] == a.Where() && [PROJECTS, p2] + [mapKey, key] == b.Where();
    LookupAppend(disk[s.file.path], [PROJECTS, p1], [mapKey, key]);
    LookupAppend(disk[s.file.path], [PROJECTS, p2], [mapKey, key]);
    assert a.Where()[1] != b.Where()[1];
    RemovalLeavesTheOthers(disk, sources, matching, a, b);
  }
}
