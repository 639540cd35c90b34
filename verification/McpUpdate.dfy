/**
 * Saving an edited MCP configuration while other programs may write the same files.
 *
 * `configs` are the configuration files, which anyone may rewrite at any time; `backups`
 * are files of unique names that only this code writes.  The log records every change.
 */
module McpUpdate {
  import opened JsonTree
  import opened McpSources
  import opened Wrappers

  type Configs = map<string, string>

  /** A change of the configuration files; for ours, `read` is what the source held when it was re-read. */
  datatype Change =
    | Theirs(before: Configs, after: Configs)
    | Ours(before: Configs, after: Configs, path: string, read: string)

  // ------------------------------------------------------------------- request

  datatype Request = Request(
    inherited: bool, revision: string, configuration: Option<Json>, enabled: Option<bool>,
    remove: Option<bool>, confirmed: Option<bool>)

  datatype Refusal =
    | NotFound | ProvidedByPlugin | InheritedEntry | RevisionChanged | RemovalNotConfirmed
    | InvalidConfiguration | NotOneAction | EditFailed | SourceRewritten | WriteFailed

  datatype Reply = Saved | Elsewhere | Refused(why: Refusal) | Panicked

  function ActionCount(r: Request): nat {
    (if r.configuration.Some? then 1 else 0) + (if r.enabled.Some? then 1 else 0)
    + (if r.remove == Some(true) then 1 else 0)
  }

  /** The first reason to refuse, in the order they are looked for. */
  function Gate(r: Request, scope: Scope, revision: string, valid: Json -> bool): Option<Refusal> {
    if scope.Plugin? then Some(ProvidedByPlugin)
    else if r.inherited && r.enabled.None? then Some(InheritedEntry)
    else if revision != r.revision then Some(RevisionChanged)
    else if r.remove == Some(true) && r.confirmed != Some(true) then Some(RemovalNotConfirmed)
    else if r.configuration.Some? && !valid(r.configuration.value) then Some(InvalidConfiguration)
    else if ActionCount(r) != 1 then Some(NotOneAction)
    else None
  }

  /** The action of a request that names exactly one. */
  function ActionOf(r: Request): Action {
    if r.remove == Some(true) then Delete
    else if r.enabled.Some? then Enable(r.enabled.value)
    else if r.configuration.Some? then Configure(r.configuration.value)
    else Delete
  }

  /** Whether enabling is kept in another file: inherited entries, Claude Code and Gemini. */
  predicate ToggledElsewhere(r: Request, harness: Harness) {
    r.enabled.Some? && (r.inherited || harness.ClaudeCode? || harness.Gemini?)
  }

  lemma AcceptedRequest(r: Request, scope: Scope, revision: string, valid: Json -> bool)
    requires Gate(r, scope, revision, valid).None?
    ensures ActionOf(r).Delete? <==> r.remove == Some(true)
    ensures ActionOf(r).Delete? ==> r.confirmed == Some(true) && !r.inherited
    ensures ActionOf(r).Configure? ==> valid(ActionOf(r).config) && !r.inherited
    ensures revision == r.revision && !scope.Plugin?
  {}

  /**
   * Both ways: a request is accepted iff its entry is not a plugin's, it fits the revision, an
   * inherited entry is only enabled or disabled, a removal is confirmed, a configuration is valid,
   * and it asks for exactly one thing; and then that thing, with its own value, is the action.
   */
  lemma AcceptedIff(r: Request, scope: Scope, revision: string, valid: Json -> bool)
    ensures Gate(r, scope, revision, valid).None? <==>
            && scope != Plugin && revision == r.revision && (r.inherited ==> r.enabled.Some?)
            && (r.remove == Some(true) ==> r.confirmed == Some(true))
            && (r.configuration.Some? ==> valid(r.configuration.value))
            && (|| (r.configuration.Some? && r.enabled.None? && r.remove != Some(true))
                || (r.configuration.None? && r.enabled.Some? && r.remove != Some(true))
                || (r.configuration.None? && r.enabled.None? && r.remove == Some(true)))
    ensures Gate(r, scope, revision, valid).None? ==>
              && (r.configuration.Some? ==> ActionOf(r) == Configure(r.configuration.value))
              && (r.enabled.Some? ==> ActionOf(r) == Enable(r.enabled.value))
              && (r.remove == Some(true) ==> ActionOf(r) == Delete)
  {}

  /** The reason given is the first that applies. */
  lemma RefusalIs(r: Request, scope: Scope, revision: string, valid: Json -> bool)
    ensures
      var why := Gate(r, scope, revision, valid);
      && (why == Some(ProvidedByPlugin) <==> scope == Plugin)
      && (why == Some(InheritedEntry) <==> scope != Plugin && r.inherited && r.enabled.None?)
      && (scope != Plugin && !(r.inherited && r.enabled.None?) ==>
            && (why == Some(RevisionChanged) <==> revision != r.revision)
            && (revision == r.revision ==>
                  && (why == Some(RemovalNotConfirmed) <==> r.remove == Some(true) && r.confirmed != Some(true))
                  && (why == Some(InvalidConfiguration) <==>
                        why != Some(RemovalNotConfirmed) && r.configuration.Some? && !valid(r.configuration.value))))
      && (why.None? || why.value in
            {ProvidedByPlugin, InheritedEntry, RevisionChanged, RemovalNotConfirmed, InvalidConfiguration, NotOneAction})
  {}

  /** Where a switch is kept: in the server's own entry only for Codex, Grok and OpenCode, and only if it is not inherited. */
  lemma ToggledElsewhereIff(r: Request, harness: Harness)
    ensures r.enabled.None? ==> !ToggledElsewhere(r, harness)
    ensures r.enabled.Some? ==>
              (!ToggledElsewhere(r, harness) <==>
               !r.inherited && (harness == Harness.Codex || harness == Grok || harness == OpenCode))
  {}

  // --------------------------------------------------------------------- files

  datatype Codec = Codec(parse: string -> Option<Json>, render: Json -> string, revision: string -> string)

  /** An entry the id led to, and what its file held then. */
  datatype Located = Located(entry: Entry, contents: string) {
    function Scope(): Scope { entry.site.scoped.scope }
  }

  /** What an edit of a text gives: the rendered document, or why there is none. */
  function EditText(codec: Codec, text: string, pointer: Pointer, action: Action): Outcome {
    match codec.parse(text)
    case None => SourceChanged
    case Some(document) => Edit(document, pointer, action)
  }

  ghost predicate BackedUp(backups: map<nat, string>, text: string) {
    exists name :: name in backups && backups[name] == text
  }

  ghost predicate Grown(before: map<nat, string>, after: map<nat, string>) {
    forall name :: name in before ==> name in after && after[name] == before[name]
  }

  ghost predicate NobodyElseWrote(log: seq<Change>, path: string) {
    forall i :: 0 <= i < |log| && log[i].Theirs? ==> SameAt(log[i], path)
  }

  ghost predicate SameAt(c: Change, path: string) {
    (path in c.before <==> path in c.after) && (path in c.before ==> c.before[path] == c.after[path])
  }

  /** The log leads from one state of the files to another, each change from where the last one left off. */
  ghost predicate Leads(before: Configs, log: seq<Change>, after: Configs) {
    if log == [] then before == after
    else log[|log| - 1].after == after && Leads(before, log[..|log| - 1], log[|log| - 1].before)
  }

  class McpFiles {
    ghost const initial: Configs
    var configs: Configs
    var backups: map<nat, string>
    ghost var log: seq<Change>

    /** The log is the whole history of the files; of all this code ever replaced, the text it re-read is in a backup. */
    ghost predicate Valid()
      reads this
    {
      && Leads(initial, log, configs)
      && forall i :: 0 <= i < |log| && log[i].Ours? ==> BackedUp(backups, log[i].read)
    }

    constructor (configs: Configs)
      ensures Valid() && this.configs == configs && initial == configs && log == []
    {
      this.configs, initial := configs, configs;
      backups := map[];
      log := [];
    }

    /** Other programs write what they like. */
    method Interfere()
      requires Valid()
      modifies this`configs, this`log
      ensures Valid() && log == old(log) + [Theirs(old(configs), configs)]
    {
      ghost var was := configs;
      configs := *;
      log := log + [Theirs(was, configs)];
    }

    method WriteBackup(name: nat, text: string, fails: bool) returns (ok: bool)
      requires Valid() && name !in backups
      modifies this`backups
      ensures Valid() && ok == !fails && Grown(old(backups), backups)
      ensures ok ==> BackedUp(backups, text)
    {
      if fails { return false; }
      backups := backups[name := text];
      assert backups[name] == text;
      GrownKeepsBackups(old(backups), backups);
      ok := true;
    }

    /** The source is replaced; what was read of it before is in a backup. */
    method Write(path: string, ghost read: string, after: string)
      requires Valid() && BackedUp(backups, read)
      modifies this`configs, this`log
      ensures Valid() && configs == old(configs)[path := after]
      ensures log == old(log) + [Ours(old(configs), configs, path, read)]
    {
      log := log + [Ours(configs, configs[path := after], path, read)];
      configs := configs[path := after];
    }

    /**
     * Re-reads the source, backs up what it read, then replaces the source.  A change made in
     * between by another program is lost; one made before the re-read is refused.
     */
    method ReplaceWithBackup(path: string, before: string, after: string, name: nat, backupFails: bool, writeFails: bool)
      returns (r: Reply)
      requires Valid() && name !in backups
      modifies this
      ensures Valid() && Grown(old(backups), backups) && old(log) <= log
      ensures r == Saved || r == Refused(SourceRewritten) || r == Refused(WriteFailed)
      ensures r == Refused(WriteFailed) ==> backupFails || writeFails
      ensures r == Saved ==> !backupFails && !writeFails
      ensures path in old(configs) && old(configs)[path] == before && NobodyElseWrote(log[|old(log)|..], path) ==>
                r != Refused(SourceRewritten)
      ensures OnlySaved(old(log), log, r == Saved, path, before, after)
      ensures r == Saved ==> path in configs && configs[path] == after
    {
      ghost var start := log;
      Interfere();
      ghost var early := log[|start|];
      assert early.before == old(configs) && early.after == configs;
      if path !in configs || configs[path] != before {
        assert log[|start|..] == [early];
        StaleReread(early, path, before);
        return Refused(SourceRewritten);
      }
      Interfere();
      ghost var during := log[|start| + 1];
      var saved := WriteBackup(name, before, backupFails);
      if !saved { return Refused(WriteFailed); }
      Interfere();
      ghost var late := log[|start| + 2];
      if writeFails { return Refused(WriteFailed); }
      Write(path, before, after);
      ghost var change := log[|start| + 3];
      assert log[|start|..] == [early, during, late, change];
      QuietReplacement(early, during, late, change, path);
      r := Saved;
    }

    /** One update of a located entry, from its checks to the replaced file. */
    method Update(codec: Codec, request: Request, located: Option<Located>, valid: Json -> bool, name: nat,
                  backupFails: bool, writeFails: bool) returns (r: Reply)
      requires Valid() && name !in backups
      modifies this
      ensures Valid() && Grown(old(backups), backups) && old(log) <= log
      ensures r != Saved ==> OnlySaved(old(log), log, false, "", "", "")
      ensures located.None? ==> r == Refused(NotFound)
      ensures located.Some? ==>
                var gate := Gate(request, located.value.Scope(), codec.revision(located.value.contents), valid);
                var edited := EditText(codec, located.value.contents, located.value.entry.Where(), ActionOf(request));
                if gate.Some? then r == Refused(gate.value)
                else if ToggledElsewhere(request, located.value.entry.source.harness) then r == Elsewhere
                else (r == Panicked <==> edited.Panics?) && (r == Refused(EditFailed) <==> !edited.Panics? && !edited.Edited?)
      ensures r == Saved ==>
                located.Some? && Gate(request, located.value.Scope(), codec.revision(located.value.contents), valid).None?
                && !ToggledElsewhere(request, located.value.entry.source.harness)
                && var edited := EditText(codec, located.value.contents, located.value.entry.Where(), ActionOf(request));
                   edited.Edited?
                   && OnlySaved(old(log), log, true, located.value.entry.Path(), located.value.contents,
                                codec.render(edited.document))
                   && located.value.entry.Path() in configs
                   && configs[located.value.entry.Path()] == codec.render(edited.document)
    {
      if located.None? { return Refused(NotFound); }
      var Located(entry, contents) := located.value;
      var refused := Gate(request, entry.site.scoped.scope, codec.revision(contents), valid);
      if refused.Some? { return Refused(refused.value); }
      if ToggledElsewhere(request, entry.source.harness) { return Elsewhere; }
      var edited := EditText(codec, contents, entry.Where(), ActionOf(request));
      if edited.Panics? { return Panicked; }
      if !edited.Edited? { return Refused(EditFailed); }
      r := ReplaceWithBackup(entry.Path(), contents, codec.render(edited.document), name, backupFails, writeFails);
    }
  }

  lemma GrownKeepsBackups(before: map<nat, string>, after: map<nat, string>)
    requires Grown(before, after)
    ensures forall text :: BackedUp(before, text) ==> BackedUp(after, text)
  {
    forall text | BackedUp(before, text) ensures BackedUp(after, text) {
      var name :| name in before && before[name] == text;
      assert after[name] == text;
    }
  }

  lemma StaleReread(early: Change, path: string, before: string)
    requires early.Theirs? && !(path in early.after && early.after[path] == before)
    ensures NobodyElseWrote([early], path) ==> !(path in early.before && early.before[path] == before)
  {
    if NobodyElseWrote([early], path) { assert SameAt([early][0], path); }
  }

  lemma QuietReplacement(early: Change, during: Change, late: Change, change: Change, path: string)
    requires early.Theirs? && during.Theirs? && late.Theirs? && change.Ours?
    requires early.after == during.before && during.after == late.before && late.after == change.before
    requires path in early.after
    ensures NobodyElseWrote([early, during, late, change], path) ==>
              path in change.before && change.before[path] == early.after[path]
  {
    var all := [early, during, late, change];
    assert all[1] == during && all[2] == late;
  }

  /**
   * What a replacement adds to the log: our change is there iff it was saved, it comes last,
   * it touches only the source, and what it replaced is what was backed up unless another
   * program wrote the source after the re-read.
   */
  ghost predicate OnlySaved(log: seq<Change>, log': seq<Change>, saved: bool, path: string, before: string, after: string)
    requires log <= log'
  {
    var added := log'[|log|..];
    && (forall i :: 0 <= i < |added| ==> (added[i].Ours? <==> saved && i == |added| - 1))
    && (saved ==>
          && added != []
          && var change := added[|added| - 1];
             && change.path == path && change.read == before
             && change.after == change.before[path := after]
             && (NobodyElseWrote(added, path) ==> path in change.before && change.before[path] == before))
  }

  /** The readable documents among the files. */
  function Parsed(codec: Codec, configs: Configs): Disk {
    map path | path in configs && codec.parse(configs[path]).Some? :: codec.parse(configs[path]).value
  }

  /** A saved file, read back, is the disk with that one entry edited. */
  lemma SavedFileIsEditedDisk(codec: Codec, configs: Configs, entry: Entry, action: Action)
    requires forall j :: codec.parse(codec.render(j)) == Some(j)
    requires entry.Path() in configs && EditText(codec, configs[entry.Path()], entry.Where(), action).Edited?
    ensures var edited := EditText(codec, configs[entry.Path()], entry.Where(), action).document;
            Parsed(codec, configs[entry.Path() := codec.render(edited)]) ==
            EditDisk(Parsed(codec, configs), entry, action)
  {
    var edited := EditText(codec, configs[entry.Path()], entry.Where(), action).document;
    assert codec.parse(codec.render(edited)) == Some(edited);
  }
}
