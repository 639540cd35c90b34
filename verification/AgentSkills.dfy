/**
 * Which of several discovered skills of one name a session gets.
 *
 * The list starts in discovery order.  For Gemini it is first folded by name; then it is
 * sorted by name, source priority and file location, and of each name, by now compared in
 * full lower case, only the first is kept.
 */
module AgentSkills {
  import opened Ordering
  import opened Wrappers

  datatype Source = Project | Global | App | OtherSource

  datatype Skill = Skill(name: string, source: Source, fileLocation: string, content: string)

  function Priority(source: Source): nat {
    match source
    case Project => 0
    case Global => 1
    case App => 2
    case OtherSource => 3
  }

  function AsciiLowerChar(c: char): char {
    if 'A' <= c <= 'Z' then c + 32 as char else c
  }

  function AsciiLower(s: string): string {
    if s == [] then [] else [AsciiLowerChar(s[0])] + AsciiLower(s[1..])
  }

  function Key(skill: Skill): string {
    AsciiLower(skill.name)
  }

  predicate SameLetter(c: char, d: char) {
    || c == d
    || ('A' <= c <= 'Z' && d as int == c as int + 32)
    || ('A' <= d <= 'Z' && c as int == d as int + 32)
  }

  predicate SameUpToAsciiCase(a: string, b: string) {
    |a| == |b| && forall i :: 0 <= i < |a| ==> SameLetter(a[i], b[i])
  }

  lemma {:induction false} KeysAgreeIff(a: string, b: string)
    ensures AsciiLower(a) == AsciiLower(b) <==> SameUpToAsciiCase(a, b)
  {
    if a != [] && b != [] {
      KeysAgreeIff(a[1..], b[1..]);
      assert AsciiLower(a)[0] == AsciiLowerChar(a[0]) && AsciiLower(b)[0] == AsciiLowerChar(b[0]);
      assert AsciiLower(a)[1..] == AsciiLower(a[1..]) && AsciiLower(b)[1..] == AsciiLower(b[1..]);
      assert SameUpToAsciiCase(a, b) ==> SameLetter(a[0], b[0]) && SameUpToAsciiCase(a[1..], b[1..]);
      if AsciiLower(a) == AsciiLower(b) {
        forall i | 0 <= i < |a| ensures SameLetter(a[i], b[i]) {
          if i > 0 { assert SameLetter(a[1..][i - 1], b[1..][i - 1]); }
        }
      }
    }
  }

  /** Full lower case: it agrees on names that agree up to ASCII case. */
  ghost predicate LowerCase(lower: string -> string) {
    forall s :: lower(AsciiLower(s)) == lower(s)
  }

  // ---------------------------------------------------------------- the order

  /** By name up to ASCII case, then by source priority, then by file location. */
  predicate Le(a: Skill, b: Skill) {
    if Key(a) != Key(b) then StringLe(Key(a), Key(b)) else BetterOrEqual(a, b)
  }

  predicate BetterOrEqual(a: Skill, b: Skill) {
    || Priority(a.source) < Priority(b.source)
    || (Priority(a.source) == Priority(b.source) && StringLe(a.fileLocation, b.fileLocation))
  }

  lemma LeTotal(a: Skill, b: Skill)
    ensures Le(a, b) || Le(b, a)
  {
    StringLeTotal(Key(a), Key(b));
    StringLeTotal(a.fileLocation, b.fileLocation);
  }

  lemma LeTransitive(a: Skill, b: Skill, c: Skill)
    requires Le(a, b) && Le(b, c)
    ensures Le(a, c)
  {
    StringLeTotal(Key(a), Key(b));
    StringLeTotal(Key(b), Key(c));
    if StringLe(Key(a), Key(b)) && StringLe(Key(b), Key(c)) { StringLeTransitive(Key(a), Key(b), Key(c)); }
    if Key(a) == Key(b) == Key(c) && StringLe(a.fileLocation, b.fileLocation) && StringLe(b.fileLocation, c.fileLocation) {
      StringLeTransitive(a.fileLocation, b.fileLocation, c.fileLocation);
    }
  }

  lemma LeIsTotalPreorder()
    ensures TotalPreorder(Le)
  {
    forall a, b ensures Le(a, b) || Le(b, a) { LeTotal(a, b); }
    forall a, b, c | Le(a, b) && Le(b, c) ensures Le(a, c) { LeTransitive(a, b, c); }
  }

  // ----------------------------------------------------------- the Gemini fold

  /** The best skill of a key: a later one of the same or a better priority replaces an earlier. */
  function Best(skills: seq<Skill>, key: string): Option<Skill> {
    if skills == [] then None
    else
      var before, last := Best(skills[..|skills| - 1], key), skills[|skills| - 1];
      if Key(last) == key && (before.None? || Priority(last.source) <= Priority(before.value.source)) then Some(last)
      else before
  }

  /** The keys in the order of their first skill. */
  function KeyOrder(skills: seq<Skill>): seq<string> {
    if skills == [] then []
    else
      var before, key := KeyOrder(skills[..|skills| - 1]), Key(skills[|skills| - 1]);
      if key in before then before else before + [key]
  }

  ghost predicate DistinctKeys(keys: seq<string>) {
    forall i, j :: 0 <= i < j < |keys| ==> keys[i] != keys[j]
  }

  /** The best skill has the best priority of its key, and among those is the last discovered. */
  lemma {:induction false} BestIsLastOfBestPriority(skills: seq<Skill>, key: string)
    ensures Best(skills, key).None? <==> forall i :: 0 <= i < |skills| ==> Key(skills[i]) != key
    ensures Best(skills, key).Some? ==>
              exists i :: 0 <= i < |skills| && skills[i] == Best(skills, key).value && Key(skills[i]) == key
                && forall j :: 0 <= j < |skills| && Key(skills[j]) == key ==>
                     Priority(skills[i].source) < Priority(skills[j].source)
                     || (Priority(skills[i].source) == Priority(skills[j].source) && j <= i)
    decreases |skills|
  {
    if skills != [] {
      var n := |skills| - 1;
      var init := skills[..n];
      BestIsLastOfBestPriority(init, key);
      var before := Best(init, key);
      if before.Some? {
        var i :| 0 <= i < n && init[i] == before.value && Key(init[i]) == key
                 && forall j :: 0 <= j < n && Key(init[j]) == key ==>
                      Priority(init[i].source) < Priority(init[j].source)
                      || (Priority(init[i].source) == Priority(init[j].source) && j <= i);
        var w := if Best(skills, key) == before && !(Key(skills[n]) == key
                    && Priority(skills[n].source) <= Priority(before.value.source)) then i else n;
        forall j | 0 <= j < |skills| && Key(skills[j]) == key
          ensures Priority(skills[w].source) < Priority(skills[j].source)
                  || (Priority(skills[w].source) == Priority(skills[j].source) && j <= w)
        {
          if j < n { assert Key(init[j]) == key; }
        }
      } else {
        forall j | 0 <= j < n ensures Key(skills[j]) != key { assert Key(init[j]) != key; }
      }
    }
  }

  lemma {:induction false} KeyOrderMembers(skills: seq<Skill>)
    ensures DistinctKeys(KeyOrder(skills))
    ensures forall key :: key in KeyOrder(skills) <==> Best(skills, key).Some?
    decreases |skills|
  {
    if skills != [] { KeyOrderMembers(skills[..|skills| - 1]); }
  }

  /** The order vector and the map, filled skill by skill; then the map is emptied in order. */
  method GeminiFold(skills: seq<Skill>) returns (r: seq<Skill>)
    ensures |r| == |KeyOrder(skills)|
    ensures forall i :: 0 <= i < |r| ==> Best(skills, KeyOrder(skills)[i]) == Some(r[i])
  {
    var order: seq<string> := [];
    var byName: map<string, Skill> := map[];
    for i := 0 to |skills|
      invariant order == KeyOrder(skills[..i])
      invariant forall key :: key in byName <==> Best(skills[..i], key).Some?
      invariant forall key :: key in byName ==> Best(skills[..i], key) == Some(byName[key])
    {
      assert skills[..i + 1][..i] == skills[..i];
      KeyOrderMembers(skills[..i]);
      var skill := skills[i];
      var key := Key(skill);
      var replace := key !in byName || Priority(skill.source) <= Priority(byName[key].source);
      if key !in byName { order := order + [key]; }
      if replace { byName := byName[key := skill]; }
    }
    assert skills[..|skills|] == skills;
    KeyOrderMembers(skills);
    r := [];
    for i := 0 to |order|
      invariant |r| == i && forall k :: 0 <= k < i ==> Best(skills, order[k]) == Some(r[k])
      invariant forall k :: i <= k < |order| ==> order[k] in byName && Best(skills, order[k]) == Some(byName[order[k]])
    {
      if order[i] in byName {
        r := r + [byName[order[i]]];
        byName := byName - {order[i]};
      }
    }
  }

  /** The fold as a value: one skill for each key. */
  function Folded(skills: seq<Skill>): seq<Skill> {
    KeyOrderMembers(skills);
    var keys := KeyOrder(skills);
    seq(|keys|, i requires 0 <= i < |keys| => Best(skills, keys[i]).value)
  }

  lemma FoldedMembers(skills: seq<Skill>, x: Skill)
    ensures x in Folded(skills) <==> Best(skills, Key(x)) == Some(x)
  {
    KeyOrderMembers(skills);
    var keys, folded := KeyOrder(skills), Folded(skills);
    if x in folded {
      var i :| 0 <= i < |folded| && folded[i] == x;
      assert keys[i] in keys;
      BestIsLastOfBestPriority(skills, keys[i]);
    }
    if Best(skills, Key(x)) == Some(x) {
      assert Key(x) in keys;
      var i :| 0 <= i < |keys| && keys[i] == Key(x);
      assert folded[i] == x;
    }
  }

  // ------------------------------------------------------------- one per name

  ghost predicate NameTaken(lower: string -> string, s: seq<Skill>, name: string) {
    exists j :: 0 <= j < |s| && lower(s[j].name) == name
  }

  /** The skills whose lower-cased name no skill before them has. */
  ghost function Retained(lower: string -> string, s: seq<Skill>): seq<Skill> {
    if s == [] then []
    else
      var init, last := s[..|s| - 1], s[|s| - 1];
      if NameTaken(lower, init, lower(last.name)) then Retained(lower, init) else Retained(lower, init) + [last]
  }

  method Retain(lower: string -> string, s: seq<Skill>) returns (r: seq<Skill>)
    ensures r == Retained(lower, s)
  {
    r := [];
    var seen: set<string> := {};
    for i := 0 to |s|
      invariant r == Retained(lower, s[..i])
      invariant forall name :: name in seen <==> NameTaken(lower, s[..i], name)
    {
      assert s[..i + 1][..i] == s[..i];
      var name := lower(s[i].name);
      if name !in seen { r := r + [s[i]]; }
      forall other ensures other in seen + {name} <==> NameTaken(lower, s[..i + 1], other) {
        assert s[..i + 1][i] == s[i];
        if NameTaken(lower, s[..i], other) {
          var j :| 0 <= j < |s[..i]| && lower(s[..i][j].name) == other;
          assert s[..i + 1][j] == s[..i][j];
        }
        if NameTaken(lower, s[..i + 1], other) {
          var j :| 0 <= j < |s[..i + 1]| && lower(s[..i + 1][j].name) == other;
          assert j < i ==> s[..i][j] == s[..i + 1][j];
        }
      }
      seen := seen + {name};
    }
    assert s[..|s|] == s;
  }

  ghost predicate DistinctNames(lower: string -> string, s: seq<Skill>) {
    forall i, j :: 0 <= i < j < |s| ==> lower(s[i].name) != lower(s[j].name)
  }

  lemma {:induction false} RetainedCoversNames(lower: string -> string, s: seq<Skill>, name: string)
    ensures NameTaken(lower, s, name) <==> NameTaken(lower, Retained(lower, s), name)
    decreases |s|
  {
    if s != [] {
      var n := |s| - 1;
      var init, last := s[..n], s[n];
      var before, all := Retained(lower, init), Retained(lower, s);
      RetainedCoversNames(lower, init, name);
      assert NameTaken(lower, s, name) <==> NameTaken(lower, init, name) || lower(last.name) == name by {
        if NameTaken(lower, init, name) {
          var k :| 0 <= k < n && lower(init[k].name) == name;
          assert s[k] == init[k];
        }
        if i :| 0 <= i < |s| && lower(s[i].name) == name && i < n { assert init[i] == s[i]; }
      }
      if all == before + [last] {
        assert all[|before|] == last;
        if NameTaken(lower, before, name) {
          var k :| 0 <= k < |before| && lower(before[k].name) == name;
          assert all[k] == before[k];
        }
        if i :| 0 <= i < |all| && lower(all[i].name) == name && i < |before| { assert before[i] == all[i]; }
      }
    }
  }

  /** Of an ordered list one skill of every name is retained, and it is the first in the order. */
  lemma {:induction false} RetainedIsLeast(lower: string -> string, s: seq<Skill>)
    requires Ordered(Le, s)
    ensures DistinctNames(lower, Retained(lower, s))
    ensures forall x :: x in Retained(lower, s) ==> x in s
    ensures forall i, x :: 0 <= i < |s| && x in Retained(lower, s) && lower(x.name) == lower(s[i].name) ==>
              x == s[i] || Le(x, s[i])
    decreases |s|
  {
    if s != [] {
      var n := |s| - 1;
      var init, last := s[..n], s[n];
      RetainedIsLeast(lower, init);
      var before, all := Retained(lower, init), Retained(lower, s);
      forall i, x | 0 <= i < |s| && x in all && lower(x.name) == lower(s[i].name)
        ensures x == s[i] || Le(x, s[i])
      {
        if x in before {
          assert x in init;
          if i < n { assert init[i] == s[i]; }
        } else if i < n {
          assert lower(init[i].name) == lower(last.name);
          assert NameTaken(lower, init, lower(last.name));
        }
      }
    }
  }

  // --------------------------------------------------------------- the listing

  function Candidates(skills: seq<Skill>, gemini: bool): seq<Skill> {
    if gemini then Folded(skills) else skills
  }

  ghost function Listed(lower: string -> string, skills: seq<Skill>, gemini: bool): seq<Skill> {
    Retained(lower, Sort(Le, Candidates(skills, gemini)))
  }

  method ListSkills(lower: string -> string, skills: seq<Skill>, gemini: bool) returns (r: seq<Skill>)
    ensures r == Listed(lower, skills, gemini)
  {
    var candidates := skills;
    if gemini {
      candidates := GeminiFold(skills);
      assert candidates == Folded(skills);
    }
    r := Retain(lower, Sort(Le, candidates));
  }

  /** Every discovered name up to ASCII case keeps a candidate, and every candidate was discovered. */
  lemma CandidatesCoverKeys(skills: seq<Skill>, gemini: bool, x: Skill)
    ensures x in Candidates(skills, gemini) ==> x in skills
    ensures x in skills ==> exists y :: y in Candidates(skills, gemini) && Key(y) == Key(x)
  {
    if gemini {
      FoldedMembers(skills, x);
      BestIsLastOfBestPriority(skills, Key(x));
      if x in skills {
        var y := Best(skills, Key(x)).value;
        FoldedMembers(skills, y);
      }
    } else if x in skills {
      assert x in Candidates(skills, gemini);
    }
  }

  lemma ListedIsLeast(lower: string -> string, skills: seq<Skill>, gemini: bool, x: Skill, y: Skill)
    requires x in Listed(lower, skills, gemini)
    ensures x in Candidates(skills, gemini)
    ensures y in Candidates(skills, gemini) && lower(x.name) == lower(y.name) ==> x == y || Le(x, y)
  {
    var candidates := Candidates(skills, gemini);
    var sorted := Sort(Le, candidates);
    LeIsTotalPreorder();
    SortOrders(Le, candidates);
    RetainedIsLeast(lower, sorted);
    SortKeepsMembers(Le, candidates, x);
    if y in candidates {
      SortKeepsMembers(Le, candidates, y);
      var i :| 0 <= i < |sorted| && sorted[i] == y;
    }
  }

  lemma KeyDecidesName(lower: string -> string, x: Skill, y: Skill)
    requires LowerCase(lower) && Key(x) == Key(y)
    ensures lower(x.name) == lower(y.name)
  {
    assert lower(AsciiLower(x.name)) == lower(x.name);
    assert lower(AsciiLower(y.name)) == lower(y.name);
  }

  /** The listing holds exactly one skill, a discovered one, of every discovered lower-cased name. */
  lemma OneSkillPerName(lower: string -> string, skills: seq<Skill>, gemini: bool)
    requires LowerCase(lower)
    ensures DistinctNames(lower, Listed(lower, skills, gemini))
    ensures forall x :: x in Listed(lower, skills, gemini) ==> x in skills
    ensures forall i :: 0 <= i < |skills| ==> NameTaken(lower, Listed(lower, skills, gemini), lower(skills[i].name))
  {
    var sorted := Sort(Le, Candidates(skills, gemini));
    LeIsTotalPreorder();
    SortOrders(Le, Candidates(skills, gemini));
    RetainedIsLeast(lower, sorted);
    forall x | x in Listed(lower, skills, gemini) ensures x in skills {
      ListedIsLeast(lower, skills, gemini, x, x);
      CandidatesCoverKeys(skills, gemini, x);
    }
    forall i | 0 <= i < |skills| ensures NameTaken(lower, Listed(lower, skills, gemini), lower(skills[i].name)) {
      CandidatesCoverKeys(skills, gemini, skills[i]);
      var y :| y in Candidates(skills, gemini) && Key(y) == Key(skills[i]);
      KeyDecidesName(lower, y, skills[i]);
      SortKeepsMembers(Le, Candidates(skills, gemini), y);
      var k :| 0 <= k < |sorted| && sorted[k] == y;
      assert NameTaken(lower, sorted, lower(skills[i].name));
      RetainedCoversNames(lower, sorted, lower(skills[i].name));
    }
  }

  /** What a listed skill beats: for Gemini it is the fold's choice, otherwise the best by source and place. */
  lemma ListedIsBestOfItsKey(lower: string -> string, skills: seq<Skill>, gemini: bool, winner: Skill)
    requires LowerCase(lower) && winner in Listed(lower, skills, gemini)
    ensures gemini ==> Best(skills, Key(winner)) == Some(winner)
    ensures !gemini ==> forall y :: y in skills && Key(y) == Key(winner) ==> y == winner || BetterOrEqual(winner, y)
  {
    ListedIsLeast(lower, skills, gemini, winner, winner);
    if gemini {
      FoldedMembers(skills, winner);
    } else {
      forall y | y in skills && Key(y) == Key(winner) ensures y == winner || BetterOrEqual(winner, y) {
        KeyDecidesName(lower, y, winner);
        ListedIsLeast(lower, skills, gemini, winner, y);
      }
    }
  }

  /** A project's skill comes before the user's, and that before the app's; anything else comes last. */
  predicate AtLeastAsClose(a: Source, b: Source) {
    match a
    case Project => true
    case Global => b != Project
    case App => b == App || b == OtherSource
    case OtherSource => b == OtherSource
  }

  /**
   * Of the discovered skills whose names agree up to ASCII case, a listed one has the closest
   * source: project, user, app, then any other.  Among those of its source it is the last
   * discovered for Gemini, and otherwise the first by file location.
   */
  lemma ListedHasClosestSource(lower: string -> string, skills: seq<Skill>, gemini: bool, winner: Skill, j: nat)
    requires LowerCase(lower) && winner in Listed(lower, skills, gemini)
    requires j < |skills| && SameUpToAsciiCase(skills[j].name, winner.name)
    ensures AtLeastAsClose(winner.source, skills[j].source)
    ensures !gemini && skills[j].source == winner.source ==> StringLe(winner.fileLocation, skills[j].fileLocation)
    ensures gemini && skills[j].source == winner.source ==> exists i :: j <= i < |skills| && skills[i] == winner
  {
    KeysAgreeIff(skills[j].name, winner.name);
    ListedIsBestOfItsKey(lower, skills, gemini, winner);
    if gemini {
      BestIsLastOfBestPriority(skills, Key(winner));
    } else {
      assert skills[j] in skills;
      StringLeReflexive(winner.fileLocation);
    }
  }

  ghost predicate KeyListed(lower: string -> string, skills: seq<Skill>, gemini: bool, key: string) {
    exists w :: w in Listed(lower, skills, gemini) && Key(w) == key
  }

  ghost predicate LeastKey(lower: string -> string, skills: seq<Skill>, x: Skill) {
    forall y :: y in skills && lower(y.name) == lower(x.name) ==> StringLe(Key(x), Key(y))
  }

  lemma ListedHasLeastKey(lower: string -> string, skills: seq<Skill>, gemini: bool, winner: Skill)
    requires LowerCase(lower) && winner in Listed(lower, skills, gemini)
    ensures LeastKey(lower, skills, winner)
  {
    forall y | y in skills && lower(y.name) == lower(winner.name) ensures StringLe(Key(winner), Key(y)) {
      CandidatesCoverKeys(skills, gemini, y);
      var c :| c in Candidates(skills, gemini) && Key(c) == Key(y);
      KeyDecidesName(lower, c, y);
      ListedIsLeast(lower, skills, gemini, winner, c);
      StringLeReflexive(Key(winner));
    }
  }

  lemma ListedOfName(lower: string -> string, skills: seq<Skill>, gemini: bool, x: Skill) returns (winner: Skill)
    requires LowerCase(lower) && x in skills
    ensures winner in Listed(lower, skills, gemini) && lower(winner.name) == lower(x.name)
    ensures forall w :: w in Listed(lower, skills, gemini) && lower(w.name) == lower(x.name) ==> w == winner
  {
    OneSkillPerName(lower, skills, gemini);
    var listed := Listed(lower, skills, gemini);
    var i :| 0 <= i < |skills| && skills[i] == x;
    assert NameTaken(lower, listed, lower(skills[i].name));
    var k :| 0 <= k < |listed| && lower(listed[k].name) == lower(x.name);
    winner := listed[k];
  }

  /** A name, up to ASCII case, is listed iff it is the least of those with its full lower case. */
  lemma KeyIsListedIffLeast(lower: string -> string, skills: seq<Skill>, gemini: bool, x: Skill)
    requires LowerCase(lower) && x in skills
    ensures KeyListed(lower, skills, gemini, Key(x)) <==> LeastKey(lower, skills, x)
  {
    if KeyListed(lower, skills, gemini, Key(x)) {
      var w :| w in Listed(lower, skills, gemini) && Key(w) == Key(x);
      KeyDecidesName(lower, w, x);
      ListedHasLeastKey(lower, skills, gemini, w);
    }
    if LeastKey(lower, skills, x) {
      var winner := ListedOfName(lower, skills, gemini, x);
      ListedHasLeastKey(lower, skills, gemini, winner);
      OneSkillPerName(lower, skills, gemini);
      assert winner in skills;
      StringLeTotal(Key(x), Key(winner));
    }
  }

  /** Beyond ASCII the priority can be lost: an app skill named with a capital E-acute hides the project's. */
  lemma AppSkillHidesProjectSkill(lower: string -> string, place: string, gemini: bool)
    requires LowerCase(lower) && lower(['\U{00C9}']) == lower(['\U{00E9}'])
    ensures var app, project := Skill(['\U{00C9}'], App, place, []), Skill(['\U{00E9}'], Project, place, []);
            app in Listed(lower, [app, project], gemini) && project !in Listed(lower, [app, project], gemini)
  {
    var app, project := Skill(['\U{00C9}'], App, place, []), Skill(['\U{00E9}'], Project, place, []);
    var skills := [app, project];
    assert skills[0] == app && skills[1] == project;
    assert app in skills && project in skills;
    assert Key(app) == app.name && Key(project) == project.name;
    assert !StringLe(Key(project), Key(app));
    var winner := ListedOfName(lower, skills, gemini, app);
    OneSkillPerName(lower, skills, gemini);
    ListedHasLeastKey(lower, skills, gemini, winner);
    assert winner == app;
  }
}
