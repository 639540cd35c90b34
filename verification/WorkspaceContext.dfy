/**
 * Collecting the instruction files of several, possibly overlapping workspaces.
 *
 * A directory is the sequence of its components from the root, so its ancestors are its
 * prefixes.  The file tree does not change while files are collected.
 */
module WorkspaceContext {
  import opened Wrappers

  type Dir = seq<string>

  /** `git` are the directories that contain `.git`, `instructions` those with a readable AGENTS.md. */
  datatype Tree = Tree(git: set<Dir>, instructions: map<Dir, string>)

  datatype InstructionFile = InstructionFile(dir: Dir, workspaces: seq<Dir>, content: string)

  // ------------------------------------------------------------- search chains

  function NearestGitRoot(tree: Tree, dir: Dir): Option<Dir> {
    if dir in tree.git then Some(dir)
    else if dir == [] then None
    else NearestGitRoot(tree, dir[..|dir| - 1])
  }

  method FindGitRoot(tree: Tree, start: Dir) returns (root: Option<Dir>)
    ensures root == NearestGitRoot(tree, start)
  {
    var check := start;
    while true
      invariant NearestGitRoot(tree, check) == NearestGitRoot(tree, start)
      decreases |check|
    {
      if check in tree.git { return Some(check); }
      if check == [] { return None; }
      check := check[..|check| - 1];
    }
  }

  /** The nearest root is the longest ancestor, the directory itself included, that contains `.git`. */
  lemma {:induction false} NearestRootIsLongest(tree: Tree, dir: Dir)
    ensures var root := NearestGitRoot(tree, dir);
            && (root.Some? ==> root.value in tree.git && root.value <= dir)
            && (forall d :: d in tree.git && d <= dir ==> root.Some? && d <= root.value)
    decreases |dir|
  {
    if dir !in tree.git && dir != [] {
      var parent := dir[..|dir| - 1];
      NearestRootIsLongest(tree, parent);
      forall d | d in tree.git && d <= dir ensures d <= parent {
        assert d == dir ==> d in tree.git;
        assert d == dir[..|d|] == parent[..|d|];
      }
    }
  }

  /** Where a workspace's search begins: its git root, or the workspace itself. */
  function SearchRoot(tree: Tree, workspace: Dir): (root: Dir)
    ensures root <= workspace
  {
    NearestRootIsLongest(tree, workspace);
    match NearestGitRoot(tree, workspace)
    case Some(root) => root
    case None => workspace
  }

  /** The directories from the search root down to the workspace. */
  function Chain(tree: Tree, workspace: Dir): seq<Dir> {
    var root := SearchRoot(tree, workspace);
    seq(|workspace| - |root| + 1, i requires 0 <= i <= |workspace| - |root| => workspace[..|root| + i])
  }

  predicate InChain(tree: Tree, workspace: Dir, dir: Dir) {
    SearchRoot(tree, workspace) <= dir <= workspace
  }

  lemma ChainMembers(tree: Tree, workspace: Dir, dir: Dir)
    ensures dir in Chain(tree, workspace) <==> InChain(tree, workspace, dir)
  {
    var root, chain := SearchRoot(tree, workspace), Chain(tree, workspace);
    if InChain(tree, workspace, dir) { assert chain[|dir| - |root|] == dir; }
    if dir in chain {
      var i :| 0 <= i < |chain| && chain[i] == dir;
      assert root == workspace[..|root|] && dir == workspace[..|root| + i];
    }
  }

  /** Walks the ancestors while they are below the root, then turns the list round. */
  method SearchDirs(tree: Tree, workspace: Dir) returns (dirs: seq<Dir>)
    ensures dirs == Chain(tree, workspace)
  {
    var found := FindGitRoot(tree, workspace);
    var root := if found.Some? then found.value else workspace;
    assert root == SearchRoot(tree, workspace);
    dirs := [];
    var n := |workspace|;
    while root <= workspace[..n]
      invariant |root| - 1 <= n <= |workspace| && 0 <= n
      invariant |dirs| == |workspace| - n
      invariant forall i :: 0 <= i < |dirs| ==> dirs[i] == workspace[..n + 1 + i]
      decreases n
    {
      dirs := [workspace[..n]] + dirs;
      if n == 0 {
        assert |root| == 0;
        return;
      }
      n := n - 1;
    }
    assert n == |root| - 1 by { assert root == workspace[..|root|]; }
  }

  /**
   * Two chains that share a directory agree above it: if one of them also contains an
   * ancestor of it, so does the other, because both have the same nearest git root.
   */
  lemma ChainsAgreeAbove(tree: Tree, v: Dir, w: Dir, above: Dir, shared: Dir)
    requires InChain(tree, w, above) && InChain(tree, w, shared) && InChain(tree, v, shared)
    requires above <= shared && above != shared
    ensures InChain(tree, v, above) && SearchRoot(tree, v) == SearchRoot(tree, w)
  {
    NearestRootIsLongest(tree, v);
    NearestRootIsLongest(tree, w);
    var rw := SearchRoot(tree, w);
    assert rw in tree.git && rw <= v;
    var rv := SearchRoot(tree, v);
    assert rv in tree.git && rv <= w;
  }

  // ------------------------------------------------------------ what is collected

  predicate Lists(tree: Tree, workspace: Dir, dir: Dir) {
    InChain(tree, workspace, dir) && dir in tree.instructions
  }

  function AddNew(order: seq<Dir>, dir: Dir): seq<Dir> {
    if dir in order then order else order + [dir]
  }

  /** The order after the directories of a chain: those with instructions join it, once. */
  function AddChain(tree: Tree, order: seq<Dir>, chain: seq<Dir>): seq<Dir> {
    if chain == [] then order
    else
      var n := |chain| - 1;
      var before := AddChain(tree, order, chain[..n]);
      if chain[n] in tree.instructions then AddNew(before, chain[n]) else before
  }

  function Order(tree: Tree, workspaces: seq<Dir>): seq<Dir> {
    if workspaces == [] then []
    else
      var n := |workspaces| - 1;
      AddChain(tree, Order(tree, workspaces[..n]), Chain(tree, workspaces[n]))
  }

  /** The workspaces, in their order, that list `dir`. */
  function Owners(tree: Tree, workspaces: seq<Dir>, dir: Dir): seq<Dir> {
    if workspaces == [] then []
    else
      var n := |workspaces| - 1;
      var before := Owners(tree, workspaces[..n], dir);
      if Lists(tree, workspaces[n], dir) then before + [workspaces[n]] else before
  }

  /** The distinct accepted workspaces, in input order; `resolve` trims, expands, canonicalizes and checks. */
  function Accepted(resolve: string -> Option<Dir>, raw: seq<string>): seq<Dir> {
    if raw == [] then []
    else
      var n := |raw| - 1;
      var before := Accepted(resolve, raw[..n]);
      match resolve(raw[n])
      case Some(dir) => AddNew(before, dir)
      case None => before
  }

  ghost predicate Distinct(s: seq<Dir>) {
    forall i, j :: 0 <= i < j < |s| ==> s[i] != s[j]
  }

  lemma {:induction false} AcceptedAreDistinct(resolve: string -> Option<Dir>, raw: seq<string>)
    ensures Distinct(Accepted(resolve, raw))
    ensures forall d :: d in Accepted(resolve, raw) <==> exists i :: 0 <= i < |raw| && resolve(raw[i]) == Some(d)
    decreases |raw|
  {
    if raw != [] {
      var n := |raw| - 1;
      var before := Accepted(resolve, raw[..n]);
      AcceptedAreDistinct(resolve, raw[..n]);
      forall d | d in Accepted(resolve, raw) ensures exists i :: 0 <= i < |raw| && resolve(raw[i]) == Some(d) {
        if d in before {
          var i :| 0 <= i < n && resolve(raw[..n][i]) == Some(d);
          assert resolve(raw[i]) == Some(d);
        } else {
          assert resolve(raw[n]) == Some(d);
        }
      }
      forall i | 0 <= i < |raw| && resolve(raw[i]).Some? ensures resolve(raw[i]).value in Accepted(resolve, raw) {
        if i < n { assert resolve(raw[..n][i]) == resolve(raw[i]); }
      }
    }
  }

  lemma {:induction false} AddChainMembers(tree: Tree, order: seq<Dir>, chain: seq<Dir>)
    requires Distinct(order)
    ensures Distinct(AddChain(tree, order, chain)) && order <= AddChain(tree, order, chain)
    ensures forall d :: d in AddChain(tree, order, chain) <==> d in order || (d in chain && d in tree.instructions)
    decreases |chain|
  {
    if chain != [] {
      var n := |chain| - 1;
      AddChainMembers(tree, order, chain[..n]);
      assert chain == chain[..n] + [chain[n]];
    }
  }

  /** Every listed directory is in the order exactly once, and nothing else is. */
  lemma {:induction false} OrderMembers(tree: Tree, workspaces: seq<Dir>)
    ensures Distinct(Order(tree, workspaces))
    ensures forall d :: d in Order(tree, workspaces) <==> exists w :: w in workspaces && Lists(tree, w, d)
    decreases |workspaces|
  {
    if workspaces != [] {
      var n := |workspaces| - 1;
      OrderMembers(tree, workspaces[..n]);
      AddChainMembers(tree, Order(tree, workspaces[..n]), Chain(tree, workspaces[n]));
      assert workspaces == workspaces[..n] + [workspaces[n]];
      forall d ensures d in Chain(tree, workspaces[n]) <==> InChain(tree, workspaces[n], d) {
        ChainMembers(tree, workspaces[n], d);
      }
      forall d | exists w :: w in workspaces && Lists(tree, w, d) ensures d in Order(tree, workspaces) {
        var w :| w in workspaces && Lists(tree, w, d);
        if w in workspaces[..n] {
          assert d in Order(tree, workspaces[..n]);
        } else {
          assert w == workspaces[n];
        }
      }
      forall d | d in Order(tree, workspaces) ensures exists w :: w in workspaces && Lists(tree, w, d) {
        if d in Order(tree, workspaces[..n]) {
          var w :| w in workspaces[..n] && Lists(tree, w, d);
          assert w in workspaces;
        } else {
          assert Lists(tree, workspaces[n], d);
        }
      }
    }
  }

  /** `a` is `b` with some elements left out. */
  predicate Subsequence(a: seq<Dir>, b: seq<Dir>)
    decreases |b|
  {
    a == [] || (b != [] && if a[|a| - 1] == b[|b| - 1] then Subsequence(a[..|a| - 1], b[..|b| - 1])
                           else Subsequence(a, b[..|b| - 1]))
  }

  /** Owners are exactly the workspaces that list the directory, in their order. */
  lemma {:induction false} OwnersMembers(tree: Tree, workspaces: seq<Dir>, dir: Dir)
    requires Distinct(workspaces)
    ensures Distinct(Owners(tree, workspaces, dir)) && Subsequence(Owners(tree, workspaces, dir), workspaces)
    ensures forall w :: w in Owners(tree, workspaces, dir) <==> w in workspaces && Lists(tree, w, dir)
    decreases |workspaces|
  {
    if workspaces != [] {
      var n := |workspaces| - 1;
      OwnersMembers(tree, workspaces[..n], dir);
      assert workspaces == workspaces[..n] + [workspaces[n]];
    }
  }

  // ---------------------------------------------------------- ancestors come first

  /** `a` stands before every occurrence of `b`. */
  ghost predicate Before(order: seq<Dir>, a: Dir, b: Dir) {
    forall j :: 0 <= j < |order| && order[j] == b ==> a in order[..j]
  }

  /** For every workspace whatsoever, of two files it lists the ancestor comes first. */
  ghost predicate AncestorsFirst(tree: Tree, order: seq<Dir>) {
    forall w, a, b :: Lists(tree, w, a) && Lists(tree, w, b) && a <= b && a != b ==> Before(order, a, b)
  }

  lemma {:induction false} AddChainKeepsAncestorsFirst(tree: Tree, order: seq<Dir>, v: Dir, n: nat)
    requires AncestorsFirst(tree, order) && Distinct(order) && n <= |Chain(tree, v)|
    ensures AncestorsFirst(tree, AddChain(tree, order, Chain(tree, v)[..n]))
    decreases n
  {
    var chain := Chain(tree, v);
    if n == 0 {
      assert chain[..0] == [];
    } else {
      var k := n - 1;
      assert chain[..n][..k] == chain[..k] && chain[..n][k] == chain[k];
      AddChainKeepsAncestorsFirst(tree, order, v, k);
      var before := AddChain(tree, order, chain[..k]);
      var after := AddChain(tree, order, chain[..n]);
      if chain[k] in tree.instructions && chain[k] !in before {
        forall w, a, b | Lists(tree, w, a) && Lists(tree, w, b) && a <= b && a != b ensures Before(after, a, b) {
          assert Before(before, a, b);
          if b == chain[k] { AncestorAlreadyThere(tree, order, v, w, a, k); }
          forall j | 0 <= j < |after| && after[j] == b ensures a in after[..j] {
            if j < |before| { assert after[..j] == before[..j]; } else { assert after[..j] == before; }
          }
        }
      }
    }
  }

  /** An ancestor some workspace lists together with the k-th directory of a chain is in the chain before it. */
  lemma AncestorAlreadyThere(tree: Tree, order: seq<Dir>, v: Dir, w: Dir, a: Dir, k: nat)
    requires k < |Chain(tree, v)| && Distinct(order)
    requires var b := Chain(tree, v)[k]; Lists(tree, w, a) && Lists(tree, w, b) && a <= b && a != b
    ensures a in AddChain(tree, order, Chain(tree, v)[..k])
  {
    var chain, root := Chain(tree, v), SearchRoot(tree, v);
    var b := chain[k];
    ChainMembers(tree, v, b);
    ChainsAgreeAbove(tree, v, w, a, b);
    var i := |a| - |root|;
    assert chain[i] == a;
    assert i < k;
    assert chain[..k][i] == a;
    AddChainMembers(tree, order, chain[..k]);
  }

  lemma {:induction false} OrderIsAncestorFirst(tree: Tree, workspaces: seq<Dir>)
    ensures AncestorsFirst(tree, Order(tree, workspaces))
    decreases |workspaces|
  {
    if workspaces != [] {
      var n := |workspaces| - 1;
      OrderIsAncestorFirst(tree, workspaces[..n]);
      OrderMembers(tree, workspaces[..n]);
      var chain := Chain(tree, workspaces[n]);
      AddChainKeepsAncestorsFirst(tree, Order(tree, workspaces[..n]), workspaces[n], |chain|);
      assert chain[..|chain|] == chain;
    }
  }

  // ------------------------------------------------------------------ the loops

  /** What the map of files holds for the directories in `order`. */
  ghost predicate FilesFor(tree: Tree, done: seq<Dir>, order: seq<Dir>, files: map<Dir, InstructionFile>) {
    && (forall d :: d in files <==> d in order)
    && (forall d :: d in files ==> d in tree.instructions
                                   && files[d] == InstructionFile(d, Owners(tree, done, d), tree.instructions[d]))
  }

  /** Midway through the chain of `w`: the directories seen so far have `w` as an owner already. */
  ghost predicate FilesMidway(tree: Tree, done: seq<Dir>, w: Dir, seen: seq<Dir>, order: seq<Dir>,
                              files: map<Dir, InstructionFile>) {
    && (forall d :: d in files <==> d in order)
    && (forall d :: d in files ==>
          && d in tree.instructions
          && files[d] == InstructionFile(d, Owners(tree, done, d) + (if d in seen then [w] else []), tree.instructions[d]))
  }

  /** A directory that no workspace listed has no owner. */
  lemma {:induction false} UnlistedHasNoOwner(tree: Tree, workspaces: seq<Dir>, dir: Dir)
    requires forall w :: w in workspaces ==> !Lists(tree, w, dir)
    ensures Owners(tree, workspaces, dir) == []
    decreases |workspaces|
  {
    if workspaces != [] {
      UnlistedHasNoOwner(tree, workspaces[..|workspaces| - 1], dir);
    }
  }

  lemma MidwayEnds(tree: Tree, done: seq<Dir>, w: Dir, order: seq<Dir>, files: map<Dir, InstructionFile>)
    requires FilesMidway(tree, done, w, Chain(tree, w), order, files)
    ensures FilesFor(tree, done + [w], order, files)
  {
    forall d | d in files
      ensures d in tree.instructions
              && files[d] == InstructionFile(d, Owners(tree, done + [w], d), tree.instructions[d])
    {
      ChainMembers(tree, w, d);
      assert (done + [w])[..|done|] == done;
    }
  }

  /** One directory of the chain: its file is new, or gets one more workspace. */
  method CollectDir(tree: Tree, ghost done: seq<Dir>, w: Dir, ghost before: seq<Dir>, dir: Dir, order: seq<Dir>,
                    files: map<Dir, InstructionFile>)
    returns (order': seq<Dir>, files': map<Dir, InstructionFile>)
    requires FilesMidway(tree, done, w, before, order, files) && dir !in before
    requires dir !in order ==> forall v :: v in done ==> !Lists(tree, v, dir)
    ensures order' == if dir in tree.instructions then AddNew(order, dir) else order
    ensures FilesMidway(tree, done, w, before + [dir], order', files')
  {
    order', files' := order, files;
    if dir in tree.instructions {
      if dir in files {
        var file := files[dir];
        files' := files[dir := file.(workspaces := file.workspaces + [w])];
      } else {
        UnlistedHasNoOwner(tree, done, dir);
        order' := order + [dir];
        files' := files[dir := InstructionFile(dir, [w], tree.instructions[dir])];
      }
    }
  }

  /** The inner loop: every directory of one workspace's chain. */
  method CollectWorkspace(tree: Tree, ghost done: seq<Dir>, w: Dir, order: seq<Dir>, files: map<Dir, InstructionFile>)
    returns (order': seq<Dir>, files': map<Dir, InstructionFile>)
    requires order == Order(tree, done) && FilesFor(tree, done, order, files)
    ensures order' == Order(tree, done + [w]) && FilesFor(tree, done + [w], order', files')
  {
    var chain := SearchDirs(tree, w);
    order', files' := order, files;
    OrderMembers(tree, done);
    ChainIsDistinct(tree, w);
    for i := 0 to |chain|
      invariant order' == AddChain(tree, order, chain[..i])
      invariant FilesMidway(tree, done, w, chain[..i], order', files')
    {
      assert chain[..i + 1] == chain[..i] + [chain[i]];
      assert chain[..i + 1][..i] == chain[..i];
      AddChainMembers(tree, order, chain[..i]);
      assert chain[i] !in chain[..i];
      order', files' := CollectDir(tree, done, w, chain[..i], chain[i], order', files');
    }
    assert chain[..|chain|] == chain;
    assert (done + [w])[..|done|] == done;
    MidwayEnds(tree, done, w, order', files');
  }

  lemma ChainIsDistinct(tree: Tree, workspace: Dir)
    ensures Distinct(Chain(tree, workspace))
  {
    var chain := Chain(tree, workspace);
    assert forall i :: 0 <= i < |chain| ==> |chain[i]| == |SearchRoot(tree, workspace)| + i;
  }

  /** Takes the files out of the map one by one, in order. */
  method TakeInOrder(order: seq<Dir>, files: map<Dir, InstructionFile>) returns (r: seq<InstructionFile>)
    requires Distinct(order) && forall d :: d in files <==> d in order
    ensures |r| == |order| && forall i :: 0 <= i < |r| ==> order[i] in files && r[i] == files[order[i]]
  {
    r := [];
    var left := files;
    for i := 0 to |order|
      invariant |r| == i
      invariant forall k :: i <= k < |order| ==> order[k] in left && left[order[k]] == files[order[k]]
      invariant forall k :: 0 <= k < i ==> r[k] == files[order[k]]
    {
      if order[i] in left {
        r := r + [left[order[i]]];
        left := left - {order[i]};
      }
    }
  }

  /**
   * collect_workspace_instruction_files.  Each instruction file some accepted workspace
   * lists appears exactly once, with exactly the distinct accepted workspaces that list
   * it, in input order; and of two files a workspace lists the ancestor comes first.
   */
  method Collect(tree: Tree, resolve: string -> Option<Dir>, raw: seq<string>) returns (r: seq<InstructionFile>)
    ensures
      var accepted := Accepted(resolve, raw);
      && |r| == |Order(tree, accepted)|
      && forall i :: 0 <= i < |r| ==>
           && r[i].dir == Order(tree, accepted)[i] && r[i].dir in tree.instructions
           && r[i].workspaces == Owners(tree, accepted, r[i].dir)
           && r[i].content == tree.instructions[r[i].dir]
  {
    var seen: set<Dir> := {};
    var files: map<Dir, InstructionFile> := map[];
    var order: seq<Dir> := [];
    ghost var done: seq<Dir> := [];
    for i := 0 to |raw|
      invariant done == Accepted(resolve, raw[..i]) && seen == set d | d in done
      invariant order == Order(tree, done) && FilesFor(tree, done, order, files)
    {
      assert raw[..i + 1][..i] == raw[..i];
      var workspace := resolve(raw[i]);
      if workspace.Some? && workspace.value !in seen {
        seen := seen + {workspace.value};
        order, files := CollectWorkspace(tree, done, workspace.value, order, files);
        done := done + [workspace.value];
      }
    }
    assert raw[..|raw|] == raw;
    OrderMembers(tree, done);
    r := TakeInOrder(order, files);
  }

  /** The same, without the specification's own functions. */
  lemma CollectedFiles(tree: Tree, accepted: seq<Dir>, r: seq<InstructionFile>)
    requires Distinct(accepted) && |r| == |Order(tree, accepted)|
    requires forall i :: 0 <= i < |r| ==>
               r[i].dir == Order(tree, accepted)[i] && r[i].workspaces == Owners(tree, accepted, r[i].dir)
    ensures forall i, j :: 0 <= i < j < |r| ==> r[i].dir != r[j].dir
    ensures forall w, d :: w in accepted && Lists(tree, w, d) ==> exists i :: 0 <= i < |r| && r[i].dir == d
    ensures forall i, w :: 0 <= i < |r| ==> (w in r[i].workspaces <==> w in accepted && Lists(tree, w, r[i].dir))
    ensures forall i :: 0 <= i < |r| ==> Distinct(r[i].workspaces) && Subsequence(r[i].workspaces, accepted)
    ensures forall i, j, w :: 0 <= i < |r| && 0 <= j < |r| && i != j && w in r[i].workspaces && w in r[j].workspaces ==>
              r[i].dir <= r[j].dir ==> i < j
  {
    var order := Order(tree, accepted);
    OrderMembers(tree, accepted);
    OrderIsAncestorFirst(tree, accepted);
    forall d
      ensures forall w :: w in Owners(tree, accepted, d) <==> w in accepted && Lists(tree, w, d)
      ensures Distinct(Owners(tree, accepted, d)) && Subsequence(Owners(tree, accepted, d), accepted)
    {
      OwnersMembers(tree, accepted, d);
    }
    forall w, d | w in accepted && Lists(tree, w, d) ensures exists i :: 0 <= i < |r| && r[i].dir == d {
      assert d in order;
      var i :| 0 <= i < |order| && order[i] == d;
      assert r[i].dir == d;
    }
    forall i, j, w | 0 <= i < |r| && 0 <= j < |r| && w in r[i].workspaces && w in r[j].workspaces
                     && r[i].dir <= r[j].dir && i != j
      ensures i < j
    {
      assert Before(order, order[i], order[j]);
      var k :| 0 <= k < j && order[..j][k] == order[i];
      assert k == i;
    }
  }
}
