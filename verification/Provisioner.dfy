/** Reconciling a workspace's skill directory with policy (engine/skills/provisioner.py). */
module Provisioner {
  import opened Wrappers
  import opened Names
  import opened Sorting
  import opened Disk

  /** An entry of the manifest's `managed` list, which may hold anything. */
  datatype Entry = Text(s: string) | Other

  datatype Manifest = Absent | Unreadable | Listed(managed: seq<Entry>)

  datatype Workspace = Workspace(tree: Tree, manifest: Manifest)

  /** What one call is given: the workspace's allowed skills, those the user may use, and the
      skills of the source as they are now. */
  datatype Call = Call(allowed: seq<string>, granted: set<string>, source: map<string, seq<Item>>)

  datatype Class = Effective | Denied | Missing | Invalid

  predicate HasFile(items: seq<Item>, at: Path) {
    exists i :: 0 <= i < |items| && items[i].Regular? && items[i].at == at
  }

  function HasSkill(call: Call, skill: string): bool {
    skill in call.source && HasFile(call.source[skill], ["SKILL.md"])
  }

  /** The outcome of one skill. */
  function Classify(call: Call, skill: string): Class {
    if !NameOk(skill) then Invalid
    else if skill !in call.granted then Denied
    else if HasSkill(call, skill) then Effective
    else if skill in call.source then Invalid
    else Missing
  }

  /** The allowed skills of one class, in order. */
  function Bucket(call: Call, skills: seq<string>, c: Class): seq<string> {
    if skills == [] then []
    else
      Bucket(call, skills[..|skills| - 1], c) +
      if Classify(call, skills[|skills| - 1]) == c then [skills[|skills| - 1]] else []
  }

  function EffectiveSet(call: Call): set<string> {
    set s | s in call.allowed && Classify(call, s) == Effective
  }

  /** The copies of one call so far: the disk, what landed where, the skills whose copy began, and
      whether one of them raised. */
  datatype Progress = Progress(t: Tree, landed: map<Path, Option<string>>, reached: set<string>, raised: bool)

  function Begin(t: Tree): Progress {
    Progress(t, map[], {}, false)
  }

  function CopySkill(root: Path, p: Progress, call: Call, skill: string): Progress {
    if p.raised || Classify(call, skill) != Effective then p
    else
      var c := CopyItems(Copy(p.t, {}, p.landed), root + [skill], call.source[skill]);
      Progress(c.t, c.landed, p.reached + {skill}, c.failed != {})
  }

  /** The copies of `skills`, in order, up to the first that raises. */
  function Copied(root: Path, t: Tree, call: Call, skills: seq<string>): Progress {
    if skills == [] then Begin(t)
    else CopySkill(root, Copied(root, t, call, skills[..|skills| - 1]), call, skills[|skills| - 1])
  }

  /** The valid names a manifest lists. */
  function Managed(m: Manifest): set<string> {
    if m.Listed? then set e | e in m.managed && e.Text? && NameOk(e.s) :: e.s else {}
  }

  /** Where the directory of a name really is. */
  function Target(root: Path, t: Tree, name: string): Path {
    Resolve(t.links, root + [name])
  }

  /** A name whose target lies strictly inside the destination and is a directory. */
  predicate Removable(root: Path, t: Tree, name: string) {
    var target := Target(root, t, name);
    CommonPath(root, target) == root && target != root && target in t.dirs
  }

  /** The tree after the removable ones of `names` were removed, in order. */
  function Removed(root: Path, t: Tree, names: seq<string>): Tree {
    if names == [] then t
    else
      var t' := Removed(root, t, names[..|names| - 1]);
      var last := names[|names| - 1];
      if Removable(root, t', last) then RemoveTree(t', Target(root, t', last)) else t'
  }

  function RevokedNames(root: Path, t: Tree, names: seq<string>): seq<string> {
    if names == [] then []
    else
      var front, last := names[..|names| - 1], names[|names| - 1];
      RevokedNames(root, t, front) + if Removable(root, Removed(root, t, front), last) then [last] else []
  }

  datatype Report = Report(
    provisioned: seq<string>, denied: seq<string>, missing: seq<string>, invalid: seq<string>, revoked: seq<string>)

  function Entries(names: seq<string>): seq<Entry> {
    seq(|names|, i requires 0 <= i < |names| => Text(names[i]))
  }

  /** The names a call revokes if their directories are there. */
  function Obsolete(m: Manifest, call: Call): seq<string> {
    Sorted(Managed(m) - EffectiveSet(call))
  }

  /** The destination directory can be made: no file is in its place or above it. */
  predicate RootOk(root: Path, t: Tree) {
    MadeBy(root) !! t.files.Keys
  }

  /** The destination directory and its ancestors are there. */
  function Rooted(root: Path, t: Tree): Tree {
    t.(dirs := t.dirs + MadeBy(root))
  }

  function Copies(root: Path, w: Workspace, call: Call): Progress {
    Copied(root, Rooted(root, w.tree), call, call.allowed)
  }

  /** The disk and the manifest after a call, and its report, None if it raised. `root` is the
      resolved destination directory. */
  function Provision(root: Path, w: Workspace, call: Call): (Workspace, Option<Report>) {
    if !RootOk(root, w.tree) then (w, None)
    else
      var p := Copies(root, w, call);
      if p.raised then (w.(tree := p.t), None)
      else
        var obsolete := Obsolete(w.manifest, call);
        (Workspace(Removed(root, p.t, obsolete), Listed(Entries(Sorted(EffectiveSet(call))))),
         Some(Report(Bucket(call, call.allowed, Effective), Bucket(call, call.allowed, Denied),
                     Bucket(call, call.allowed, Missing), Bucket(call, call.allowed, Invalid),
                     RevokedNames(root, p.t, obsolete))))
  }

  class SkillProvisioner {
    const root: Path
    var tree: Tree
    var manifest: Manifest

    constructor (root: Path, tree: Tree, manifest: Manifest)
      ensures this.root == root && this.tree == tree && this.manifest == manifest
    {
      this.root, this.tree, this.manifest := root, tree, manifest;
    }

    method ReadManifest() returns (managed: set<string>)
      ensures managed == Managed(manifest)
    {
      managed := {};
      if !manifest.Listed? {
        return;
      }
      for i := 0 to |manifest.managed|
        invariant managed == set e | e in manifest.managed[..i] && e.Text? && NameOk(e.s) :: e.s
      {
        var entry := manifest.managed[i];
        assert manifest.managed[..i + 1] == manifest.managed[..i] + [entry];
        if entry.Other? {
          continue;
        }
        if !NameOk(entry.s) {
          continue;
        }
        managed := managed + {entry.s};
      }
      assert manifest.managed[..|manifest.managed|] == manifest.managed;
    }

    /** The copy loop; it ends early when a copy raises. */
    method CopyAllowed(call: Call)
      returns (raised: bool, provisioned: seq<string>, denied: seq<string>, missing: seq<string>, invalid: seq<string>)
      modifies this`tree
      ensures var p := Copied(root, old(tree), call, call.allowed); tree == p.t && raised == p.raised
      ensures !raised ==>
        && provisioned == Bucket(call, call.allowed, Effective) && denied == Bucket(call, call.allowed, Denied)
        && missing == Bucket(call, call.allowed, Missing) && invalid == Bucket(call, call.allowed, Invalid)
    {
      raised, provisioned, denied, missing, invalid := false, [], [], [], [];
      for i := 0 to |call.allowed|
        invariant tree == Copied(root, old(tree), call, call.allowed[..i]).t
        invariant !Copied(root, old(tree), call, call.allowed[..i]).raised
        invariant provisioned == Bucket(call, call.allowed[..i], Effective)
        invariant denied == Bucket(call, call.allowed[..i], Denied)
        invariant missing == Bucket(call, call.allowed[..i], Missing)
        invariant invalid == Bucket(call, call.allowed[..i], Invalid)
      {
        var skill := call.allowed[i];
        ghost var p := Copied(root, old(tree), call, call.allowed[..i]);
        CopiedNext(root, old(tree), call, i);
        if !NameOk(skill) {
          invalid := invalid + [skill];
          continue;
        }
        if skill !in call.granted {
          denied := denied + [skill];
          continue;
        }
        if !HasSkill(call, skill) {
          if skill in call.source {
            invalid := invalid + [skill];
          } else {
            missing := missing + [skill];
          }
          continue;
        }
        var copy := CopyTree(tree, root + [skill], call.source[skill]);
        SameCopy(Start(tree), Copy(tree, {}, p.landed), root + [skill], call.source[skill]);
        tree := copy.t;
        if copy.failed != {} {
          StaysRaised(root, old(tree), call, i + 1);
          raised := true;
          return;
        }
        provisioned := provisioned + [skill];
      }
      assert call.allowed[..|call.allowed|] == call.allowed;
    }

    /** The revocation loop. */
    method Revoke(names: seq<string>) returns (revoked: seq<string>)
      modifies this`tree
      ensures tree == Removed(root, old(tree), names)
      ensures revoked == RevokedNames(root, old(tree), names)
    {
      revoked := [];
      for i := 0 to |names|
        invariant tree == Removed(root, old(tree), names[..i])
        invariant revoked == RevokedNames(root, old(tree), names[..i])
      {
        assert names[..i + 1][..i] == names[..i];
        var target := Target(root, tree, names[i]);
        var common := CommonPath(root, target);
        if common != root || target == root {
          continue;
        }
        if target in tree.dirs {
          tree := RemoveTree(tree, target);
          revoked := revoked + [names[i]];
        }
      }
      assert names[..|names|] == names;
    }

    method ProvisionCall(call: Call) returns (report: Option<Report>)
      modifies this
      ensures (Workspace(tree, manifest), report) == Provision(root, old(Workspace(tree, manifest)), call)
    {
      if !RootOk(root, tree) {
        return None;
      }
      tree := Rooted(root, tree);
      var prev := ReadManifest();
      var raised, provisioned, denied, missing, invalid := CopyAllowed(call);
      if raised {
        return None;
      }
      var effective := set s | s in provisioned;
      BucketIs(call, call.allowed, Effective);
      assert effective == EffectiveSet(call);
      var revoked := Revoke(Sorted(prev - effective));
      manifest := Listed(Entries(Sorted(effective)));
      report := Some(Report(provisioned, denied, missing, invalid, revoked));
    }
  }

  lemma {:induction false} BucketIs(call: Call, skills: seq<string>, c: Class)
    ensures forall s :: s in Bucket(call, skills, c) <==> s in skills && Classify(call, s) == c
  {
    if skills != [] {
      BucketIs(call, skills[..|skills| - 1], c);
      assert skills == skills[..|skills| - 1] + [skills[|skills| - 1]];
    }
  }

  lemma CopiedNext(root: Path, t: Tree, call: Call, i: nat)
    requires i < |call.allowed|
    ensures Copied(root, t, call, call.allowed[..i + 1]) ==
            CopySkill(root, Copied(root, t, call, call.allowed[..i]), call, call.allowed[i])
    ensures forall c :: Bucket(call, call.allowed[..i + 1], c) ==
                        Bucket(call, call.allowed[..i], c) +
                        if Classify(call, call.allowed[i]) == c then [call.allowed[i]] else []
  {
    assert call.allowed[..i + 1][..i] == call.allowed[..i];
  }

  /** What landed before does not matter to a copy. */
  lemma {:induction false} SameCopy(c: Copy, d: Copy, dst: Path, items: seq<Item>)
    requires dst != [] && c.t == d.t && c.failed == d.failed
    ensures CopyItems(c, dst, items).t == CopyItems(d, dst, items).t
    ensures CopyItems(c, dst, items).failed == CopyItems(d, dst, items).failed
  {
    if items != [] {
      SameCopy(c, d, dst, items[..|items| - 1]);
    }
  }

  /** Once a copy has raised, nothing more is copied. */
  lemma {:induction false} StaysRaised(root: Path, t: Tree, call: Call, i: nat)
    requires i <= |call.allowed| && Copied(root, t, call, call.allowed[..i]).raised
    ensures Copied(root, t, call, call.allowed) == Copied(root, t, call, call.allowed[..i])
    decreases |call.allowed| - i
  {
    if i == |call.allowed| {
      assert call.allowed[..i] == call.allowed;
    } else {
      CopiedNext(root, t, call, i);
      StaysRaised(root, t, call, i + 1);
    }
  }
}
