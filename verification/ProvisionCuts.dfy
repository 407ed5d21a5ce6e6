/** Histories of calls that may be cut short, by an error of a copy or from outside, and the names
    they leave on disk that nobody tracks. */
module ProvisionCuts {
  import opened Wrappers
  import opened Disk
  import opened Copying
  import opened Provisioner
  import opened ProvisionLinks
  import opened ProvisionTheorems
  import opened ProvisionHistory

  /** How far a call gets, unless a copy raises before: to its end; to some entry of the copy of
      some allowed skill; or to some name of the revocation, the manifest not yet written. */
  datatype Cut = Whole | InCopy(skills: nat, items: nat) | InRevoke(names: nat)

  datatype Try = Try(call: Call, cut: Cut)

  /** What a try leaves, whether it completed, and the names whose copy began. */
  datatype Tried = Tried(w: Workspace, done: bool, reached: set<string>)

  function Min(a: nat, b: nat): nat {
    if a <= b then a else b
  }

  /** The first `skills` allowed skills, and the first `items` entries of the next. */
  function Partial(root: Path, t: Tree, call: Call, skills: nat, items: nat): Progress {
    var p := Copied(root, t, call, call.allowed[..Min(skills, |call.allowed|)]);
    if p.raised || skills >= |call.allowed| || items == 0 || Classify(call, call.allowed[skills]) != Effective then p
    else
      var n := call.allowed[skills];
      var c := CopyItems(Copy(p.t, {}, p.landed), root + [n], call.source[n][..Min(items, |call.source[n]|)]);
      Progress(c.t, c.landed, p.reached + {n}, c.failed != {})
  }

  function Attempt(root: Path, w: Workspace, try: Try): Tried {
    if !RootOk(root, w.tree) then Tried(w, false, {})
    else
      match try.cut
      case Whole =>
        var (w', report) := Provision(root, w, try.call);
        Tried(w', report.Some?, Copies(root, w, try.call).reached)
      case InCopy(skills, items) =>
        var p := Partial(root, Rooted(root, w.tree), try.call, skills, items);
        Tried(w.(tree := p.t), false, p.reached)
      case InRevoke(k) =>
        var p := Copies(root, w, try.call);
        var names := Obsolete(w.manifest, try.call);
        Tried(w.(tree := if p.raised then p.t else Removed(root, p.t, names[..Min(k, |names|)])), false, p.reached)
  }

  function AfterTries(root: Path, w: Workspace, tries: seq<Try>): Workspace {
    if tries == [] then w
    else Attempt(root, AfterTries(root, w, tries[..|tries| - 1]), tries[|tries| - 1]).w
  }

  // ----- A name's directory under a copy -----

  /** The name's place is no file, and a directory if it was one or its copy began. */
  ghost predicate Known(root: Path, t: Tree, p: Progress, n: string) {
    && root + [n] !in p.t.files
    && (root + [n] in p.t.dirs <==> root + [n] in t.dirs || n in p.reached)
  }

  lemma NotLanded(t: Tree, t': Tree, landed: map<Path, Option<string>>, q: Path)
    requires Overlays(t, t', landed) && q !in landed
    ensures (q in t'.files <==> q in t.files) && (q in t'.dirs <==> q in t.dirs)
  {
    assert q !in LandedFiles(landed) && q !in LandedDirs(landed);
  }

  lemma CopyElsewhere(c: Copy, dst: Path, items: seq<Item>, q: Path)
    requires dst != [] && Direct(c.t.links, dst) && Disjoint(c.t) && !(dst <= q)
    ensures var t' := CopyItems(c, dst, items).t;
      (q in t'.files <==> q in c.t.files) && (q in t'.dirs <==> q in c.t.dirs)
  {
    var d := c.(landed := map[]);
    SameCopy(c, d, dst, items);
    CopyOverlays(c.t, d, dst, items);
    LandedFrom(d, dst, items, q);
    if q in CopyItems(d, dst, items).landed {
      FromSomeBelow(c.t.links, dst, items, q);
    }
    NotLanded(c.t, CopyItems(d, dst, items).t, CopyItems(d, dst, items).landed, q);
  }

  lemma CopyHere(t: Tree, landed: map<Path, Option<string>>, dst: Path, items: seq<Item>)
    requires dst != [] && Direct(t.links, dst) && Disjoint(t) && dst !in t.files
    requires items != [] && items[0] == Folder([])
    ensures var t' := CopyItems(Copy(t, {}, landed), dst, items).t; dst in t'.dirs && dst !in t'.files
  {
    var c := Copy(t, {}, landed);
    ResolveDirect(t.links, dst, dst);
    assert dst + [] == dst && items[..0] == [];
    CopyNext(c, dst, items, 0);
    CopyGrows(c, dst, items, 1);
    CopyDisjoint(c, dst, items);
  }

  lemma SkillKnown(root: Path, t: Tree, p: Progress, landed: map<Path, Option<string>>, m: string,
                   items: seq<Item>, n: string)
    requires Known(root, t, p, n) && Disjoint(p.t) && Direct(p.t.links, root + [m])
    requires items != [] && items[0] == Folder([])
    ensures var c := CopyItems(Copy(p.t, {}, landed), root + [m], items);
      Known(root, t, Progress(c.t, c.landed, p.reached + {m}, c.failed != {}), n)
  {
    if m == n {
      CopyHere(p.t, landed, root + [m], items);
    } else {
      UnderName(root, m, root + [n]);
      CopyElsewhere(Copy(p.t, {}, landed), root + [m], items, root + [n]);
    }
  }

  lemma {:induction false} CopiedKnown(root: Path, t: Tree, call: Call, skills: seq<string>, n: string)
    requires Disjoint(t) && AllListed(call) && DirectNames(root, t.links, EffectiveIn(call, skills))
    requires root + [n] !in t.files
    ensures Known(root, t, Copied(root, t, call, skills), n)
  {
    if skills != [] {
      var front, last := skills[..|skills| - 1], skills[|skills| - 1];
      assert skills == front + [last];
      EffectiveMore(call, front, last);
      CopiedKnown(root, t, call, front, n);
      CopiesLand(root, t, call, front);
      var p := Copied(root, t, call, front);
      if !p.raised && Classify(call, last) == Effective {
        assert Listing(call.source[last]);
        SkillKnown(root, t, p, p.landed, last, call.source[last], n);
      }
    }
  }

  lemma EffectivePart(call: Call, k: nat)
    requires k <= |call.allowed|
    ensures EffectiveIn(call, call.allowed[..k]) <= EffectiveSet(call)
  {
  }

  lemma PartialKnown(root: Path, t: Tree, call: Call, skills: nat, items: nat, n: string)
    requires Disjoint(t) && AllListed(call) && DirectNames(root, t.links, EffectiveSet(call))
    requires root + [n] !in t.files
    ensures Known(root, t, Partial(root, t, call, skills, items), n)
  {
    var k := Min(skills, |call.allowed|);
    EffectivePart(call, k);
    CopiedKnown(root, t, call, call.allowed[..k], n);
    CopiesLand(root, t, call, call.allowed[..k]);
    var p := Copied(root, t, call, call.allowed[..k]);
    if !p.raised && skills < |call.allowed| && items > 0 && Classify(call, call.allowed[skills]) == Effective {
      var m := call.allowed[skills];
      assert Listing(call.source[m]) && m in EffectiveSet(call);
      var part := call.source[m][..Min(items, |call.source[m]|)];
      assert part[0] == call.source[m][0];
      SkillKnown(root, t, p, p.landed, m, part, n);
    }
  }

  lemma PartialShape(root: Path, t: Tree, call: Call, skills: nat, items: nat)
    requires Disjoint(t)
    ensures var p := Partial(root, t, call, skills, items); Disjoint(p.t) && p.t.links == t.links
  {
    var k := Min(skills, |call.allowed|);
    CopiesLand(root, t, call, call.allowed[..k]);
    var p := Copied(root, t, call, call.allowed[..k]);
    if skills < |call.allowed| && Classify(call, call.allowed[skills]) == Effective {
      var m := call.allowed[skills];
      var part := call.source[m][..Min(items, |call.source[m]|)];
      CopyOverlays(t, Copy(p.t, {}, p.landed), root + [m], part);
    }
  }

  // ----- One try -----

  lemma CopiesStart(root: Path, w: Workspace, call: Call)
    requires Plain(root, w, call) && RootOk(root, w.tree)
    ensures Disjoint(Rooted(root, w.tree)) && DirectNames(root, Rooted(root, w.tree).links, EffectiveSet(call))
    ensures EffectiveIn(call, call.allowed) == EffectiveSet(call)
  {
    RootedDisjoint(root, w.tree);
  }

  lemma RootedName(root: Path, t: Tree, n: string)
    ensures root + [n] in Rooted(root, t).dirs <==> root + [n] in t.dirs
  {
    MadeByIs(root);
    NameIsNoAncestor(root, n);
  }

  /** A try that does not complete leaves the manifest, and makes the directories of the names it
      reached; what it removes is listed in the manifest. */
  ghost predicate Broken(root: Path, w: Workspace, d: Tried, n: string) {
    && d.w.manifest == w.manifest && root + [n] !in d.w.tree.files
    && (root + [n] in d.w.tree.dirs ==> root + [n] in w.tree.dirs || n in d.reached)
    && (n !in Managed(w.manifest) && (root + [n] in w.tree.dirs || n in d.reached) ==> root + [n] in d.w.tree.dirs)
  }

  lemma CutInCopy(root: Path, w: Workspace, call: Call, skills: nat, items: nat, n: string)
    requires Plain(root, w, call) && RootOk(root, w.tree) && root + [n] !in w.tree.files
    ensures Broken(root, w, Attempt(root, w, Try(call, InCopy(skills, items))), n)
  {
    CopiesStart(root, w, call);
    PartialKnown(root, Rooted(root, w.tree), call, skills, items, n);
    RootedName(root, w.tree, n);
  }

  lemma WholeKnown(root: Path, w: Workspace, call: Call, n: string)
    requires Plain(root, w, call) && RootOk(root, w.tree) && root + [n] !in w.tree.files
    ensures Known(root, w.tree, Copies(root, w, call), n)
    ensures Copies(root, w, call).t.links == w.tree.links
  {
    CopiesStart(root, w, call);
    CopiedKnown(root, Rooted(root, w.tree), call, call.allowed, n);
    CopiesLand(root, Rooted(root, w.tree), call, call.allowed);
    RootedName(root, w.tree, n);
  }

  lemma RemovalKnown(root: Path, t: Tree, names: seq<string>, n: string)
    requires (forall m :: m in names ==> Straight(t.links, root + [m])) && root + [n] !in t.files
    ensures var t' := Removed(root, t, names);
      root + [n] !in t'.files && (root + [n] in t'.dirs <==> root + [n] in t.dirs && n !in names)
  {
    RemovedWithout(root, t, names);
    NameIsNoAncestor(root, n);
  }

  lemma CutInRevoke(root: Path, w: Workspace, call: Call, k: nat, n: string)
    requires Plain(root, w, call) && RootOk(root, w.tree) && root + [n] !in w.tree.files
    ensures Broken(root, w, Attempt(root, w, Try(call, InRevoke(k))), n)
  {
    var p, names := Copies(root, w, call), Obsolete(w.manifest, call);
    WholeKnown(root, w, call, n);
    ObsoleteStraight(root, w, call, w.tree.links);
    if !p.raised {
      forall m | m in names[..Min(k, |names|)] ensures m in names {}
      RemovalKnown(root, p.t, names[..Min(k, |names|)], n);
    }
  }

  /** A try that completes leaves its effective set in the manifest and on disk, and removes the
      rest of what was listed. */
  ghost predicate Completed(root: Path, w: Workspace, call: Call, d: Tried, n: string) {
    && Managed(d.w.manifest) == EffectiveSet(call) && root + [n] !in d.w.tree.files
    && (root + [n] in d.w.tree.dirs <==>
        n in EffectiveSet(call) || (root + [n] in w.tree.dirs && n !in Managed(w.manifest)))
  }

  lemma WholeTry(root: Path, w: Workspace, call: Call, n: string)
    requires Plain(root, w, call) && RootOk(root, w.tree) && root + [n] !in w.tree.files
    ensures var d := Attempt(root, w, Try(call, Whole));
      if d.done then Completed(root, w, call, d, n) else Broken(root, w, d, n)
  {
    WholeKnown(root, w, call, n);
    ManagedAfter(root, w, call);
    if Provision(root, w, call).1.Some? {
      NameAt(root, w, call, n);
      ObsoleteStraight(root, w, call, w.tree.links);
      RemovalKnown(root, Copies(root, w, call).t, Obsolete(w.manifest, call), n);
    }
  }

  lemma TryAt(root: Path, w: Workspace, try: Try, n: string)
    requires Plain(root, w, try.call) && root + [n] !in w.tree.files
    ensures var d := Attempt(root, w, try);
      if d.done then Completed(root, w, try.call, d, n) else Broken(root, w, d, n)
  {
    if RootOk(root, w.tree) {
      match try.cut
      case Whole => WholeTry(root, w, try.call, n);
      case InCopy(skills, items) => CutInCopy(root, w, try.call, skills, items, n);
      case InRevoke(k) => CutInRevoke(root, w, try.call, k, n);
    }
  }

  lemma TryFollows(root: Path, links: map<Path, Path>, w: Workspace, try: Try)
    requires Follows(root, links, w) && CallOk(root, links, try.call)
    ensures Follows(root, links, Attempt(root, w, try).w)
  {
    if RootOk(root, w.tree) {
      RootedDisjoint(root, w.tree);
      match try.cut
      case Whole => CallFollows(root, links, w, try.call);
      case InCopy(skills, items) => PartialShape(root, Rooted(root, w.tree), try.call, skills, items);
      case InRevoke(k) =>
        var names := Obsolete(w.manifest, try.call);
        CopiesLand(root, Rooted(root, w.tree), try.call, try.call.allowed);
        RemovalContained(root, Copies(root, w, try.call).t, names[..Min(k, |names|)]);
    }
  }

  // ----- A history of tries -----

  ghost predicate TriesStart(root: Path, w: Workspace, tries: seq<Try>) {
    && Managed(w.manifest) == {} && Disjoint(w.tree)
    && forall i :: 0 <= i < |tries| ==> CallOk(root, w.tree.links, tries[i].call)
  }

  lemma {:induction false} TriesFollow(root: Path, w: Workspace, tries: seq<Try>, n: string)
    requires TriesStart(root, w, tries) && root + [n] !in w.tree.files
    ensures Follows(root, w.tree.links, AfterTries(root, w, tries))
    ensures root + [n] !in AfterTries(root, w, tries).tree.files
  {
    if tries != [] {
      var front, try := tries[..|tries| - 1], tries[|tries| - 1];
      assert forall i :: 0 <= i < |front| ==> front[i] == tries[i];
      TriesFollow(root, w, front, n);
      TryFollows(root, w.tree.links, AfterTries(root, w, front), try);
      FollowsPlain(root, w.tree.links, AfterTries(root, w, front), try.call);
      TryAt(root, AfterTries(root, w, front), try, n);
    }
  }

  /** Try `k` of a history. */
  function TryOf(root: Path, w: Workspace, tries: seq<Try>, k: nat): Tried
    requires k < |tries|
  {
    Attempt(root, AfterTries(root, w, tries[..k]), tries[k])
  }

  /** Try `k` did not complete, but began to copy the name, which the manifest did not list. */
  ghost predicate StrandsAt(root: Path, w: Workspace, tries: seq<Try>, k: nat, n: string) {
    && k < |tries| && !TryOf(root, w, tries, k).done && n in TryOf(root, w, tries, k).reached
    && n !in Managed(AfterTries(root, w, tries[..k]).manifest)
  }

  /** No try after `k` completed with the name effective. */
  ghost predicate NotTakenUpSince(root: Path, w: Workspace, tries: seq<Try>, k: nat, n: string) {
    forall j :: k < j < |tries| ==> !TakesUpAt(root, w, tries, j, n)
  }

  ghost predicate TakesUpAt(root: Path, w: Workspace, tries: seq<Try>, j: nat, n: string) {
    j < |tries| && TryOf(root, w, tries, j).done && n in EffectiveSet(tries[j].call)
  }

  ghost predicate Stranded(root: Path, w: Workspace, tries: seq<Try>, n: string) {
    exists k: nat :: StrandsAt(root, w, tries, k, n) && NotTakenUpSince(root, w, tries, k, n)
  }

  lemma StrandsSplit(root: Path, w: Workspace, tries: seq<Try>, k: nat, n: string)
    requires k + 1 < |tries|
    ensures var front := tries[..|tries| - 1];
      && (StrandsAt(root, w, front, k, n) <==> StrandsAt(root, w, tries, k, n))
      && (TakesUpAt(root, w, front, k, n) <==> TakesUpAt(root, w, tries, k, n))
  {
    var front := tries[..|tries| - 1];
    assert front[..k] == tries[..k] && front[k] == tries[k];
    assert TryOf(root, w, front, k) == TryOf(root, w, tries, k);
  }

  lemma NotTakenUpFront(root: Path, w: Workspace, tries: seq<Try>, k: nat, n: string)
    requires k + 1 < |tries| && NotTakenUpSince(root, w, tries, k, n)
    ensures NotTakenUpSince(root, w, tries[..|tries| - 1], k, n) && !TakesUpAt(root, w, tries, |tries| - 1, n)
  {
    var front := tries[..|tries| - 1];
    forall j | k < j < |front| ensures !TakesUpAt(root, w, front, j, n) {
      StrandsSplit(root, w, tries, j, n);
      assert !TakesUpAt(root, w, tries, j, n);
    }
  }

  lemma NotTakenUpMore(root: Path, w: Workspace, tries: seq<Try>, k: nat, n: string)
    requires k + 1 < |tries| && NotTakenUpSince(root, w, tries[..|tries| - 1], k, n)
    requires !TakesUpAt(root, w, tries, |tries| - 1, n)
    ensures NotTakenUpSince(root, w, tries, k, n)
  {
    var front := tries[..|tries| - 1];
    forall j | k < j < |tries| ensures !TakesUpAt(root, w, tries, j, n) {
      if j < |front| {
        StrandsSplit(root, w, tries, j, n);
        assert !TakesUpAt(root, w, front, j, n);
      }
    }
  }

  lemma StaysStranded(root: Path, w: Workspace, tries: seq<Try>, n: string)
    requires tries != [] && Stranded(root, w, tries[..|tries| - 1], n) && !TakesUpAt(root, w, tries, |tries| - 1, n)
    ensures Stranded(root, w, tries, n)
  {
    var front := tries[..|tries| - 1];
    var k: nat :| StrandsAt(root, w, front, k, n) && NotTakenUpSince(root, w, front, k, n);
    StrandsSplit(root, w, tries, k, n);
    NotTakenUpMore(root, w, tries, k, n);
  }

  lemma WasStranded(root: Path, w: Workspace, tries: seq<Try>, n: string, k: nat)
    requires k + 1 < |tries| && StrandsAt(root, w, tries, k, n) && NotTakenUpSince(root, w, tries, k, n)
    ensures Stranded(root, w, tries[..|tries| - 1], n) && !TakesUpAt(root, w, tries, |tries| - 1, n)
  {
    StrandsSplit(root, w, tries, k, n);
    NotTakenUpFront(root, w, tries, k, n);
  }

  lemma StrandedSnoc(root: Path, w: Workspace, tries: seq<Try>, n: string)
    requires tries != []
    ensures var last := |tries| - 1;
      Stranded(root, w, tries, n) <==>
      || StrandsAt(root, w, tries, last, n)
      || (Stranded(root, w, tries[..last], n) && !TakesUpAt(root, w, tries, last, n))
  {
    var last := |tries| - 1;
    if StrandsAt(root, w, tries, last, n) {
      assert NotTakenUpSince(root, w, tries, last, n);
    } else if Stranded(root, w, tries, n) {
      var k: nat :| StrandsAt(root, w, tries, k, n) && NotTakenUpSince(root, w, tries, k, n);
      WasStranded(root, w, tries, n, k);
    } else if Stranded(root, w, tries[..last], n) && !TakesUpAt(root, w, tries, last, n) {
      StaysStranded(root, w, tries, n);
    }
  }

  /** On disk, but listed nowhere. */
  ghost predicate Untracked(root: Path, w: Workspace, n: string) {
    root + [n] in w.tree.dirs && n !in Managed(w.manifest)
  }

  /** A name that is not the user's is on disk without being listed in the manifest, so that no
      later call will revoke it, exactly if some try that did not complete began to copy it while
      it was not listed, and no try since then completed with the name effective. */
  lemma {:induction false} StrandedIff(root: Path, w: Workspace, tries: seq<Try>, n: string)
    requires TriesStart(root, w, tries) && root + [n] !in w.tree.files && root + [n] !in w.tree.dirs
    ensures Untracked(root, AfterTries(root, w, tries), n) <==> Stranded(root, w, tries, n)
  {
    if tries != [] {
      var front, last := tries[..|tries| - 1], |tries| - 1;
      var before := AfterTries(root, w, front);
      assert forall i :: 0 <= i < last ==> front[i] == tries[i];
      StrandedIff(root, w, front, n);
      StrandedSnoc(root, w, tries, n);
      TriesFollow(root, w, front, n);
      FollowsPlain(root, w.tree.links, before, tries[last].call);
      TryAt(root, before, tries[last], n);
    }
  }
}
