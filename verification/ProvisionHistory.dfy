/** What a history of calls adds up to, where the names it copies are not, and have no, symbolic
    links: calls that complete, and calls that are cut short. */
module ProvisionHistory {
  import opened Sorting
  import opened Disk
  import opened Copying
  import opened Provisioner
  import opened ProvisionTheorems

  // ----- A history of calls -----

  function After(root: Path, w: Workspace, calls: seq<Call>): Workspace {
    if calls == [] then w
    else Provision(root, After(root, w, calls[..|calls| - 1]), calls[|calls| - 1]).0
  }

  ghost predicate CompletesAt(root: Path, w: Workspace, calls: seq<Call>, i: nat) {
    i < |calls| && Provision(root, After(root, w, calls[..i]), calls[i]).1.Some?
  }

  ghost predicate AllComplete(root: Path, w: Workspace, calls: seq<Call>) {
    forall i :: 0 <= i < |calls| ==> CompletesAt(root, w, calls, i)
  }

  ghost predicate EverEffective(calls: seq<Call>, n: string) {
    exists i :: 0 <= i < |calls| && n in EffectiveSet(calls[i])
  }

  ghost predicate CallOk(root: Path, links: map<Path, Path>, call: Call) {
    AllListed(call) && DirectNames(root, links, EffectiveSet(call))
  }

  /** The first call found no manifest entries, and no name that is ever copied is a link, or has
      one above or below it. */
  ghost predicate Starts(root: Path, w: Workspace, calls: seq<Call>) {
    && Managed(w.manifest) == {} && Disjoint(w.tree)
    && forall i :: 0 <= i < |calls| ==> CallOk(root, w.tree.links, calls[i])
  }

  /** What holds of the workspace after any calls: links are only ever removed, and the names in
      the manifest are direct. */
  ghost predicate Follows(root: Path, links: map<Path, Path>, w: Workspace) {
    && Disjoint(w.tree)
    && (forall l :: l in w.tree.links ==> l in links)
    && DirectNames(root, links, Managed(w.manifest))
  }

  lemma FollowsPlain(root: Path, links: map<Path, Path>, w: Workspace, call: Call)
    requires Follows(root, links, w) && CallOk(root, links, call)
    ensures Plain(root, w, call)
  {
  }

  lemma ManagedAfter(root: Path, w: Workspace, call: Call)
    ensures var (w', report) := Provision(root, w, call);
      Managed(w'.manifest) == if report.Some? then EffectiveSet(call) else Managed(w.manifest)
  {
    EffectiveNames(call);
    ManifestReadsBack(EffectiveSet(call));
  }

  lemma CallFollows(root: Path, links: map<Path, Path>, w: Workspace, call: Call)
    requires Follows(root, links, w) && CallOk(root, links, call)
    ensures Follows(root, links, Provision(root, w, call).0)
  {
    ProvisionKeepsShape(root, w, call);
    ManagedAfter(root, w, call);
  }

  lemma StartsSplit(root: Path, w: Workspace, calls: seq<Call>)
    requires Starts(root, w, calls) && calls != []
    ensures Starts(root, w, calls[..|calls| - 1]) && CallOk(root, w.tree.links, calls[|calls| - 1])
  {
    assert forall i :: 0 <= i < |calls| - 1 ==> calls[..|calls| - 1][i] == calls[i];
  }

  lemma {:induction false} HistoryFollows(root: Path, w: Workspace, calls: seq<Call>)
    requires Starts(root, w, calls)
    ensures Follows(root, w.tree.links, After(root, w, calls))
  {
    if calls != [] {
      StartsSplit(root, w, calls);
      HistoryFollows(root, w, calls[..|calls| - 1]);
      CallFollows(root, w.tree.links, After(root, w, calls[..|calls| - 1]), calls[|calls| - 1]);
    }
  }

  lemma NextIsPlain(root: Path, w: Workspace, calls: seq<Call>)
    requires Starts(root, w, calls) && calls != []
    ensures Plain(root, After(root, w, calls[..|calls| - 1]), calls[|calls| - 1])
  {
    StartsSplit(root, w, calls);
    HistoryFollows(root, w, calls[..|calls| - 1]);
    FollowsPlain(root, w.tree.links, After(root, w, calls[..|calls| - 1]), calls[|calls| - 1]);
  }

  lemma CompletesAtFront(root: Path, w: Workspace, calls: seq<Call>, i: nat)
    requires i + 1 < |calls|
    ensures CompletesAt(root, w, calls[..|calls| - 1], i) <==> CompletesAt(root, w, calls, i)
  {
    assert calls[..|calls| - 1][..i] == calls[..i] && calls[..|calls| - 1][i] == calls[i];
  }

  lemma CompleteSplit(root: Path, w: Workspace, calls: seq<Call>)
    requires calls != []
    ensures AllComplete(root, w, calls) <==>
            && AllComplete(root, w, calls[..|calls| - 1])
            && Provision(root, After(root, w, calls[..|calls| - 1]), calls[|calls| - 1]).1.Some?
  {
    var n := |calls| - 1;
    forall i: nat | i < n ensures CompletesAt(root, w, calls[..n], i) <==> CompletesAt(root, w, calls, i) {
      CompletesAtFront(root, w, calls, i);
    }
    assert CompletesAt(root, w, calls, n) <==> Provision(root, After(root, w, calls[..n]), calls[n]).1.Some?;
  }

  // ----- Completed calls -----

  /** The effective set of the last call. */
  function LastEffective(calls: seq<Call>): set<string> {
    if calls == [] then {} else EffectiveSet(calls[|calls| - 1])
  }

  /** After completed calls the manifest lists the last effective set. */
  lemma ManifestTracks(root: Path, w: Workspace, calls: seq<Call>)
    requires Managed(w.manifest) == {} && AllComplete(root, w, calls)
    ensures Managed(After(root, w, calls).manifest) == LastEffective(calls)
  {
    if calls != [] {
      CompleteSplit(root, w, calls);
      ManagedAfter(root, After(root, w, calls[..|calls| - 1]), calls[|calls| - 1]);
    }
  }

  /** What a history makes of a name's directory: nothing unless the last call made it effective,
      and then the source snapshots copied since it was last absent, later ones winning. */
  function Expected(calls: seq<Call>, n: string): Content {
    if calls == [] || n !in EffectiveSet(calls[|calls| - 1]) then NOTHING
    else Merge(Expected(calls[..|calls| - 1], n), calls[|calls| - 1].source[n])
  }

  /** No snapshot of the skill has a folder where an earlier one since it was last absent had a
      file, or the reverse. */
  ghost predicate Compatible(calls: seq<Call>, n: string) {
    forall i :: 0 <= i < |calls| ==> CompatibleAt(calls, n, i)
  }

  ghost predicate CompatibleAt(calls: seq<Call>, n: string, i: nat) {
    i < |calls| && (n in EffectiveSet(calls[i]) ==> Merges(Expected(calls[..i], n), calls[i].source[n]))
  }

  lemma CompatibleSplit(calls: seq<Call>, n: string)
    requires calls != []
    ensures Compatible(calls, n) <==>
            Compatible(calls[..|calls| - 1], n) && CompatibleAt(calls, n, |calls| - 1)
  {
    var front := calls[..|calls| - 1];
    forall i: nat | i < |front| ensures CompatibleAt(front, n, i) <==> CompatibleAt(calls, n, i) {
      assert front[..i] == calls[..i];
    }
  }

  lemma ExpectedIsRooted(root: Path, links: map<Path, Path>, calls: seq<Call>, n: string)
    requires forall i :: 0 <= i < |calls| ==> CallOk(root, links, calls[i])
    ensures [] in Expected(calls, n).dirs <==> n in LastEffective(calls)
    ensures n !in LastEffective(calls) ==> Expected(calls, n) == NOTHING
  {
    if n in LastEffective(calls) {
      var items := calls[|calls| - 1].source[n];
      EffectiveNames(calls[|calls| - 1]);
      assert Listing(items);
      FoldersAre(items, []);
    }
  }

  /** Nothing of the name is there. */
  ghost predicate AbsentIn(root: Path, t: Tree, n: string) {
    Holds(t, root + [n], NOTHING)
  }

  /** A name that was absent before the first call is there exactly if the last call made it
      effective, and then holds, files and directories, the merge of the snapshots since it was
      last absent, as long as these are compatible. */
  lemma {:induction false} ManagedDirectory(root: Path, w: Workspace, calls: seq<Call>, n: string)
    requires Starts(root, w, calls) && AllComplete(root, w, calls)
    requires AbsentIn(root, w.tree, n) && Compatible(calls, n)
    ensures var t := After(root, w, calls).tree;
      && (root + [n] in t.dirs <==> n in LastEffective(calls))
      && Holds(t, root + [n], Expected(calls, n))
  {
    assert root + [n] + [] == root + [n];
    ExpectedIsRooted(root, w.tree.links, calls, n);
    if calls != [] {
      var front, call := calls[..|calls| - 1], calls[|calls| - 1];
      NextIsPlain(root, w, calls);
      StartsSplit(root, w, calls);
      CompleteSplit(root, w, calls);
      CompatibleSplit(calls, n);
      ManagedDirectory(root, w, front, n);
      ManifestTracks(root, w, front);
      ExpectedIsRooted(root, w.tree.links, front, n);
      ProvisionAt(root, After(root, w, front), call, n, Expected(front, n));
    }
  }

  /** And only as long: the merge is what is there after every call of the history exactly if the
      snapshots are compatible. */
  lemma MergedThroughoutIff(root: Path, w: Workspace, calls: seq<Call>, n: string)
    requires Starts(root, w, calls) && AllComplete(root, w, calls) && AbsentIn(root, w.tree, n)
    ensures (forall k :: 0 <= k <= |calls| ==> MergedAfter(root, w, calls, n, k)) <==> Compatible(calls, n)
  {
    if Compatible(calls, n) {
      forall k | 0 <= k <= |calls| ensures MergedAfter(root, w, calls, n, k) {
        PrefixOf(root, w, calls, n, k);
        ManagedDirectory(root, w, calls[..k], n);
      }
    } else {
      var i :| 0 <= i < |calls| && !CompatibleAt(calls, n, i);
      ClashShows(root, w, calls, n, i);
    }
  }

  ghost predicate MergedAfter(root: Path, w: Workspace, calls: seq<Call>, n: string, k: nat) {
    k <= |calls| && Holds(After(root, w, calls[..k]).tree, root + [n], Expected(calls[..k], n))
  }

  lemma PrefixOf(root: Path, w: Workspace, calls: seq<Call>, n: string, k: nat)
    requires Starts(root, w, calls) && AllComplete(root, w, calls) && k <= |calls|
    ensures Starts(root, w, calls[..k]) && AllComplete(root, w, calls[..k])
    ensures Compatible(calls, n) ==> Compatible(calls[..k], n)
  {
    forall i: nat | i < k
      ensures CallOk(root, w.tree.links, calls[..k][i])
      ensures CompletesAt(root, w, calls[..k], i)
      ensures CompatibleAt(calls, n, i) ==> CompatibleAt(calls[..k], n, i)
    {
      assert calls[..k][..i] == calls[..i] && calls[..k][i] == calls[i];
      assert CompletesAt(root, w, calls, i);
    }
  }

  lemma ClashShows(root: Path, w: Workspace, calls: seq<Call>, n: string, i: nat)
    requires Starts(root, w, calls) && AllComplete(root, w, calls) && i < |calls| && !CompatibleAt(calls, n, i)
    ensures !MergedAfter(root, w, calls, n, i + 1)
  {
    var items, content := calls[i].source[n], Expected(calls[..i], n);
    assert calls[..i + 1][..i] == calls[..i];
    PrefixOf(root, w, calls, n, i + 1);
    HistoryFollows(root, w, calls[..i + 1]);
    var j :| 0 <= j < |items| && !ItemMerges(content, items[j]);
    ClashIsNoMerge(After(root, w, calls[..i + 1]).tree, root + [n], items, content, j);
  }

  // ----- Which calls complete -----

  lemma RootStaysOk(root: Path, w: Workspace, call: Call)
    requires Plain(root, w, call) && RootOk(root, w.tree)
    ensures RootOk(root, Provision(root, w, call).0.tree)
  {
    MadeByIs(root);
    forall q | q in MadeBy(root) ensures q !in Provision(root, w, call).0.tree.files {
      ProvisionFrame(root, w, call, q);
    }
  }

  lemma {:induction false} RootAlwaysOk(root: Path, w: Workspace, calls: seq<Call>)
    requires Starts(root, w, calls) && RootOk(root, w.tree)
    ensures RootOk(root, After(root, w, calls).tree)
  {
    if calls != [] {
      StartsSplit(root, w, calls);
      RootAlwaysOk(root, w, calls[..|calls| - 1]);
      NextIsPlain(root, w, calls);
      RootStaysOk(root, After(root, w, calls[..|calls| - 1]), calls[|calls| - 1]);
    }
  }

  lemma EverSplit(calls: seq<Call>, n: string)
    requires calls != []
    ensures EverEffective(calls, n) <==>
            EverEffective(calls[..|calls| - 1], n) || n in EffectiveSet(calls[|calls| - 1])
  {
    var front := calls[..|calls| - 1];
    if i :| 0 <= i < |front| && n in EffectiveSet(front[i]) {
      assert n in EffectiveSet(calls[i]);
    }
    if i :| 0 <= i < |calls| && n in EffectiveSet(calls[i]) {
      assert i < |front| ==> front[i] == calls[i];
    }
  }

  /** Every name the history ever copies was absent at first and has compatible snapshots. */
  ghost predicate NamesOk(root: Path, w: Workspace, calls: seq<Call>) {
    forall n :: EverEffective(calls, n) ==> AbsentIn(root, w.tree, n) && Compatible(calls, n)
  }

  lemma NamesOkSplit(root: Path, w: Workspace, calls: seq<Call>)
    requires calls != [] && NamesOk(root, w, calls)
    ensures NamesOk(root, w, calls[..|calls| - 1])
  {
    forall n | EverEffective(calls[..|calls| - 1], n)
      ensures AbsentIn(root, w.tree, n) && Compatible(calls[..|calls| - 1], n)
    {
      EverSplit(calls, n);
      CompatibleSplit(calls, n);
    }
  }

  lemma NameFits(root: Path, w: Workspace, calls: seq<Call>, n: string)
    requires Starts(root, w, calls) && calls != [] && AllComplete(root, w, calls[..|calls| - 1])
    requires NamesOk(root, w, calls) && n in EffectiveSet(calls[|calls| - 1])
    ensures var t := After(root, w, calls[..|calls| - 1]).tree;
      n in calls[|calls| - 1].source && Fits(Rooted(root, t), root + [n], calls[|calls| - 1].source[n])
  {
    var front, call := calls[..|calls| - 1], calls[|calls| - 1];
    StartsSplit(root, w, calls);
    EverSplit(calls, n);
    CompatibleSplit(calls, n);
    ManagedDirectory(root, w, front, n);
    EffectiveNames(call);
    assert CompatibleAt(calls, n, |front|);
    RootedHolds(root, After(root, w, front).tree, n, Expected(front, n));
    MergesFits(Rooted(root, After(root, w, front).tree), root + [n], call.source[n], Expected(front, n));
  }

  /** Such histories complete: no call raises. */
  lemma {:induction false} CompatibleCompletes(root: Path, w: Workspace, calls: seq<Call>)
    requires Starts(root, w, calls) && RootOk(root, w.tree) && NamesOk(root, w, calls)
    ensures AllComplete(root, w, calls)
  {
    if calls != [] {
      var front, call := calls[..|calls| - 1], calls[|calls| - 1];
      StartsSplit(root, w, calls);
      NamesOkSplit(root, w, calls);
      CompatibleCompletes(root, w, front);
      RootAlwaysOk(root, w, front);
      NextIsPlain(root, w, calls);
      forall n | n in EffectiveSet(call)
        ensures n in call.source && Fits(Rooted(root, After(root, w, front).tree), root + [n], call.source[n])
      {
        NameFits(root, w, calls, n);
      }
      CompletesIff(root, After(root, w, front), call);
      CompleteSplit(root, w, calls);
    }
  }

  // ----- Paths and names after a history -----

  lemma {:induction false} ManagedWasEffective(root: Path, w: Workspace, calls: seq<Call>, n: string)
    requires Managed(w.manifest) == {} && n in Managed(After(root, w, calls).manifest)
    ensures EverEffective(calls, n)
  {
    if calls != [] {
      ManagedAfter(root, After(root, w, calls[..|calls| - 1]), calls[|calls| - 1]);
      EverSplit(calls, n);
      if n in Managed(After(root, w, calls[..|calls| - 1]).manifest) {
        ManagedWasEffective(root, w, calls[..|calls| - 1], n);
      }
    }
  }

  /** A path under a name that was never effective is as it was before the first call, whether the
      calls completed or not. */
  lemma {:induction false} UserPathUntouched(root: Path, w: Workspace, calls: seq<Call>, q: Path)
    requires Starts(root, w, calls) && Inside(root, q) && !EverEffective(calls, NameOf(root, q))
    ensures SameAt(w.tree, After(root, w, calls).tree, q)
  {
    if calls != [] {
      var front, n := calls[..|calls| - 1], NameOf(root, q);
      StartsSplit(root, w, calls);
      EverSplit(calls, n);
      UserPathUntouched(root, w, front, q);
      NextIsPlain(root, w, calls);
      if n in Managed(After(root, w, front).manifest) {
        ManagedWasEffective(root, w, front, n);
      }
      ProvisionFrame(root, After(root, w, front), calls[|calls| - 1], q);
    }
  }

  lemma NameIsNoAncestor(root: Path, n: string)
    ensures !(root + [n] <= root) && Inside(root, root + [n]) && NameOf(root, root + [n]) == n
    ensures RestOf(root, root + [n]) == []
  {
    UnderName(root, n, root + [n]);
  }

  lemma NameMade(root: Path, call: Call, n: string)
    requires AllListed(call) && n in EffectiveSet(call)
    ensures Makes(root, call, EffectiveSet(call), root + [n])
  {
    NameIsNoAncestor(root, n);
    EffectiveNames(call);
    FoldersAre(call.source[n], []);
    assert call.source[n][0] == Folder([]);
  }

  /** Which names have directories after a completed call. */
  lemma NameAt(root: Path, w: Workspace, call: Call, n: string)
    requires Plain(root, w, call) && Provision(root, w, call).1.Some?
    ensures root + [n] in Provision(root, w, call).0.tree.dirs <==>
            n in EffectiveSet(call) || (root + [n] in w.tree.dirs && n !in Managed(w.manifest))
  {
    NameIsNoAncestor(root, n);
    ProvisionedAt(root, w, call, root + [n]);
    CompletedCopies(root, w, call);
    ObsoleteStraight(root, w, call, w.tree.links);
    MadeByIs(root);
    if n in EffectiveSet(call) {
      NameMade(root, call, n);
    }
  }

  /** The names on disk are the last effective set and the user's own names. */
  lemma {:induction false} NamesOnDisk(root: Path, w: Workspace, calls: seq<Call>, n: string)
    requires Starts(root, w, calls) && AllComplete(root, w, calls)
    requires EverEffective(calls, n) ==> root + [n] !in w.tree.dirs
    ensures root + [n] in After(root, w, calls).tree.dirs <==>
            n in LastEffective(calls) || (root + [n] in w.tree.dirs && !EverEffective(calls, n))
  {
    if calls != [] {
      var front := calls[..|calls| - 1];
      StartsSplit(root, w, calls);
      CompleteSplit(root, w, calls);
      EverSplit(calls, n);
      NamesOnDisk(root, w, front, n);
      ManifestTracks(root, w, front);
      NextIsPlain(root, w, calls);
      NameAt(root, After(root, w, front), calls[|calls| - 1], n);
      if n in LastEffective(front) {
        LastWasEver(front, n);
      }
    }
  }

  lemma LastWasEver(calls: seq<Call>, n: string)
    requires n in LastEffective(calls)
    ensures EverEffective(calls, n)
  {
    assert n in EffectiveSet(calls[|calls| - 1]);
  }

  /** A call revokes exactly the previous effective set minus its own, in sorted order. */
  lemma RevokedIsDifference(root: Path, w: Workspace, calls: seq<Call>, call: Call)
    requires Starts(root, w, calls + [call]) && AllComplete(root, w, calls)
    requires Provision(root, After(root, w, calls), call).1.Some?
    requires forall n :: n in LastEffective(calls) ==> root + [n] !in w.tree.dirs
    ensures Provision(root, After(root, w, calls), call).1.value.revoked ==
            Sorted(LastEffective(calls) - EffectiveSet(call))
  {
    var before := After(root, w, calls);
    assert (calls + [call])[..|calls|] == calls;
    StartsSplit(root, w, calls + [call]);
    NextIsPlain(root, w, calls + [call]);
    ManifestTracks(root, w, calls);
    var names := Sorted(LastEffective(calls) - EffectiveSet(call));
    var t := Copies(root, before, call).t;
    CompletedCopies(root, before, call);
    ObsoleteStraight(root, before, call, t.links);
    forall i | 0 <= i < |names| ensures root + [names[i]] in t.dirs {
      assert names[i] in names;
      NamesOnDisk(root, w, calls, names[i]);
    }
    AllRevoked(root, t, names);
  }
}
