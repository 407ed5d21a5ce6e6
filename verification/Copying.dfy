/** What `copytree` does where no symbolic link is in the way: when it succeeds, what it writes,
    and when that is the merge of the source into the destination. */
module Copying {
  import opened Wrappers
  import opened Disk

  /** No link above, at or below `dst`. */
  ghost predicate Direct(links: map<Path, Path>, dst: Path) {
    forall l :: l in links ==> !(l <= dst) && !(dst <= l)
  }

  /** No link in the way to `p`. */
  ghost predicate Straight(links: map<Path, Path>, p: Path) {
    forall l :: l in links ==> !(l <= p)
  }

  lemma {:induction false} ResolveStraight(links: map<Path, Path>, p: Path)
    requires Straight(links, p)
    ensures Resolve(links, p) == p && !IsLink(links, p) && p !in links
  {
    if p != [] {
      ResolveStraight(links, Parent(p));
      assert Parent(p) + [Last(p)] == p;
    }
  }

  lemma ResolveDirect(links: map<Path, Path>, dst: Path, q: Path)
    requires Direct(links, dst) && (q <= dst || dst <= q)
    ensures Resolve(links, q) == q && !IsLink(links, q) && q !in links
  {
    forall l | l in links ensures !(l <= q) {
      assert l <= q && dst <= q ==> l <= dst || dst <= l;
    }
    ResolveStraight(links, q);
  }

  lemma LandsBelow(links: map<Path, Path>, dst: Path, item: Item, p: Path)
    requires dst != [] && Direct(links, dst) && LandsFrom(links, dst, item, p)
    ensures dst <= p
  {
    var at := dst + item.at;
    ResolveDirect(links, dst, at);
    ResolveDirect(links, dst, at + [Last(at)]);
  }

  lemma FromSomeBelow(links: map<Path, Path>, dst: Path, items: seq<Item>, p: Path)
    requires dst != [] && Direct(links, dst) && FromSome(links, dst, items, p)
    ensures dst <= p
  {
    var i :| 0 <= i < |items| && LandsFrom(links, dst, items[i], p);
    LandsBelow(links, dst, items[i], p);
  }

  /** The folders and the files of a listing, a later entry of the same path winning. */
  function Folders(items: seq<Item>): set<Path> {
    if items == [] then {}
    else
      var last := items[|items| - 1];
      Folders(items[..|items| - 1]) + if last.Folder? then {last.at} else {}
  }

  function Files(items: seq<Item>): map<Path, string> {
    if items == [] then map[]
    else
      var last, front := items[|items| - 1], Files(items[..|items| - 1]);
      if last.Regular? then front[last.at := last.content] else front
  }

  lemma {:induction false} FoldersAre(items: seq<Item>, at: Path)
    ensures at in Folders(items) <==> exists i :: 0 <= i < |items| && items[i] == Folder(at)
  {
    if items != [] {
      var front, n := items[..|items| - 1], |items| - 1;
      FoldersAre(front, at);
      assert forall i :: 0 <= i < n ==> front[i] == items[i];
    }
  }

  /** Where a file of the source lands: at its path, or, if that is a directory, in it. */
  function Spot(t: Tree, dst: Path, at: Path): Path
    requires at != []
  {
    if dst + at in t.dirs then dst + at + [Last(at)] else dst + at
  }

  predicate LandsAt(t: Tree, dst: Path, item: Item, q: Path) {
    item.Regular? && item.at != [] && Spot(t, dst, item.at) == q
  }

  /** The content of the last file that lands at `q`. */
  function Lander(t: Tree, dst: Path, items: seq<Item>, q: Path): Option<string> {
    if items == [] then None
    else if LandsAt(t, dst, items[|items| - 1], q) then Some(items[|items| - 1].content)
    else Lander(t, dst, items[..|items| - 1], q)
  }

  lemma {:induction false} LanderIs(t: Tree, dst: Path, items: seq<Item>, q: Path) returns (i: int)
    requires Lander(t, dst, items, q).Some?
    ensures 0 <= i < |items| && LandsAt(t, dst, items[i], q)
  {
    i := |items| - 1;
    if !LandsAt(t, dst, items[i], q) {
      i := LanderIs(t, dst, items[..i], q);
    }
  }

  /** No folder of the source meets a file, and no file lands on a directory. */
  ghost predicate ItemFits(t: Tree, dst: Path, item: Item) {
    match item
    case Folder(at) => dst + at !in t.files
    case Regular(at, _) => at != [] && Spot(t, dst, at) !in t.dirs
  }

  ghost predicate Fits(t: Tree, dst: Path, items: seq<Item>) {
    forall i :: 0 <= i < |items| ==> ItemFits(t, dst, items[i])
  }

  /** `t'` is `t` with the source copied to `dst`. */
  ghost predicate Shows(t: Tree, dst: Path, items: seq<Item>, t': Tree) {
    && t'.links == t.links
    && (forall q :: q in t'.files <==> q in t.files || Lander(t, dst, items, q).Some?)
    && (forall q :: q in t'.files ==>
          t'.files[q] == if Lander(t, dst, items, q).Some? then Lander(t, dst, items, q).value else t.files[q])
    && (forall q :: q in t'.dirs <==> q in t.dirs || (dst <= q && q[|dst|..] in Folders(items)))
  }

  // ----- Paths of a listing stay apart -----

  lemma ParentIsNoFile(items: seq<Item>, i: nat, j: nat)
    requires Listing(items) && i < |items| && items[i].Regular? && j < |items| && items[j].at != []
    ensures Parent(items[j].at) != items[i].at
  {
    assert FolderBefore(items, j, Parent(items[j].at));
    var k :| 0 <= k < j && items[k] == Folder(Parent(items[j].at));
    assert k < i || i < k;
  }

  /** A file of a listing is no folder of it, and no folder of it lies below a file. */
  lemma FileAlone(items: seq<Item>, i: nat, x: string)
    requires Listing(items) && i < |items| && items[i].Regular?
    ensures items[i].at !in Folders(items) && items[i].at + [x] !in Folders(items)
  {
    var at := items[i].at;
    FoldersAre(items, at);
    FoldersAre(items, at + [x]);
    assert Parent(at + [x]) == at;
    forall j | 0 <= j < |items| && items[j].Folder? ensures items[j].at != at && items[j].at != at + [x] {
      assert i < j || j < i;
      if items[j].at != [] {
        ParentIsNoFile(items, i, j);
      }
    }
  }

  lemma {:induction false} FoldersGrow(items: seq<Item>, k: nat)
    requires k <= |items|
    ensures Folders(items[..k]) <= Folders(items)
    decreases |items|
  {
    if k == |items| {
      assert items[..k] == items;
    } else {
      FoldersGrow(items[..|items| - 1], k);
      assert items[..|items| - 1][..k] == items[..k];
    }
  }

  lemma Tail(dst: Path, at: Path, x: string)
    ensures dst <= dst + at && (dst + at)[|dst|..] == at
    ensures dst <= dst + at + [x] && (dst + at + [x])[|dst|..] == at + [x]
  {
    assert dst + at + [x] == dst + (at + [x]);
  }

  /** No folder of a listing is where one of its files lands. */
  lemma NoLanderOnFolder(t: Tree, dst: Path, items: seq<Item>, at: Path, k: nat)
    requires Listing(items) && at in Folders(items) && k <= |items|
    ensures Lander(t, dst, items[..k], dst + at).None?
  {
    if Lander(t, dst, items[..k], dst + at).Some? {
      var i := LanderIs(t, dst, items[..k], dst + at);
      var f := items[i].at;
      FileAlone(items, i, Last(f));
      Tail(dst, f, Last(f));
      Tail(dst, at, "");
    }
  }

  // ----- One entry -----

  lemma FolderLands(t: Tree, dst: Path, items: seq<Item>, k: nat, c: Copy)
    requires dst != [] && Direct(t.links, dst) && Listing(items) && k < |items| && items[k].Folder?
    requires ItemFits(t, dst, items[k]) && Shows(t, dst, items[..k], c.t)
    ensures var p := dst + items[k].at;
      LandingOf(c.t, p, items[k]) == if p in c.t.dirs then Nothing else Writes(p)
  {
    var at := items[k].at;
    Tail(dst, at, "");
    ResolveDirect(t.links, dst, dst + at);
    FoldersAre(items, at);
    NoLanderOnFolder(t, dst, items, at, k);
  }

  /** While the files of a listing are copied, its own folders do not change where they land. */
  lemma SpotStays(t: Tree, dst: Path, items: seq<Item>, i: nat, front: seq<Item>, dirs: set<Path>)
    requires Listing(items) && i < |items| && items[i].Regular? && items[i].at != []
    requires Folders(front) <= Folders(items)
    requires forall q :: q in dirs <==> q in t.dirs || (dst <= q && q[|dst|..] in Folders(front))
    ensures dst + items[i].at in dirs <==> dst + items[i].at in t.dirs
    ensures Spot(t, dst, items[i].at) in dirs <==> Spot(t, dst, items[i].at) in t.dirs
  {
    var at := items[i].at;
    FileAlone(items, i, Last(at));
    Tail(dst, at, Last(at));
  }

  lemma ParentMade(t: Tree, dst: Path, items: seq<Item>, k: nat, dirs: set<Path>)
    requires Listing(items) && 0 < k < |items| && items[k].Regular?
    requires forall q :: q in dirs <==> q in t.dirs || (dst <= q && q[|dst|..] in Folders(items[..k]))
    ensures Parent(Spot(t, dst, items[k].at)) in dirs
  {
    var at := items[k].at;
    if dst + at in t.dirs {
      assert Parent(dst + at + [Last(at)]) == dst + at;
    } else {
      assert Parent(dst + at) == dst + Parent(at);
      assert FolderBefore(items, k, Parent(at));
      var j :| 0 <= j < k && items[j] == Folder(Parent(at));
      assert items[..k][j] == Folder(Parent(at));
      FoldersAre(items[..k], Parent(at));
      Tail(dst, Parent(at), "");
    }
  }

  lemma FileLands(t: Tree, dst: Path, items: seq<Item>, k: nat, c: Copy)
    requires dst != [] && Direct(t.links, dst) && Listing(items) && k < |items| && items[k].Regular?
    requires ItemFits(t, dst, items[k]) && Shows(t, dst, items[..k], c.t)
    ensures LandingOf(c.t, dst + items[k].at, items[k]) == Writes(Spot(t, dst, items[k].at))
  {
    var at := items[k].at;
    Tail(dst, at, Last(at));
    ResolveDirect(t.links, dst, dst + at);
    ResolveDirect(t.links, dst, dst + at + [Last(at)]);
    FoldersGrow(items, k);
    SpotStays(t, dst, items, k, items[..k], c.t.dirs);
    ParentMade(t, dst, items, k, c.t.dirs);
    assert Last(dst + at) == Last(at);
  }

  lemma LanderNext(t: Tree, dst: Path, items: seq<Item>, k: nat, q: Path)
    requires k < |items|
    ensures Lander(t, dst, items[..k + 1], q) ==
            if LandsAt(t, dst, items[k], q) then Some(items[k].content) else Lander(t, dst, items[..k], q)
  {
    assert items[..k + 1][..k] == items[..k] && items[..k + 1][k] == items[k];
  }

  lemma FoldersNext(items: seq<Item>, k: nat)
    requires k < |items|
    ensures Folders(items[..k + 1]) == Folders(items[..k]) + if items[k].Folder? then {items[k].at} else {}
  {
    assert items[..k + 1][..k] == items[..k] && items[..k + 1][k] == items[k];
  }

  lemma FolderShows(t: Tree, dst: Path, items: seq<Item>, k: nat, t': Tree)
    requires k < |items| && items[k].Folder? && Shows(t, dst, items[..k], t')
    ensures Shows(t, dst, items[..k + 1], t'.(dirs := t'.dirs + {dst + items[k].at}))
  {
    Tail(dst, items[k].at, "");
    forall q ensures Lander(t, dst, items[..k + 1], q) == Lander(t, dst, items[..k], q) {
      LanderNext(t, dst, items, k, q);
    }
    FoldersNext(items, k);
    forall q | dst <= q && q[|dst|..] == items[k].at ensures q == dst + items[k].at {}
  }

  lemma FileShows(t: Tree, dst: Path, items: seq<Item>, k: nat, t': Tree)
    requires k < |items| && items[k].Regular? && items[k].at != [] && Shows(t, dst, items[..k], t')
    ensures var spot := Spot(t, dst, items[k].at);
      Shows(t, dst, items[..k + 1], t'.(files := t'.files[spot := items[k].content]))
  {
    forall q ensures Lander(t, dst, items[..k + 1], q) ==
                     if LandsAt(t, dst, items[k], q) then Some(items[k].content) else Lander(t, dst, items[..k], q) {
      LanderNext(t, dst, items, k, q);
    }
    FoldersNext(items, k);
  }

  /** Copying the first `k` entries succeeds and shows them. */
  ghost predicate GoesWell(t: Tree, dst: Path, items: seq<Item>, c: Copy) {
    c.failed == {} && Shows(t, dst, items, c.t)
  }

  lemma FolderGoesWell(t: Tree, dst: Path, items: seq<Item>, k: nat, c: Copy)
    requires dst != [] && Direct(t.links, dst) && Listing(items) && k < |items| && items[k].Folder?
    requires ItemFits(t, dst, items[k]) && GoesWell(t, dst, items[..k], c)
    ensures GoesWell(t, dst, items[..k + 1], CopyItem(c, dst, items[k]))
  {
    var p := dst + items[k].at;
    FolderLands(t, dst, items, k, c);
    FolderShows(t, dst, items, k, c.t);
    assert p in c.t.dirs ==> c.t.(dirs := c.t.dirs + {p}) == c.t;
  }

  lemma FileGoesWell(t: Tree, dst: Path, items: seq<Item>, k: nat, c: Copy)
    requires dst != [] && Direct(t.links, dst) && Listing(items) && k < |items| && items[k].Regular?
    requires ItemFits(t, dst, items[k]) && GoesWell(t, dst, items[..k], c)
    ensures GoesWell(t, dst, items[..k + 1], CopyItem(c, dst, items[k]))
  {
    FileLands(t, dst, items, k, c);
    FileShows(t, dst, items, k, c.t);
  }

  /** Where everything fits, a copy succeeds and shows the source. */
  lemma {:induction false} CopyGoesWell(t: Tree, dst: Path, items: seq<Item>, k: nat, landed: map<Path, Option<string>>)
    requires dst != [] && Direct(t.links, dst) && Listing(items) && k <= |items|
    requires forall i :: 0 <= i < k ==> ItemFits(t, dst, items[i])
    ensures GoesWell(t, dst, items[..k], CopyItems(Copy(t, {}, landed), dst, items[..k]))
  {
    if k > 0 {
      CopyGoesWell(t, dst, items, k - 1, landed);
      var c := CopyItems(Copy(t, {}, landed), dst, items[..k - 1]);
      if items[k - 1].Folder? {
        FolderGoesWell(t, dst, items, k - 1, c);
      } else {
        FileGoesWell(t, dst, items, k - 1, c);
      }
      CopyNext(Copy(t, {}, landed), dst, items, k - 1);
    }
  }

  /** An entry that does not fit fails. */
  lemma EntryFails(t: Tree, dst: Path, item: Item, c: Copy)
    requires dst != [] && Direct(t.links, dst) && !ItemFits(t, dst, item) && (item.Regular? ==> item.at != [])
    requires c.t.links == t.links && t.files.Keys <= c.t.files.Keys && t.dirs <= c.t.dirs && Disjoint(c.t)
    ensures CopyItem(c, dst, item).failed != {}
  {
    Tail(dst, item.at, "");
    ResolveDirect(t.links, dst, dst + item.at);
    if item.Regular? {
      assert Last(dst + item.at) == Last(item.at);
      Tail(dst, item.at, Last(item.at));
      ResolveDirect(t.links, dst, dst + item.at + [Last(item.at)]);
      assert LandingOf(c.t, dst + item.at, item) == Fails;
    } else {
      assert LandingOf(c.t, dst + item.at, item) == Fails;
    }
  }

  /** A copy succeeds exactly if every entry fits. */
  lemma CopySucceedsIff(t: Tree, dst: Path, items: seq<Item>, landed: map<Path, Option<string>>)
    requires dst != [] && Direct(t.links, dst) && Listing(items) && Disjoint(t)
    ensures CopyItems(Copy(t, {}, landed), dst, items).failed == {} <==> Fits(t, dst, items)
  {
    assert items[..|items|] == items;
    if Fits(t, dst, items) {
      CopyGoesWell(t, dst, items, |items|, landed);
    } else {
      var i :| 0 <= i < |items| && !ItemFits(t, dst, items[i]);
      MisfitFails(t, dst, items, landed, i);
    }
  }

  lemma MisfitFails(t: Tree, dst: Path, items: seq<Item>, landed: map<Path, Option<string>>, i: nat)
    requires dst != [] && Direct(t.links, dst) && Listing(items) && Disjoint(t)
    requires i < |items| && !ItemFits(t, dst, items[i])
    ensures CopyItems(Copy(t, {}, landed), dst, items).failed != {}
  {
    var c0 := Copy(t, {}, landed);
    var c := CopyItems(c0, dst, items[..i]);
    assert items[..i][..0] == [];
    CopyNext(c0, dst, items, i);
    CopyGrows(c0, dst, items[..i], 0);
    CopyGrows(c0, dst, items, i + 1);
    LandedFrom(c0, dst, items[..i], []);
    CopyDisjoint(c0, dst, items[..i]);
    EntryFails(t, dst, items[i], c);
  }

  lemma {:induction false} CopyDisjoint(c: Copy, dst: Path, items: seq<Item>)
    requires dst != [] && Disjoint(c.t)
    ensures Disjoint(CopyItems(c, dst, items).t)
  {
    if items != [] {
      CopyDisjoint(c, dst, items[..|items| - 1]);
    }
  }

  // ----- When a copy is a merge -----

  datatype Content = Content(files: map<Path, string>, dirs: set<Path>)

  const NOTHING := Content(map[], {})

  /** What lies under `dir`, itself included as the empty path, is exactly `content`. */
  ghost predicate Holds(d: Tree, dir: Path, content: Content) {
    forall r: Path ::
      && (dir + r in d.files <==> r in content.files)
      && (r in content.files ==> d.files[dir + r] == content.files[r])
      && (dir + r in d.dirs <==> r in content.dirs)
  }

  /** A directory with a source copied over it, the source's files winning. */
  function Merge(content: Content, items: seq<Item>): Content {
    Content(content.files + Files(items), content.dirs + Folders(items))
  }

  /** No folder of the source meets a file, and no file of the source meets a directory. */
  ghost predicate ItemMerges(content: Content, item: Item) {
    match item
    case Folder(at) => at !in content.files
    case Regular(at, _) => at !in content.dirs
  }

  ghost predicate Merges(content: Content, items: seq<Item>) {
    forall i :: 0 <= i < |items| ==> ItemMerges(content, items[i])
  }

  lemma MergesFits(t: Tree, dst: Path, items: seq<Item>, content: Content)
    requires Holds(t, dst, content) && Listing(items) && Merges(content, items)
    ensures Fits(t, dst, items)
  {
    forall i | 0 <= i < |items| ensures ItemFits(t, dst, items[i]) {
      assert ItemMerges(content, items[i]);
    }
  }

  /** Files that meet no directory land at their own paths. */
  lemma {:induction false} LanderIsFile(t: Tree, dst: Path, items: seq<Item>, r: Path, k: nat)
    requires Listing(items) && k <= |items|
    requires forall i :: 0 <= i < k && items[i].Regular? ==> dst + items[i].at !in t.dirs
    ensures Lander(t, dst, items[..k], dst + r) ==
            if r in Files(items[..k]) then Some(Files(items[..k])[r]) else None
  {
    if k > 0 {
      LanderIsFile(t, dst, items, r, k - 1);
      assert items[..k][..k - 1] == items[..k - 1];
      if items[k - 1].Regular? {
        Tail(dst, items[k - 1].at, "");
        Tail(dst, r, "");
      }
    }
  }

  lemma MergeShows(t: Tree, dst: Path, items: seq<Item>, content: Content, t': Tree)
    requires Holds(t, dst, content) && Listing(items) && Merges(content, items) && Shows(t, dst, items, t')
    ensures Holds(t', dst, Merge(content, items))
  {
    forall i | 0 <= i < |items| && items[i].Regular? ensures dst + items[i].at !in t.dirs {
      assert ItemMerges(content, items[i]);
    }
    assert items[..|items|] == items;
    var merged := Merge(content, items);
    forall r: Path
      ensures dst + r in t'.files <==> r in merged.files
      ensures r in merged.files ==> t'.files[dst + r] == merged.files[r]
      ensures dst + r in t'.dirs <==> r in merged.dirs
    {
      Tail(dst, r, "");
      LanderIsFile(t, dst, items, r, |items|);
    }
  }

  lemma {:induction false} FilesHave(items: seq<Item>, i: nat)
    requires i < |items| && items[i].Regular?
    ensures items[i].at in Files(items)
  {
    if i < |items| - 1 {
      FilesHave(items[..|items| - 1], i);
    }
  }

  /** A copy succeeds and leaves the merge of the source into what was there exactly if no folder
      of the source meets a file and no file of the source meets a directory. */
  lemma CopyMergesIff(t: Tree, dst: Path, items: seq<Item>, content: Content)
    requires dst != [] && Direct(t.links, dst) && Listing(items) && Disjoint(t) && Holds(t, dst, content)
    ensures var c := CopyTree(t, dst, items);
      c.failed == {} && Holds(c.t, dst, Merge(content, items)) <==> Merges(content, items)
  {
    var c := CopyTree(t, dst, items);
    assert items[..|items|] == items;
    if Merges(content, items) {
      MergesFits(t, dst, items, content);
      CopyGoesWell(t, dst, items, |items|, map[]);
      MergeShows(t, dst, items, content, c.t);
    } else {
      CopyDisjoint(Start(t), dst, items);
      var i :| 0 <= i < |items| && !ItemMerges(content, items[i]);
      ClashIsNoMerge(c.t, dst, items, content, i);
    }
  }

  lemma ClashIsNoMerge(t': Tree, dst: Path, items: seq<Item>, content: Content, i: nat)
    requires i < |items| && !ItemMerges(content, items[i]) && Disjoint(t')
    ensures !Holds(t', dst, Merge(content, items))
  {
    var at := items[i].at;
    if items[i].Folder? {
      FoldersAre(items, at);
    } else {
      FilesHave(items, i);
    }
    assert at in Merge(content, items).files && at in Merge(content, items).dirs;
  }

  lemma StraightPrefix(links: map<Path, Path>, p: Path, q: Path)
    requires Straight(links, p) && q <= p
    ensures Straight(links, q)
  {
    forall l | l in links ensures !(l <= q) {
      assert l <= q ==> l <= p;
    }
  }

  lemma FileGoesInside(t: Tree, dst: Path, x: string, content: string)
    requires dst != [] && Straight(t.links, dst + [x] + [x])
    requires dst + [x] in t.dirs && dst + [x] + [x] !in t.dirs
    ensures LandingOf(t, dst + [x], Regular([x], content)) == Writes(dst + [x] + [x])
  {
    var p := dst + [x];
    assert Parent(p + [x]) == p && Last(p) == x;
    StraightPrefix(t.links, p + [x], p);
    ResolveStraight(t.links, p);
    ResolveStraight(t.links, p + [x]);
  }

  /** A directory that became a file in the source: the copy succeeds, but the stale directory
      stays and the file goes into it. */
  lemma FolderBecomesFile(t: Tree, dst: Path, x: string, content: string)
    requires dst != [] && Straight(t.links, dst + [x] + [x])
    requires dst in t.dirs && dst + [x] in t.dirs && dst + [x] + [x] !in t.dirs
    ensures var c := CopyTree(t, dst, [Folder([]), Regular([x], content)]);
      c.failed == {} && c.t == t.(files := t.files[dst + [x] + [x] := content])
  {
    var items := [Folder([]), Regular([x], content)];
    assert dst <= dst + [x] + [x];
    StraightPrefix(t.links, dst + [x] + [x], dst);
    ResolveStraight(t.links, dst);
    FileGoesInside(t, dst, x, content);
    assert dst + [] == dst && items[..0] == [] && items[..2] == items;
    CopyNext(Start(t), dst, items, 0);
    CopyNext(Start(t), dst, items, 1);
  }
}
