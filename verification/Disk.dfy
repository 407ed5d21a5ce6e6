/** Paths, and a disk of directories, regular files and symbolic links, with the parts of `os.path`
    and `shutil` that provisioning uses. */
module Disk {
  import opened Wrappers

  type Path = seq<string>

  /** `links` says for each symbolic link to which path it leads once all links are followed. */
  datatype Tree = Tree(files: map<Path, string>, dirs: set<Path>, links: map<Path, Path>)

  function Last(p: Path): string
    requires p != []
  {
    p[|p| - 1]
  }

  function Parent(p: Path): Path
    requires p != []
  {
    p[..|p| - 1]
  }

  /** `os.path.realpath`. */
  function Resolve(links: map<Path, Path>, p: Path): Path {
    if p == [] then []
    else
      var q := Resolve(links, Parent(p)) + [Last(p)];
      if q in links then links[q] else q
  }

  /** The last component of `p` is a symbolic link. */
  predicate IsLink(links: map<Path, Path>, p: Path) {
    p != [] && Resolve(links, Parent(p)) + [Last(p)] in links
  }

  /** `os.path.commonpath` of two absolute paths. */
  function CommonPath(a: Path, b: Path): Path {
    if a == [] || b == [] || a[0] != b[0] then [] else [a[0]] + CommonPath(a[1..], b[1..])
  }

  lemma {:induction false} CommonPathIs(a: Path, b: Path)
    ensures CommonPath(a, b) == a <==> a <= b
  {
    if a != [] && b != [] && a[0] == b[0] {
      CommonPathIs(a[1..], b[1..]);
      assert a == [a[0]] + a[1..] && b == [b[0]] + b[1..];
      if a <= b {
        assert a[1..] == b[1..][..|a| - 1];
      }
    }
  }

  /** One entry of a directory that is copied, by its path below it. Links in the source are
      followed, so an entry is a directory or a file. */
  datatype Item = Folder(at: Path) | Regular(at: Path, content: string)

  /** The entries in the order in which `copytree` comes to them: the directory itself, then every
      entry after the folder it is in. */
  predicate Listing(items: seq<Item>) {
    && items != [] && items[0] == Folder([])
    && (forall i :: 0 < i < |items| ==> items[i].at != [] && FolderBefore(items, i, Parent(items[i].at)))
    && (forall i, j :: 0 <= i < j < |items| ==> items[i].at != items[j].at)
  }

  predicate FolderBefore(items: seq<Item>, i: nat, at: Path)
    requires i <= |items|
  {
    exists j :: 0 <= j < i && items[j] == Folder(at)
  }

  /** What copying one entry does: nothing to be done, one path written, or an error. */
  datatype Landing = Nothing | Writes(p: Path) | Fails

  /** Where copying an entry to `p` lands. `os.makedirs` takes an existing directory, also behind a
      link, but no file and no link that leads nowhere. `copy2` writes through links, puts a file
      into the directory it meets, and needs the directory it writes to. */
  function LandingOf(t: Tree, p: Path, item: Item): Landing
    requires p != []
  {
    var target := Resolve(t.links, p);
    match item
    case Folder(_) =>
      if target in t.dirs then Nothing
      else if target in t.files || IsLink(t.links, p) then Fails
      else Writes(target)
    case Regular(_, _) =>
      var spot := if target in t.dirs then Resolve(t.links, p + [Last(p)]) else target;
      if spot == [] || spot in t.dirs || spot in t.links || Parent(spot) !in t.dirs then Fails
      else Writes(spot)
  }

  function Put(t: Tree, p: Path, item: Item): Tree {
    match item
    case Folder(_) => t.(dirs := t.dirs + {p})
    case Regular(_, content) => t.(files := t.files[p := content])
  }

  /** A copy under way: the disk, the entries that could not be copied, and what was written where,
      None for a directory and a file's content. */
  datatype Copy = Copy(t: Tree, failed: set<Path>, landed: map<Path, Option<string>>)

  function Start(t: Tree): Copy {
    Copy(t, {}, map[])
  }

  function ContentOf(item: Item): Option<string> {
    if item.Regular? then Some(item.content) else None
  }

  /** `shutil.copytree` goes on after an error, but not into a folder it could not make. */
  function CopyItem(c: Copy, dst: Path, item: Item): Copy
    requires dst != []
  {
    if exists f :: f in c.failed && f <= item.at then c
    else
      match LandingOf(c.t, dst + item.at, item)
      case Nothing => c
      case Fails => c.(failed := c.failed + {item.at})
      case Writes(p) => c.(t := Put(c.t, p, item), landed := c.landed[p := ContentOf(item)])
  }

  function CopyItems(c: Copy, dst: Path, items: seq<Item>): Copy
    requires dst != []
  {
    if items == [] then c
    else CopyItem(CopyItems(c, dst, items[..|items| - 1]), dst, items[|items| - 1])
  }

  /** `shutil.copytree(src, dst, dirs_exist_ok=True)`; it raises if an entry failed. */
  function CopyTree(t: Tree, dst: Path, items: seq<Item>): Copy
    requires dst != []
  {
    CopyItems(Start(t), dst, items)
  }

  /** `shutil.rmtree(p)`: links below are removed, not followed. */
  function RemoveTree(t: Tree, p: Path): Tree {
    Tree(map q | q in t.files && !(p <= q) :: t.files[q],
         set q | q in t.dirs && !(p <= q),
         map q | q in t.links && !(p <= q) :: t.links[q])
  }

  /** The paths that `os.makedirs(p)` makes sure of. */
  function MadeBy(p: Path): set<Path> {
    set i | 0 <= i <= |p| :: p[..i]
  }

  lemma MadeByIs(p: Path)
    ensures forall q :: q in MadeBy(p) <==> q <= p
  {
    forall q | q <= p ensures q in MadeBy(p) {
      assert q == p[..|q|];
    }
  }

  // ----- What copying one entry does, whatever the links -----

  /** Where the file copied to `p` can be read afterwards: where `p` leads, or, if that was a
      directory, under its own name in it. */
  function FileAt(t: Tree, p: Path): Path
    requires p != []
  {
    if Resolve(t.links, p) in t.dirs then Resolve(t.links, p + [Last(p)]) else Resolve(t.links, p)
  }

  /** An entry that does not fail arrives: a folder leads to a directory afterwards, a file holds its
      content in a directory that exists. An entry fails exactly if a folder finds a file, or a link
      that leads to no directory; or a file would land on a directory, on a link that leads nowhere
      else than to itself, or in no directory. A failing entry changes nothing. */
  lemma EntryArrives(t: Tree, dst: Path, item: Item)
    requires dst != [] && Disjoint(t)
    ensures var c, p := CopyItem(Start(t), dst, item), dst + item.at;
      && c.t.links == t.links
      && (c.failed == {} ==>
            if item.Folder? then Resolve(t.links, p) in c.t.dirs
            else FileAt(t, p) in c.t.files && c.t.files[FileAt(t, p)] == item.content &&
                 FileAt(t, p) != [] && Parent(FileAt(t, p)) in c.t.dirs)
      && (c.failed != {} ==> c == Copy(t, {item.at}, map[]))
      && (c.failed != {} <==>
            if item.Folder? then
              Resolve(t.links, p) !in t.dirs && (Resolve(t.links, p) in t.files || IsLink(t.links, p))
            else
              FileAt(t, p) == [] || FileAt(t, p) in t.dirs || FileAt(t, p) in t.links ||
              Parent(FileAt(t, p)) !in t.dirs)
  {
  }

  // ----- Where copies land, whatever the links -----

  function LandedFiles(landed: map<Path, Option<string>>): map<Path, string> {
    map p | p in landed && landed[p].Some? :: landed[p].value
  }

  function LandedDirs(landed: map<Path, Option<string>>): set<Path> {
    set p | p in landed && landed[p].None?
  }

  /** The disk after is the disk before with what landed on top; no directory lands twice. */
  ghost predicate Overlays(t: Tree, t': Tree, landed: map<Path, Option<string>>) {
    && t'.files == t.files + LandedFiles(landed)
    && t'.dirs == t.dirs + LandedDirs(landed)
    && LandedDirs(landed) !! t.dirs
    && t'.links == t.links
  }

  /** No path is both a file and a directory. */
  ghost predicate Disjoint(t: Tree) {
    t.files.Keys !! t.dirs
  }

  lemma FileOverlays(t: Tree, t': Tree, landed: map<Path, Option<string>>, p: Path, content: string)
    requires Overlays(t, t', landed) && p !in t'.dirs
    ensures Overlays(t, t'.(files := t'.files[p := content]), landed[p := Some(content)])
  {
    assert p !in LandedDirs(landed);
    assert LandedFiles(landed[p := Some(content)]) == LandedFiles(landed)[p := content];
    assert LandedDirs(landed[p := Some(content)]) == LandedDirs(landed);
  }

  lemma FolderOverlays(t: Tree, t': Tree, landed: map<Path, Option<string>>, p: Path)
    requires Overlays(t, t', landed) && p !in t'.files && p !in t'.dirs
    ensures Overlays(t, t'.(dirs := t'.dirs + {p}), landed[p := None])
  {
    assert p !in LandedFiles(landed);
    assert LandedFiles(landed[p := None]) == LandedFiles(landed);
    assert LandedDirs(landed[p := None]) == LandedDirs(landed) + {p};
  }

  lemma ItemOverlays(t: Tree, c: Copy, dst: Path, item: Item)
    requires dst != [] && Disjoint(c.t) && Overlays(t, c.t, c.landed)
    ensures var c' := CopyItem(c, dst, item); Disjoint(c'.t) && Overlays(t, c'.t, c'.landed)
  {
    match LandingOf(c.t, dst + item.at, item)
    case Writes(p) =>
      if item.Folder? {
        FolderOverlays(t, c.t, c.landed, p);
      } else {
        FileOverlays(t, c.t, c.landed, p, item.content);
      }
    case _ =>
  }

  /** A copy writes what landed, where it landed, and nothing else. */
  lemma {:induction false} CopyOverlays(t: Tree, c: Copy, dst: Path, items: seq<Item>)
    requires dst != [] && Disjoint(c.t) && Overlays(t, c.t, c.landed)
    ensures var c' := CopyItems(c, dst, items); Disjoint(c'.t) && Overlays(t, c'.t, c'.landed)
  {
    if items != [] {
      CopyOverlays(t, c, dst, items[..|items| - 1]);
      ItemOverlays(t, CopyItems(c, dst, items[..|items| - 1]), dst, items[|items| - 1]);
    }
  }

  /** Every path written is that of an entry, resolved, or lies one deeper, where a file meets a
      directory. */
  ghost predicate LandsFrom(links: map<Path, Path>, dst: Path, item: Item, p: Path)
    requires dst != []
  {
    || p == Resolve(links, dst + item.at)
    || p == Resolve(links, dst + item.at + [Last(dst + item.at)])
  }

  ghost predicate FromSome(links: map<Path, Path>, dst: Path, items: seq<Item>, p: Path)
    requires dst != []
  {
    exists i :: 0 <= i < |items| && LandsFrom(links, dst, items[i], p)
  }

  lemma FromSomeSnoc(links: map<Path, Path>, dst: Path, front: seq<Item>, last: Item, p: Path)
    requires dst != [] && (FromSome(links, dst, front, p) || LandsFrom(links, dst, last, p))
    ensures FromSome(links, dst, front + [last], p)
  {
    if LandsFrom(links, dst, last, p) {
      assert (front + [last])[|front|] == last;
    } else {
      var i :| 0 <= i < |front| && LandsFrom(links, dst, front[i], p);
      assert (front + [last])[i] == front[i];
    }
  }

  lemma ItemLandsFrom(c: Copy, dst: Path, item: Item, p: Path)
    requires dst != []
    ensures var c' := CopyItem(c, dst, item);
      && c'.t.links == c.t.links && c.landed.Keys <= c'.landed.Keys
      && (p in c'.landed ==> p in c.landed || LandsFrom(c.t.links, dst, item, p))
  {
  }

  lemma {:induction false} LandedFrom(c: Copy, dst: Path, items: seq<Item>, p: Path)
    requires dst != []
    ensures var c' := CopyItems(c, dst, items);
      && c'.t.links == c.t.links && c.landed.Keys <= c'.landed.Keys
      && (p in c'.landed ==> p in c.landed || FromSome(c.t.links, dst, items, p))
  {
    if items != [] {
      var front, last := items[..|items| - 1], items[|items| - 1];
      LandedFrom(c, dst, front, p);
      ItemLandsFrom(CopyItems(c, dst, front), dst, last, p);
      assert items == front + [last];
      if p in CopyItems(c, dst, items).landed && p !in c.landed {
        FromSomeSnoc(c.t.links, dst, front, last, p);
      }
    }
  }

  lemma CopyNext(c: Copy, dst: Path, items: seq<Item>, k: nat)
    requires dst != [] && k < |items|
    ensures CopyItems(c, dst, items[..k + 1]) == CopyItem(CopyItems(c, dst, items[..k]), dst, items[k])
  {
    assert items[..k + 1][..k] == items[..k];
  }

  /** A copy does not lose errors, files or directories. */
  lemma {:induction false} CopyGrows(c: Copy, dst: Path, items: seq<Item>, k: nat)
    requires dst != [] && k <= |items|
    ensures var c1, c2 := CopyItems(c, dst, items[..k]), CopyItems(c, dst, items);
      && c1.failed <= c2.failed && c1.t.files.Keys <= c2.t.files.Keys && c1.t.dirs <= c2.t.dirs
    decreases |items|
  {
    if k == |items| {
      assert items[..k] == items;
    } else {
      CopyGrows(c, dst, items[..|items| - 1], k);
      assert items[..|items| - 1][..k] == items[..k];
    }
  }
}
