/** What one call may touch, whatever the symbolic links on the disk. */
module ProvisionLinks {
  import opened Wrappers
  import opened Disk
  import opened Copying
  import opened Provisioner

  /** Revocation removes only what lies strictly inside the resolved destination, and changes
      nothing else, even where names are symbolic links out of it. */
  lemma {:induction false} RemovalContained(root: Path, t: Tree, names: seq<string>)
    ensures var t' := Removed(root, t, names);
      && (forall q :: q in t'.files ==> q in t.files && t'.files[q] == t.files[q])
      && (forall q :: q in t'.dirs ==> q in t.dirs)
      && (forall q :: q in t'.links ==> q in t.links && t'.links[q] == t.links[q])
      && (forall q :: q in t.files && q !in t'.files ==> root < q)
      && (forall q :: q in t.dirs && q !in t'.dirs ==> root < q)
      && (forall q :: q in t.links && q !in t'.links ==> root < q)
  {
    if names != [] {
      var front, last := names[..|names| - 1], names[|names| - 1];
      RemovalContained(root, t, front);
      CommonPathIs(root, Target(root, Removed(root, t, front), last));
    }
  }

  /** `t'` is `t` without `target` and everything below it. */
  ghost predicate Without(t: Tree, t': Tree, target: Path) {
    && (forall q :: q in t'.files <==> q in t.files && !(target <= q))
    && (forall q :: q in t'.files ==> t'.files[q] == t.files[q])
    && (forall q :: q in t'.dirs <==> q in t.dirs && !(target <= q))
    && (forall q :: q in t'.links <==> q in t.links && !(target <= q))
    && (forall q :: q in t'.links ==> t'.links[q] == t.links[q])
  }

  lemma RemoveTreeIs(t: Tree, p: Path)
    ensures Without(t, RemoveTree(t, p), p)
  {
  }

  /** A name is revoked, after the ones before it, exactly if it leads to a directory strictly inside
      the resolved destination; then that directory goes with everything below it, else nothing
      changes. */
  lemma RevokedIff(root: Path, t: Tree, front: seq<string>, name: string)
    ensures var before, after := Removed(root, t, front), Removed(root, t, front + [name]);
      var target := Resolve(before.links, root + [name]);
      if root < target && target in before.dirs then
        Without(before, after, target) && RevokedNames(root, t, front + [name]) == RevokedNames(root, t, front) + [name]
      else
        after == before && RevokedNames(root, t, front + [name]) == RevokedNames(root, t, front)
  {
    var before := Removed(root, t, front);
    assert (front + [name])[..|front|] == front;
    CommonPathIs(root, Target(root, before, name));
    RemoveTreeIs(before, Target(root, before, name));
  }

  // ----- Where copies land, whatever the links -----

  /** `p` is where an entry of one of the skills leads. */
  ghost predicate SkillsLand(root: Path, links: map<Path, Path>, call: Call, names: set<string>, p: Path) {
    exists n :: n in names && n in call.source && FromSome(links, root + [n], call.source[n], p)
  }

  /** Copies go where the entries lead, links at any depth included: afterwards the disk is as
      before with what landed on top, and everything landed where an entry of an effective skill
      leads. */
  lemma {:induction false} CopiesLand(root: Path, t: Tree, call: Call, skills: seq<string>)
    requires Disjoint(t)
    ensures var p := Copied(root, t, call, skills);
      && Disjoint(p.t) && Overlays(t, p.t, p.landed)
      && (forall n :: n in p.reached ==> n in skills && Classify(call, n) == Effective)
      && (forall q :: q in p.landed ==> SkillsLand(root, t.links, call, p.reached, q))
  {
    if skills != [] {
      var front, last := skills[..|skills| - 1], skills[|skills| - 1];
      var p, p' := Copied(root, t, call, front), Copied(root, t, call, skills);
      CopiesLand(root, t, call, front);
      if p' != p {
        var c := Copy(p.t, {}, p.landed);
        CopyOverlays(t, c, root + [last], call.source[last]);
        forall q | q in p'.landed ensures SkillsLand(root, t.links, call, p'.reached, q) {
          LandedFrom(c, root + [last], call.source[last], q);
          if q in p.landed {
            var n :| n in p.reached && n in call.source && FromSome(t.links, root + [n], call.source[n], q);
            assert n in p'.reached;
          } else {
            assert last in p'.reached;
          }
        }
      }
    }
  }

  /** The two trees agree outside the destination. */
  ghost predicate KeepsOutside(root: Path, t: Tree, t': Tree) {
    forall q :: q in t.files.Keys + t'.files.Keys + t.dirs + t'.dirs && !(root <= q) ==>
      && (q in t'.files <==> q in t.files) && (q in t'.files ==> t'.files[q] == t.files[q])
      && (q in t'.dirs <==> q in t.dirs)
  }

  ghost predicate LandsInside(root: Path, landed: map<Path, Option<string>>) {
    forall q :: q in landed ==> root <= q
  }

  /** The same skills with other file contents. */
  function Blank(items: seq<Item>, s: string): (blank: seq<Item>)
    ensures |blank| == |items| && forall i :: 0 <= i < |items| ==> blank[i] == BlankItem(items[i], s)
  {
    seq(|items|, i requires 0 <= i < |items| => BlankItem(items[i], s))
  }

  function BlankItem(item: Item, s: string): Item {
    if item.Regular? then Regular(item.at, s) else item
  }

  function Blanked(call: Call, s: string): Call {
    call.(source := map n | n in call.source :: Blank(call.source[n], s))
  }

  lemma BlankedClass(call: Call, s: string, n: string)
    ensures Classify(Blanked(call, s), n) == Classify(call, n)
  {
    if n in call.source {
      var items, blank := call.source[n], Blank(call.source[n], s);
      assert forall i :: 0 <= i < |items| ==> blank[i].at == items[i].at && (blank[i].Regular? <==> items[i].Regular?);
      if i :| 0 <= i < |items| && items[i].Regular? && items[i].at == ["SKILL.md"] {
        assert blank[i].Regular? && blank[i].at == ["SKILL.md"];
      }
    }
  }

  /** The same but for contents; on the second disk every file that landed holds `s`. */
  ghost predicate SameShape(t: Tree, landed: map<Path, Option<string>>,
                            u: Tree, blank: map<Path, Option<string>>, s: string) {
    && u.files.Keys == t.files.Keys && u.dirs == t.dirs && u.links == t.links
    && blank.Keys == landed.Keys
    && forall q :: q in landed ==> blank[q] == if landed[q].Some? then Some(s) else None
  }

  lemma SameLanding(t: Tree, u: Tree, p: Path, item: Item, s: string)
    requires p != [] && u.files.Keys == t.files.Keys && u.dirs == t.dirs && u.links == t.links
    ensures LandingOf(t, p, item) == LandingOf(u, p, BlankItem(item, s))
  {
  }

  lemma BlankItemLands(c: Copy, d: Copy, dst: Path, item: Item, s: string)
    requires dst != [] && SameShape(c.t, c.landed, d.t, d.landed, s) && c.failed == d.failed
    ensures var c', d' := CopyItem(c, dst, item), CopyItem(d, dst, BlankItem(item, s));
      SameShape(c'.t, c'.landed, d'.t, d'.landed, s) && c'.failed == d'.failed
  {
    SameLanding(c.t, d.t, dst + item.at, item, s);
    match LandingOf(c.t, dst + item.at, item)
    case Writes(p) => assert Put(d.t, p, BlankItem(item, s)).files.Keys == Put(c.t, p, item).files.Keys;
    case _ =>
  }

  lemma {:induction false} BlankItemsLand(c: Copy, d: Copy, dst: Path, items: seq<Item>, s: string)
    requires dst != [] && SameShape(c.t, c.landed, d.t, d.landed, s) && c.failed == d.failed
    ensures var c', d' := CopyItems(c, dst, items), CopyItems(d, dst, Blank(items, s));
      SameShape(c'.t, c'.landed, d'.t, d'.landed, s) && c'.failed == d'.failed
  {
    if items != [] {
      var front, n := items[..|items| - 1], |items| - 1;
      BlankItemsLand(c, d, dst, front, s);
      assert Blank(items, s)[..n] == Blank(front, s);
      BlankItemLands(CopyItems(c, dst, front), CopyItems(d, dst, Blank(front, s)), dst, items[n], s);
    }
  }

  lemma {:induction false} BlankedLand(root: Path, t: Tree, call: Call, skills: seq<string>, s: string)
    ensures var p, q := Copied(root, t, call, skills), Copied(root, t, Blanked(call, s), skills);
      SameShape(p.t, p.landed, q.t, q.landed, s) && p.raised == q.raised
  {
    if skills != [] {
      var front, last := skills[..|skills| - 1], skills[|skills| - 1];
      var p, q := Copied(root, t, call, front), Copied(root, t, Blanked(call, s), front);
      BlankedLand(root, t, call, front, s);
      BlankedClass(call, s, last);
      if !p.raised && Classify(call, last) == Effective {
        BlankItemsLand(Copy(p.t, {}, p.landed), Copy(q.t, {}, q.landed), root + [last], call.source[last], s);
      }
    }
  }

  lemma InsideKeeps(root: Path, t: Tree, t': Tree, landed: map<Path, Option<string>>)
    requires Overlays(t, t', landed) && LandsInside(root, landed)
    ensures KeepsOutside(root, t, t')
  {
  }

  lemma OutsideShows(root: Path, t: Tree, t': Tree, landed: map<Path, Option<string>>, p: Path)
    requires Overlays(t, t', landed) && p in landed && !(root <= p)
    requires landed[p].Some? && p in t.files ==> landed[p] != Some(t.files[p])
    ensures !KeepsOutside(root, t, t')
  {
    if landed[p].Some? {
      assert p in LandedFiles(landed) && t'.files[p] == landed[p].value;
    } else {
      assert p in LandedDirs(landed) && p !in t.dirs;
    }
  }

  /** Copying leaves everything outside the destination alone, whatever the files contain, if and
      only if every path that an effective skill writes is, resolved, inside it. */
  lemma CopiesStayInsideIff(root: Path, t: Tree, call: Call)
    requires Disjoint(t)
    ensures (forall s: string :: KeepsOutside(root, t, Copied(root, t, Blanked(call, s), call.allowed).t)) <==>
            LandsInside(root, Copied(root, t, call, call.allowed).landed)
    ensures LandsInside(root, Copied(root, t, call, call.allowed).landed) ==>
            KeepsOutside(root, t, Copied(root, t, call, call.allowed).t)
  {
    var p := Copied(root, t, call, call.allowed);
    CopiesLand(root, t, call, call.allowed);
    if LandsInside(root, p.landed) {
      InsideKeeps(root, t, p.t, p.landed);
      forall s: string ensures KeepsOutside(root, t, Copied(root, t, Blanked(call, s), call.allowed).t) {
        var b := Copied(root, t, Blanked(call, s), call.allowed);
        BlankedLand(root, t, call, call.allowed, s);
        CopiesLand(root, t, Blanked(call, s), call.allowed);
        InsideKeeps(root, t, b.t, b.landed);
      }
    } else {
      var q :| q in p.landed && !(root <= q);
      var s := if q in t.files then t.files[q] + "x" else "";
      var b := Copied(root, t, Blanked(call, s), call.allowed);
      BlankedLand(root, t, call, call.allowed, s);
      CopiesLand(root, t, Blanked(call, s), call.allowed);
      OutsideShows(root, t, b.t, b.landed, q);
    }
  }

  /** Every link below the destination leads inside it. */
  ghost predicate LinksInside(root: Path, links: map<Path, Path>) {
    Straight(links, root) && forall l :: l in links && root <= l ==> root <= links[l]
  }

  lemma {:induction false} ResolveInside(root: Path, links: map<Path, Path>, q: Path)
    requires LinksInside(root, links) && root <= q
    ensures root <= Resolve(links, q)
  {
    if q == root {
      ResolveStraight(links, root);
    } else {
      assert root <= Parent(q);
      ResolveInside(root, links, Parent(q));
    }
  }

  /** That is so if every link below the destination leads inside it. */
  lemma LinksInsideSuffices(root: Path, t: Tree, call: Call)
    requires Disjoint(t) && LinksInside(root, t.links)
    ensures LandsInside(root, Copied(root, t, call, call.allowed).landed)
  {
    var p := Copied(root, t, call, call.allowed);
    CopiesLand(root, t, call, call.allowed);
    forall q | q in p.landed ensures root <= q {
      var n :| n in p.reached && n in call.source && FromSome(t.links, root + [n], call.source[n], q);
      var i :| 0 <= i < |call.source[n]| && LandsFrom(t.links, root + [n], call.source[n][i], q);
      var at := root + [n] + call.source[n][i].at;
      assert root <= root + [n] <= at;
      ResolveInside(root, t.links, at);
      ResolveInside(root, t.links, at + [Last(at)]);
    }
  }

  /** `dst` is a directory that no link leads to, but the link `sub` in it leads to the directory
      `out`, which has no directory or link `x`. */
  ghost predicate LinkBelow(t: Tree, dst: Path, sub: string, out: Path, x: string) {
    && dst != [] && Straight(t.links, dst) && dst in t.dirs
    && dst + [sub] in t.links && t.links[dst + [sub]] == out && out in t.dirs
    && out + [x] !in t.dirs && out + [x] !in t.links
  }

  lemma LinkBelowResolves(t: Tree, dst: Path, sub: string, out: Path, x: string)
    requires LinkBelow(t, dst, sub, out, x)
    ensures Resolve(t.links, dst) == dst && Resolve(t.links, dst + [sub]) == out
    ensures Resolve(t.links, dst + [sub] + [x]) == out + [x]
  {
    ResolveStraight(t.links, dst);
    assert Parent(dst + [sub]) == dst && Parent(dst + [sub] + [x]) == dst + [sub];
  }

  lemma LinkBelowLandings(t: Tree, dst: Path, sub: string, out: Path, x: string, content: string)
    requires LinkBelow(t, dst, sub, out, x)
    ensures LandingOf(t, dst + [], Folder([])) == Nothing
    ensures LandingOf(t, dst + [sub], Folder([sub])) == Nothing
    ensures LandingOf(t, dst + [sub, x], Regular([sub, x], content)) == Writes(out + [x])
  {
    LinkBelowResolves(t, dst, sub, out, x);
    assert dst + [] == dst && dst + [sub, x] == dst + [sub] + [x];
    assert Parent(out + [x]) == out;
  }

  /** A link below a skill's own directory leads its copy wherever it points, though the name
      itself leads nowhere else: with `out` outside the destination, out of it. */
  lemma NestedLinkEscapes(t: Tree, dst: Path, sub: string, out: Path, x: string, content: string)
    requires LinkBelow(t, dst, sub, out, x)
    ensures Resolve(t.links, dst) == dst
    ensures var c := CopyTree(t, dst, [Folder([]), Folder([sub]), Regular([sub, x], content)]);
      c.failed == {} && c.t == t.(files := t.files[out + [x] := content])
  {
    var items := [Folder([]), Folder([sub]), Regular([sub, x], content)];
    LinkBelowResolves(t, dst, sub, out, x);
    LinkBelowLandings(t, dst, sub, out, x, content);
    assert items[..0] == [] && items[..3] == items;
    CopyNext(Start(t), dst, items, 0);
    CopyNext(Start(t), dst, items, 1);
    CopyNext(Start(t), dst, items, 2);
  }

  /** A copy onto a link that leads to no directory raises and changes nothing. */
  lemma DanglingLinkFails(t: Tree, dst: Path, items: seq<Item>)
    requires dst != [] && Listing(items) && IsLink(t.links, dst) && Resolve(t.links, dst) !in t.dirs
    ensures CopyTree(t, dst, items) == Copy(t, {[]}, map[])
  {
    assert items[..|items|] == items && items[..1] == [Folder([])] && [Folder([])][..0] == [] && dst + [] == dst;
    SkipsRest(Start(t), dst, items, |items|);
  }

  /** Once the directory itself could not be made, nothing more is copied. */
  lemma {:induction false} SkipsRest(c: Copy, dst: Path, items: seq<Item>, k: nat)
    requires dst != [] && 0 < k <= |items| && [] in CopyItems(c, dst, items[..1]).failed
    ensures CopyItems(c, dst, items[..k]) == CopyItems(c, dst, items[..1])
  {
    if k > 1 {
      SkipsRest(c, dst, items, k - 1);
      CopyNext(c, dst, items, k - 1);
      assert [] <= items[k - 1].at;
    }
  }
}
