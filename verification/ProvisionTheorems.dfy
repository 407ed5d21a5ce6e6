/** What one call does, where the names it copies or removes are not, and have no, symbolic links. */
module ProvisionTheorems {
  import opened Sequences
  import opened Wrappers
  import opened Names
  import opened Sorting
  import opened Disk
  import opened Copying
  import opened Provisioner
  import opened ProvisionLinks

  // ----- The report -----

  /** How often `x` is listed. */
  function Count(s: seq<string>, x: string): nat {
    if s == [] then 0
    else Count(s[..|s| - 1], x) + if s[|s| - 1] == x then 1 else 0
  }

  lemma CountSnoc(s: seq<string>, last: string, x: string)
    ensures Count(s + [last], x) == Count(s, x) + if x == last then 1 else 0
  {
    assert (s + [last])[..|s|] == s;
  }

  lemma BucketCount(call: Call, skills: seq<string>, c: Class, x: string)
    requires skills != []
    ensures var front, last := skills[..|skills| - 1], skills[|skills| - 1];
      Count(Bucket(call, skills, c), x) ==
      Count(Bucket(call, front, c), x) + if x == last && Classify(call, last) == c then 1 else 0
  {
    var front, last := skills[..|skills| - 1], skills[|skills| - 1];
    CountSnoc(Bucket(call, front, c), last, x);
    assert Bucket(call, front, c) + [] == Bucket(call, front, c);
  }

  /** Every allowed skill lands in exactly one bucket, as often as it is listed. */
  lemma {:induction false} BucketsPartition(call: Call, skills: seq<string>, x: string)
    ensures Count(Bucket(call, skills, Effective), x) + Count(Bucket(call, skills, Denied), x) +
            Count(Bucket(call, skills, Missing), x) + Count(Bucket(call, skills, Invalid), x) == Count(skills, x)
  {
    if skills != [] {
      var front, last := skills[..|skills| - 1], skills[|skills| - 1];
      BucketsPartition(call, front, x);
      CountSnoc(front, last, x);
      assert skills == front + [last];
      BucketCount(call, skills, Effective, x);
      BucketCount(call, skills, Denied, x);
      BucketCount(call, skills, Missing, x);
      BucketCount(call, skills, Invalid, x);
    }
  }

  lemma BucketSnoc(call: Call, front: seq<string>, last: string, c: Class)
    ensures Bucket(call, front + [last], c) ==
            if Classify(call, last) == c then Bucket(call, front, c) + [last] else Bucket(call, front, c)
  {
    assert (front + [last])[..|front|] == front;
  }

  lemma {:induction false} BucketPicks(call: Call, skills: seq<string>, c: Class) returns (at: seq<nat>)
    ensures Picks(at, skills, Bucket(call, skills, c), s => Classify(call, s) == c)
  {
    at := [];
    if skills != [] {
      var front, last := skills[..|skills| - 1], skills[|skills| - 1];
      at := BucketPicks(call, front, c);
      PicksSnoc(at, front, Bucket(call, front, c), s => Classify(call, s) == c, last);
      BucketSnoc(call, front, last, c);
      assert skills == front + [last];
      at := if Classify(call, last) == c then at + [|front|] else at;
    }
  }

  // ----- Who gets what -----

  /** The source has the skill: a directory of its name with a SKILL.md. */
  predicate InSource(call: Call, n: string) {
    n in call.source && exists i :: 0 <= i < |call.source[n]| && IsSkillFile(call.source[n][i])
  }

  predicate IsSkillFile(item: Item) {
    item.Regular? && item.at == ["SKILL.md"]
  }

  /** A valid name of a skill that the user may use and the source has. */
  predicate Granted(call: Call, n: string) {
    NameOk(n) && n in call.granted && InSource(call, n)
  }

  /** A valid name of a skill that the user may not use. */
  predicate Refused(call: Call, n: string) {
    NameOk(n) && n !in call.granted
  }

  /** The source has no directory of the name. */
  predicate Unknown(call: Call, n: string) {
    NameOk(n) && n in call.granted && n !in call.source
  }

  /** No valid name, or a directory without SKILL.md. */
  predicate Malformed(call: Call, n: string) {
    !NameOk(n) || (n in call.granted && n in call.source && !InSource(call, n))
  }

  lemma HasSkillIs(call: Call, n: string)
    ensures HasSkill(call, n) <==> InSource(call, n)
  {
    if n in call.source {
      var items := call.source[n];
      if i :| 0 <= i < |items| && items[i].Regular? && items[i].at == ["SKILL.md"] {
        assert IsSkillFile(items[i]);
      }
      if i :| 0 <= i < |items| && IsSkillFile(items[i]) {
        assert items[i].Regular?;
      }
    }
  }

  lemma ClassIs(call: Call, n: string)
    ensures Classify(call, n) == Effective <==> Granted(call, n)
    ensures Classify(call, n) == Denied <==> Refused(call, n)
    ensures Classify(call, n) == Missing <==> Unknown(call, n)
    ensures Classify(call, n) == Invalid <==> Malformed(call, n)
  {
    HasSkillIs(call, n);
  }

  lemma PicksAlike(at: seq<nat>, s: seq<string>, sub: seq<string>, f: string -> bool, g: string -> bool)
    requires Picks(at, s, sub, f) && forall x :: f(x) == g(x)
    ensures Picks(at, s, sub, g)
  {
  }

  /** The lists a report of a completed call is made of: the allowed skills, in order, that are
      granted and in the source; that are not granted; that the source does not know; and whose
      name or directory is malformed. */
  lemma ReportSays(root: Path, w: Workspace, call: Call)
    returns (at0: seq<nat>, at1: seq<nat>, at2: seq<nat>, at3: seq<nat>)
    requires Provision(root, w, call).1.Some?
    ensures var report := Provision(root, w, call).1.value;
      && Picks(at0, call.allowed, report.provisioned, n => Granted(call, n))
      && Picks(at1, call.allowed, report.denied, n => Refused(call, n))
      && Picks(at2, call.allowed, report.missing, n => Unknown(call, n))
      && Picks(at3, call.allowed, report.invalid, n => Malformed(call, n))
  {
    forall n ensures (Classify(call, n) == Effective) == Granted(call, n) &&
                     (Classify(call, n) == Denied) == Refused(call, n) &&
                     (Classify(call, n) == Missing) == Unknown(call, n) &&
                     (Classify(call, n) == Invalid) == Malformed(call, n) {
      ClassIs(call, n);
    }
    at0 := BucketPicks(call, call.allowed, Effective);
    at1 := BucketPicks(call, call.allowed, Denied);
    at2 := BucketPicks(call, call.allowed, Missing);
    at3 := BucketPicks(call, call.allowed, Invalid);
    PicksAlike(at0, call.allowed, Bucket(call, call.allowed, Effective), n => Classify(call, n) == Effective,
               n => Granted(call, n));
    PicksAlike(at1, call.allowed, Bucket(call, call.allowed, Denied), n => Classify(call, n) == Denied,
               n => Refused(call, n));
    PicksAlike(at2, call.allowed, Bucket(call, call.allowed, Missing), n => Classify(call, n) == Missing,
               n => Unknown(call, n));
    PicksAlike(at3, call.allowed, Bucket(call, call.allowed, Invalid), n => Classify(call, n) == Invalid,
               n => Malformed(call, n));
  }

  /** The effective set is the allowed skills that are granted and in the source. */
  lemma EffectiveIsGranted(call: Call, n: string)
    ensures n in EffectiveSet(call) <==> n in call.allowed && Granted(call, n)
  {
    ClassIs(call, n);
  }

  /** Whatever a call writes, completed or not, comes from an entry of an allowed skill that the user
      may use and the source has. */
  lemma LandsGranted(root: Path, w: Workspace, call: Call, q: Path) returns (n: string)
    requires Disjoint(w.tree) && RootOk(root, w.tree) && q in Copies(root, w, call).landed
    ensures n in call.allowed && Granted(call, n) && FromSome(w.tree.links, root + [n], call.source[n], q)
  {
    RootedDisjoint(root, w.tree);
    CopiesLand(root, Rooted(root, w.tree), call, call.allowed);
    var reached := Copies(root, w, call).reached;
    n :| n in reached && n in call.source && FromSome(w.tree.links, root + [n], call.source[n], q);
    ClassIs(call, n);
  }

  /** What the loop makes of a tree at one name: the copy of that skill if it is granted. */
  predicate CopiesOn(root: Path, call: Call, n: string, t: Tree, t': Tree) {
    t' == if Granted(call, n) then CopyTree(t, root + [n], call.source[n]).t else t
  }

  predicate Raises(root: Path, call: Call, n: string, t: Tree) {
    Granted(call, n) && CopyTree(t, root + [n], call.source[n]).failed != {}
  }

  /** `ts` are the trees the copies of `skills` lead through: one skill after the other, in order, up
      to the first whose copy raises. */
  ghost predicate Trail(root: Path, call: Call, skills: seq<string>, ts: seq<Tree>, raised: bool) {
    && 0 < |ts| <= |skills| + 1
    && (forall i :: 0 <= i < |ts| - 1 ==> CopiesOn(root, call, skills[i], ts[i], ts[i + 1]))
    && (forall i :: 0 <= i < |ts| - 1 && (raised ==> i < |ts| - 2) ==> !Raises(root, call, skills[i], ts[i]))
    && if raised then |ts| > 1 && Raises(root, call, skills[|ts| - 2], ts[|ts| - 2]) else |ts| == |skills| + 1
  }

  lemma TrailStays(root: Path, call: Call, front: seq<string>, n: string, ts: seq<Tree>)
    requires Trail(root, call, front, ts, true)
    ensures Trail(root, call, front + [n], ts, true)
  {
  }

  lemma TrailMore(root: Path, call: Call, front: seq<string>, n: string, ts: seq<Tree>, t': Tree)
    requires Trail(root, call, front, ts, false) && CopiesOn(root, call, n, ts[|ts| - 1], t')
    ensures Trail(root, call, front + [n], ts + [t'], Raises(root, call, n, ts[|ts| - 1]))
  {
  }

  lemma CopySkillIs(root: Path, p: Progress, call: Call, n: string)
    requires !p.raised
    ensures var p' := CopySkill(root, p, call, n);
      CopiesOn(root, call, n, p.t, p'.t) && (p'.raised <==> Raises(root, call, n, p.t))
  {
    ClassIs(call, n);
    if Granted(call, n) {
      SameCopy(Start(p.t), Copy(p.t, {}, p.landed), root + [n], call.source[n]);
    }
  }

  /** The copies of a call: each granted skill in turn onto what the ones before it left, and none
      after the first that raises. */
  lemma {:induction false} CopiesTrail(root: Path, t: Tree, call: Call, skills: seq<string>) returns (ts: seq<Tree>)
    ensures var p := Copied(root, t, call, skills);
      Trail(root, call, skills, ts, p.raised) && ts[0] == t && ts[|ts| - 1] == p.t
  {
    if skills == [] {
      ts := [t];
    } else {
      var front, last := skills[..|skills| - 1], skills[|skills| - 1];
      var p := Copied(root, t, call, front);
      assert skills == front + [last];
      ts := CopiesTrail(root, t, call, front);
      if p.raised {
        TrailStays(root, call, front, last, ts);
      } else {
        CopySkillIs(root, p, call, last);
        TrailMore(root, call, front, last, ts, CopySkill(root, p, call, last).t);
        ts := ts + [CopySkill(root, p, call, last).t];
      }
    }
  }

  /** A listed name counts if it is a valid name. */
  lemma ManagedIs(m: Manifest, n: string)
    ensures n in Managed(m) <==> m.Listed? && Text(n) in m.managed && NameOk(n)
  {
  }

  // ----- Paths under the destination -----

  predicate Inside(root: Path, q: Path) {
    |q| > |root| && root <= q
  }

  function NameOf(root: Path, q: Path): string
    requires Inside(root, q)
  {
    q[|root|]
  }

  function RestOf(root: Path, q: Path): Path
    requires Inside(root, q)
  {
    q[|root| + 1..]
  }

  lemma UnderName(root: Path, n: string, q: Path)
    ensures root + [n] <= q <==> Inside(root, q) && NameOf(root, q) == n
    ensures root + [n] <= q ==> q[|root + [n]|..] == RestOf(root, q) && q == root + [n] + RestOf(root, q)
  {
    if Inside(root, q) {
      assert q == root + [q[|root|]] + q[|root| + 1..];
    }
  }

  // ----- The copies -----

  ghost predicate DirectNames(root: Path, links: map<Path, Path>, names: set<string>) {
    forall n :: n in names ==> Direct(links, root + [n])
  }

  /** The source lists its skills as `copytree` comes to their entries. */
  ghost predicate AllListed(call: Call) {
    forall n :: n in call.source ==> Listing(call.source[n])
  }

  ghost predicate AllFit(root: Path, t: Tree, call: Call, names: set<string>) {
    forall n :: n in names ==> n in call.source && Fits(t, root + [n], call.source[n])
  }

  /** The content that copying the skills in `names` writes at `q`, if any. */
  function Written(root: Path, t: Tree, call: Call, names: set<string>, q: Path): Option<string> {
    if Inside(root, q) && NameOf(root, q) in names && NameOf(root, q) in call.source
    then Lander(t, root + [NameOf(root, q)], call.source[NameOf(root, q)], q) else None
  }

  /** `q` is a directory that copying the skills in `names` makes sure of. */
  predicate Makes(root: Path, call: Call, names: set<string>, q: Path) {
    && Inside(root, q) && NameOf(root, q) in names && NameOf(root, q) in call.source
    && RestOf(root, q) in Folders(call.source[NameOf(root, q)])
  }

  /** `t'` is `t` with the skills in `names` copied. */
  ghost predicate CopiesShow(root: Path, t: Tree, call: Call, names: set<string>, t': Tree) {
    && t'.links == t.links
    && (forall q :: q in t'.files <==> q in t.files || Written(root, t, call, names, q).Some?)
    && (forall q :: q in t'.files ==>
          t'.files[q] == if Written(root, t, call, names, q).Some? then Written(root, t, call, names, q).value
                         else t.files[q])
    && (forall q :: q in t'.dirs <==> q in t.dirs || Makes(root, call, names, q))
  }

  lemma LanderUnder(t: Tree, dst: Path, items: seq<Item>, q: Path)
    requires Lander(t, dst, items, q).Some?
    ensures dst <= q
  {
    var i := LanderIs(t, dst, items, q);
    Tail(dst, items[i].at, Last(items[i].at));
  }

  /** Below `dst`, `u` is `t`, or, if `again`, `t` with the same source copied. */
  ghost predicate SameBelow(t: Tree, u: Tree, dst: Path, items: seq<Item>, again: bool) {
    forall q :: dst <= q ==>
      && (q in u.files <==> q in t.files || (again && Lander(t, dst, items, q).Some?))
      && (q in u.dirs <==> q in t.dirs || (again && q[|dst|..] in Folders(items)))
  }

  lemma SameSpot(t: Tree, u: Tree, dst: Path, items: seq<Item>, again: bool, i: nat)
    requires Listing(items) && SameBelow(t, u, dst, items, again) && i < |items| && items[i].Regular?
    ensures Spot(u, dst, items[i].at) == Spot(t, dst, items[i].at)
    ensures Spot(t, dst, items[i].at) in u.dirs <==> Spot(t, dst, items[i].at) in t.dirs
  {
    FileAlone(items, i, Last(items[i].at));
    Tail(dst, items[i].at, Last(items[i].at));
  }

  lemma SameLandsAt(t: Tree, u: Tree, dst: Path, items: seq<Item>, again: bool, i: nat, q: Path)
    requires Listing(items) && SameBelow(t, u, dst, items, again) && i < |items|
    ensures LandsAt(u, dst, items[i], q) <==> LandsAt(t, dst, items[i], q)
  {
    if items[i].Regular? {
      SameSpot(t, u, dst, items, again, i);
    }
  }

  /** The files of a listing land at the same places on both disks. */
  ghost predicate LandSame(t: Tree, u: Tree, dst: Path, items: seq<Item>) {
    forall i, q :: 0 <= i < |items| ==> (LandsAt(u, dst, items[i], q) <==> LandsAt(t, dst, items[i], q))
  }

  lemma {:induction false} SameLanders(t: Tree, u: Tree, dst: Path, items: seq<Item>, q: Path)
    requires LandSame(t, u, dst, items)
    ensures Lander(u, dst, items, q) == Lander(t, dst, items, q)
  {
    if items != [] {
      var front, n := items[..|items| - 1], |items| - 1;
      assert forall i :: 0 <= i < n ==> front[i] == items[i];
      SameLanders(t, u, dst, front, q);
      assert LandsAt(u, dst, items[n], q) <==> LandsAt(t, dst, items[n], q);
    }
  }

  lemma SameLander(t: Tree, u: Tree, dst: Path, items: seq<Item>, again: bool, q: Path)
    requires Listing(items) && SameBelow(t, u, dst, items, again)
    ensures Lander(u, dst, items, q) == Lander(t, dst, items, q)
  {
    forall i, p | 0 <= i < |items| ensures LandsAt(u, dst, items[i], p) <==> LandsAt(t, dst, items[i], p) {
      SameLandsAt(t, u, dst, items, again, i, p);
    }
    SameLanders(t, u, dst, items, q);
  }

  lemma SameFit(t: Tree, u: Tree, dst: Path, items: seq<Item>, again: bool)
    requires Listing(items) && SameBelow(t, u, dst, items, again) && (again ==> Fits(t, dst, items))
    ensures Fits(u, dst, items) <==> Fits(t, dst, items)
  {
    forall i | 0 <= i < |items| ensures ItemFits(u, dst, items[i]) <==> ItemFits(t, dst, items[i]) {
      Tail(dst, items[i].at, "");
      if items[i].Regular? {
        SameSpot(t, u, dst, items, again, i);
      } else if again {
        assert ItemFits(t, dst, items[i]);
        FoldersAre(items, items[i].at);
        assert items[..|items|] == items;
        NoLanderOnFolder(t, dst, items, items[i].at, |items|);
      }
    }
  }

  lemma ShownBelow(root: Path, t: Tree, call: Call, names: set<string>, u: Tree, n: string)
    requires CopiesShow(root, t, call, names, u) && n in call.source
    ensures SameBelow(t, u, root + [n], call.source[n], n in names)
  {
    forall q | root + [n] <= q
      ensures q in u.files <==> q in t.files || (n in names && Lander(t, root + [n], call.source[n], q).Some?)
      ensures q in u.dirs <==> q in t.dirs || (n in names && q[|root + [n]|..] in Folders(call.source[n]))
    {
      UnderName(root, n, q);
    }
  }

  lemma WrittenMore(root: Path, t: Tree, call: Call, names: set<string>, n: string, q: Path)
    requires n in call.source
    ensures Written(root, t, call, names + {n}, q) ==
            if Lander(t, root + [n], call.source[n], q).Some? then Lander(t, root + [n], call.source[n], q)
            else Written(root, t, call, names, q)
    ensures Makes(root, call, names + {n}, q) <==>
            Makes(root, call, names, q) || (root + [n] <= q && q[|root + [n]|..] in Folders(call.source[n]))
  {
    UnderName(root, n, q);
    if Lander(t, root + [n], call.source[n], q).Some? {
      LanderUnder(t, root + [n], call.source[n], q);
    }
  }

  lemma ShowsMore(root: Path, t: Tree, call: Call, names: set<string>, u: Tree, n: string, u': Tree)
    requires CopiesShow(root, t, call, names, u) && n in call.source && Listing(call.source[n])
    requires Shows(u, root + [n], call.source[n], u')
    ensures CopiesShow(root, t, call, names + {n}, u')
  {
    var items := call.source[n];
    ShownBelow(root, t, call, names, u, n);
    forall q ensures Lander(u, root + [n], items, q) == Lander(t, root + [n], items, q) {
      SameLander(t, u, root + [n], items, n in names, q);
    }
    forall q
      ensures q in u'.files <==> q in t.files || Written(root, t, call, names + {n}, q).Some?
      ensures q in u'.files ==>
        u'.files[q] == if Written(root, t, call, names + {n}, q).Some?
                       then Written(root, t, call, names + {n}, q).value else t.files[q]
      ensures q in u'.dirs <==> q in t.dirs || Makes(root, call, names + {n}, q)
    {
      WrittenMore(root, t, call, names, n, q);
    }
  }

  function EffectiveIn(call: Call, skills: seq<string>): set<string> {
    set s | s in skills && Classify(call, s) == Effective
  }

  lemma EffectiveMore(call: Call, front: seq<string>, last: string)
    ensures EffectiveIn(call, front + [last]) ==
            EffectiveIn(call, front) + if Classify(call, last) == Effective then {last} else {}
  {
  }

  ghost predicate CopiedWell(root: Path, t: Tree, call: Call, names: set<string>, p: Progress) {
    !p.raised && p.reached == names && CopiesShow(root, t, call, names, p.t)
  }

  lemma SkillCopied(root: Path, t: Tree, call: Call, names: set<string>, p: Progress, n: string)
    requires CopiedWell(root, t, call, names, p) && Classify(call, n) == Effective
    requires Direct(t.links, root + [n]) && Listing(call.source[n]) && Fits(t, root + [n], call.source[n])
    ensures CopiedWell(root, t, call, names + {n}, CopySkill(root, p, call, n))
  {
    var items := call.source[n];
    ShownBelow(root, t, call, names, p.t, n);
    SameFit(t, p.t, root + [n], items, n in names);
    CopyGoesWell(p.t, root + [n], items, |items|, p.landed);
    assert items[..|items|] == items;
    ShowsMore(root, t, call, names, p.t, n, CopySkill(root, p, call, n).t);
  }

  /** Where every effective skill fits, all are copied. */
  lemma {:induction false} AllCopied(root: Path, t: Tree, call: Call, skills: seq<string>)
    requires AllListed(call) && DirectNames(root, t.links, EffectiveIn(call, skills))
    requires AllFit(root, t, call, EffectiveIn(call, skills))
    ensures CopiedWell(root, t, call, EffectiveIn(call, skills), Copied(root, t, call, skills))
  {
    if skills != [] {
      var front, last := skills[..|skills| - 1], skills[|skills| - 1];
      assert skills == front + [last];
      EffectiveMore(call, front, last);
      AllCopied(root, t, call, front);
      if Classify(call, last) == Effective {
        SkillCopied(root, t, call, EffectiveIn(call, front), Copied(root, t, call, front), last);
      }
    }
  }

  /** And where all are copied, every effective skill fits. */
  lemma {:induction false} CopiedFit(root: Path, t: Tree, call: Call, skills: seq<string>)
    requires Disjoint(t) && AllListed(call) && DirectNames(root, t.links, EffectiveIn(call, skills))
    requires !Copied(root, t, call, skills).raised
    ensures AllFit(root, t, call, EffectiveIn(call, skills))
  {
    if skills != [] {
      var front, last := skills[..|skills| - 1], skills[|skills| - 1];
      assert skills == front + [last];
      EffectiveMore(call, front, last);
      CopiedFit(root, t, call, front);
      AllCopied(root, t, call, front);
      if Classify(call, last) == Effective && last !in EffectiveIn(call, front) {
        var p := Copied(root, t, call, front);
        CopiesLand(root, t, call, front);
        CopySucceedsIff(p.t, root + [last], call.source[last], p.landed);
        ShownBelow(root, t, call, EffectiveIn(call, front), p.t, last);
        SameFit(t, p.t, root + [last], call.source[last], false);
      }
    }
  }

  // ----- The removals -----

  /** `q` lies under one of `names` whose directory exists. */
  predicate Drops(root: Path, t: Tree, names: seq<string>, q: Path) {
    Inside(root, q) && NameOf(root, q) in names && root + [NameOf(root, q)] in t.dirs
  }

  /** `t'` is `t` without the directories of `names`. */
  ghost predicate WithoutNames(root: Path, t: Tree, names: seq<string>, t': Tree) {
    && (forall q :: q in t'.files <==> q in t.files && !Drops(root, t, names, q))
    && (forall q :: q in t'.files ==> t'.files[q] == t.files[q])
    && (forall q :: q in t'.dirs <==> q in t.dirs && !Drops(root, t, names, q))
    && (forall q :: q in t'.links <==> q in t.links && !Drops(root, t, names, q))
    && (forall q :: q in t'.links ==> t'.links[q] == t.links[q])
  }

  ghost predicate StraightNames(root: Path, links: map<Path, Path>, names: set<string>) {
    forall n :: n in names ==> Straight(links, root + [n])
  }

  lemma DropsMore(root: Path, t: Tree, front: seq<string>, last: string, q: Path)
    ensures Drops(root, t, front + [last], q) <==>
            Drops(root, t, front, q) || (root + [last] <= q && root + [last] in t.dirs)
  {
    UnderName(root, last, q);
  }

  lemma NameRemovable(root: Path, u: Tree, last: string)
    requires Straight(u.links, root + [last])
    ensures Removable(root, u, last) <==> root + [last] in u.dirs
  {
    ResolveStraight(u.links, root + [last]);
    CommonPathIs(root, root + [last]);
  }

  lemma RemovesName(root: Path, t: Tree, front: seq<string>, last: string, u: Tree)
    requires WithoutNames(root, t, front, u) && Straight(t.links, root + [last])
    ensures Removable(root, u, last) <==> root + [last] in u.dirs
    ensures WithoutNames(root, t, front + [last], if root + [last] in u.dirs then RemoveTree(u, root + [last]) else u)
  {
    NameRemovable(root, u, last);
    UnderName(root, last, root + [last]);
    forall q ensures Drops(root, t, front + [last], q) <==>
                     Drops(root, t, front, q) || (root + [last] <= q && root + [last] in t.dirs) {
      DropsMore(root, t, front, last, q);
    }
  }

  lemma {:induction false} RemovedWithout(root: Path, t: Tree, names: seq<string>)
    requires forall n :: n in names ==> Straight(t.links, root + [n])
    ensures WithoutNames(root, t, names, Removed(root, t, names))
  {
    if names != [] {
      var front, last := names[..|names| - 1], names[|names| - 1];
      assert names == front + [last];
      RemovedWithout(root, t, front);
      RemovesName(root, t, front, last, Removed(root, t, front));
      ResolveStraight(Removed(root, t, front).links, root + [last]);
    }
  }

  /** Names whose directories all exist are all revoked. */
  lemma {:induction false} AllRevoked(root: Path, t: Tree, names: seq<string>)
    requires forall n :: n in names ==> Straight(t.links, root + [n])
    requires forall i :: 0 <= i < |names| ==> root + [names[i]] in t.dirs
    requires forall i, j :: 0 <= i < j < |names| ==> names[i] != names[j]
    ensures RevokedNames(root, t, names) == names
  {
    if names != [] {
      var front, last := names[..|names| - 1], names[|names| - 1];
      assert names == front + [last] && last !in front;
      AllRevoked(root, t, front);
      RemovedWithout(root, t, front);
      UnderName(root, last, root + [last]);
      RemovesName(root, t, front, last, Removed(root, t, front));
    }
  }

  // ----- One call -----

  /** No name that the call copies is a link or has one below or above it, and none that it may
      remove is behind one. */
  ghost predicate Plain(root: Path, w: Workspace, call: Call) {
    && AllListed(call) && Disjoint(w.tree)
    && DirectNames(root, w.tree.links, EffectiveSet(call))
    && StraightNames(root, w.tree.links, Managed(w.manifest))
  }

  lemma RootedDisjoint(root: Path, t: Tree)
    requires Disjoint(t) && RootOk(root, t)
    ensures Disjoint(Rooted(root, t))
  {
  }

  /** A call completes exactly if its destination can be made and every effective skill fits what
      is there: no folder on a file, no file landing on a directory. */
  lemma CompletesIff(root: Path, w: Workspace, call: Call)
    requires AllListed(call) && Disjoint(w.tree) && DirectNames(root, w.tree.links, EffectiveSet(call))
    ensures Provision(root, w, call).1.Some? <==>
            RootOk(root, w.tree) && AllFit(root, Rooted(root, w.tree), call, EffectiveSet(call))
  {
    var t := Rooted(root, w.tree);
    assert EffectiveIn(call, call.allowed) == EffectiveSet(call);
    if RootOk(root, w.tree) {
      RootedDisjoint(root, w.tree);
      if AllFit(root, t, call, EffectiveSet(call)) {
        AllCopied(root, t, call, call.allowed);
      } else if !Copies(root, w, call).raised {
        CopiedFit(root, t, call, call.allowed);
      }
    }
  }

  /** What a completed call copied. */
  lemma CompletedCopies(root: Path, w: Workspace, call: Call)
    requires Plain(root, w, call) && Provision(root, w, call).1.Some?
    ensures CopiedWell(root, Rooted(root, w.tree), call, EffectiveSet(call), Copies(root, w, call))
    ensures AllFit(root, Rooted(root, w.tree), call, EffectiveSet(call))
  {
    CompletesIff(root, w, call);
    assert EffectiveIn(call, call.allowed) == EffectiveSet(call);
    AllCopied(root, Rooted(root, w.tree), call, call.allowed);
  }

  lemma ObsoleteStraight(root: Path, w: Workspace, call: Call, links: map<Path, Path>)
    requires StraightNames(root, links, Managed(w.manifest))
    ensures forall n :: n in Obsolete(w.manifest, call) ==>
              n in Managed(w.manifest) && n !in EffectiveSet(call) && Straight(links, root + [n])
    ensures forall n :: n in Managed(w.manifest) - EffectiveSet(call) ==> n in Obsolete(w.manifest, call)
  {
  }

  /** What a completed call does to any path. */
  lemma ProvisionedAt(root: Path, w: Workspace, call: Call, q: Path)
    requires Plain(root, w, call) && Provision(root, w, call).1.Some?
    ensures var t, t' := Rooted(root, w.tree), Provision(root, w, call).0.tree;
      var written := Written(root, t, call, EffectiveSet(call), q);
      var dropped := Drops(root, Copies(root, w, call).t, Obsolete(w.manifest, call), q);
      && (q in t'.files <==> (q in w.tree.files || written.Some?) && !dropped)
      && (q in t'.files ==> t'.files[q] == if written.Some? then written.value else w.tree.files[q])
      && (q in t'.dirs <==>
          (q in w.tree.dirs || q <= root || Makes(root, call, EffectiveSet(call), q)) && !dropped)
      && (q in t'.links <==> q in w.tree.links && !dropped)
      && (q in t'.links ==> t'.links[q] == w.tree.links[q])
  {
    CompletedCopies(root, w, call);
    ObsoleteStraight(root, w, call, w.tree.links);
    RemovedWithout(root, Copies(root, w, call).t, Obsolete(w.manifest, call));
    MadeByIs(root);
  }

  /** What one call makes of a name's directory that held `content`. */
  function Provisioned(w: Workspace, call: Call, n: string, content: Content): Content {
    if n in EffectiveSet(call) then Merge(content, call.source[n])
    else if n in Managed(w.manifest) then NOTHING
    else content
  }

  lemma EffectiveNames(call: Call)
    ensures forall n :: n in EffectiveSet(call) ==> NameOk(n) && n in call.source
  {
  }

  lemma ObsoleteDropped(root: Path, w: Workspace, call: Call, n: string, content: Content, r: Path)
    requires Plain(root, w, call) && Provision(root, w, call).1.Some? && Holds(w.tree, root + [n], content)
    ensures Drops(root, Copies(root, w, call).t, Obsolete(w.manifest, call), root + [n] + r) <==>
            n in Managed(w.manifest) && n !in EffectiveSet(call) && [] in content.dirs
  {
    var dir := root + [n];
    UnderName(root, n, dir);
    UnderName(root, n, dir + r);
    CompletedCopies(root, w, call);
    ObsoleteStraight(root, w, call, w.tree.links);
    MadeByIs(root);
    assert dir + [] == dir;
  }

  lemma MergedFile(root: Path, t: Tree, call: Call, n: string, content: Content, r: Path)
    requires n in call.source && Listing(call.source[n]) && Holds(t, root + [n], content)
    requires Merges(content, call.source[n])
    ensures Lander(t, root + [n], call.source[n], root + [n] + r) ==
            if r in Files(call.source[n]) then Some(Files(call.source[n])[r]) else None
  {
    var items := call.source[n];
    forall i | 0 <= i < |items| && items[i].Regular? ensures root + [n] + items[i].at !in t.dirs {
      assert ItemMerges(content, items[i]);
    }
    assert items[..|items|] == items;
    LanderIsFile(t, root + [n], items, r, |items|);
  }

  lemma RootedHolds(root: Path, t: Tree, n: string, content: Content)
    requires Holds(t, root + [n], content)
    ensures Holds(Rooted(root, t), root + [n], content)
  {
    MadeByIs(root);
  }

  /** What a completed call does to the directory of one name: merged if the name is effective and
      the source merges into what is there, gone if it is listed and not effective, else as it
      was. */
  lemma ProvisionAt(root: Path, w: Workspace, call: Call, n: string, content: Content)
    requires Plain(root, w, call) && Provision(root, w, call).1.Some?
    requires Holds(w.tree, root + [n], content) && ([] !in content.dirs ==> content == NOTHING)
    requires n in EffectiveSet(call) ==> Merges(content, call.source[n])
    ensures Holds(Provision(root, w, call).0.tree, root + [n], Provisioned(w, call, n, content))
  {
    var dir, result, t' := root + [n], Provisioned(w, call, n, content), Provision(root, w, call).0.tree;
    EffectiveNames(call);
    RootedHolds(root, w.tree, n, content);
    forall r: Path
      ensures dir + r in t'.files <==> r in result.files
      ensures r in result.files ==> t'.files[dir + r] == result.files[r]
      ensures dir + r in t'.dirs <==> r in result.dirs
    {
      UnderName(root, n, dir + r);
      assert RestOf(root, dir + r) == r;
      ProvisionedAt(root, w, call, dir + r);
      ObsoleteDropped(root, w, call, n, content, r);
      if n in EffectiveSet(call) {
        MergedFile(root, Rooted(root, w.tree), call, n, content, r);
      }
    }
  }

  // ----- What no call touches -----

  lemma LandsUnder(root: Path, links: map<Path, Path>, call: Call, names: set<string>, p: Path)
    requires SkillsLand(root, links, call, names, p) && DirectNames(root, links, names)
    ensures Inside(root, p) && NameOf(root, p) in names
  {
    var n :| n in names && n in call.source && FromSome(links, root + [n], call.source[n], p);
    FromSomeBelow(links, root + [n], call.source[n], p);
    UnderName(root, n, p);
  }

  /** Nothing about `q` differs. */
  ghost predicate SameAt(t: Tree, t': Tree, q: Path) {
    && (q in t'.files <==> q in t.files) && (q in t'.files ==> t'.files[q] == t.files[q])
    && (q in t'.dirs <==> q in t.dirs)
    && (q in t'.links <==> q in t.links) && (q in t'.links ==> t'.links[q] == t.links[q])
  }

  lemma SameTrees(t: Tree, t': Tree)
    requires forall q :: SameAt(t, t', q)
    ensures t' == t
  {
    forall q ensures q in t'.files <==> q in t.files { assert SameAt(t, t', q); }
    forall q ensures q in t'.dirs <==> q in t.dirs { assert SameAt(t, t', q); }
    forall q ensures q in t'.links <==> q in t.links { assert SameAt(t, t', q); }
    assert forall q :: q in t'.files ==> SameAt(t, t', q);
    assert forall q :: q in t'.links ==> SameAt(t, t', q);
    assert t'.files == t.files && t'.dirs == t.dirs && t'.links == t.links;
  }

  lemma CopiesFrame(root: Path, t: Tree, call: Call, skills: seq<string>, q: Path)
    requires Disjoint(t) && DirectNames(root, t.links, EffectiveIn(call, skills))
    requires Inside(root, q) ==> NameOf(root, q) !in EffectiveIn(call, skills)
    ensures SameAt(t, Copied(root, t, call, skills).t, q)
  {
    var p := Copied(root, t, call, skills);
    CopiesLand(root, t, call, skills);
    if q in p.landed {
      LandsUnder(root, t.links, call, p.reached, q);
    }
    assert q !in LandedFiles(p.landed) && q !in LandedDirs(p.landed);
  }

  /** No call makes a path both a file and a directory, or adds or changes a link. */
  lemma ProvisionKeepsShape(root: Path, w: Workspace, call: Call)
    requires Disjoint(w.tree)
    ensures var t' := Provision(root, w, call).0.tree;
      Disjoint(t') && forall l :: l in t'.links ==> l in w.tree.links && t'.links[l] == w.tree.links[l]
  {
    if RootOk(root, w.tree) {
      RootedDisjoint(root, w.tree);
      CopiesLand(root, Rooted(root, w.tree), call, call.allowed);
      RemovalContained(root, Copies(root, w, call).t, Obsolete(w.manifest, call));
    }
  }

  lemma RemovalFrame(root: Path, t: Tree, names: seq<string>, q: Path)
    requires forall n :: n in names ==> Straight(t.links, root + [n])
    requires Inside(root, q) ==> NameOf(root, q) !in names
    ensures SameAt(t, Removed(root, t, names), q)
  {
    RemovedWithout(root, t, names);
  }

  /** Frame: a call, completed or not, touches nothing outside the names that are effective or
      listed, as valid names, in the manifest, however the manifest was forged; it may make the
      destination directory and its ancestors. */
  lemma ProvisionFrame(root: Path, w: Workspace, call: Call, q: Path)
    requires Disjoint(w.tree) && DirectNames(root, w.tree.links, EffectiveSet(call))
    requires StraightNames(root, w.tree.links, Managed(w.manifest))
    requires Inside(root, q) ==> NameOf(root, q) !in EffectiveSet(call) + Managed(w.manifest)
    ensures var t' := Provision(root, w, call).0.tree;
      SameAt(w.tree, t', q) || (q <= root && SameAt(Rooted(root, w.tree), t', q))
  {
    if RootOk(root, w.tree) {
      var t := Rooted(root, w.tree);
      RootedDisjoint(root, w.tree);
      MadeByIs(root);
      assert EffectiveIn(call, call.allowed) == EffectiveSet(call);
      CopiesFrame(root, t, call, call.allowed, q);
      CopiesLand(root, t, call, call.allowed);
      ObsoleteStraight(root, w, call, w.tree.links);
      RemovalFrame(root, Copies(root, w, call).t, Obsolete(w.manifest, call), q);
    }
  }

  /** The manifest a call writes reads back as its effective set. */
  lemma ManifestReadsBack(s: set<string>)
    requires forall n :: n in s ==> NameOk(n)
    ensures Managed(Listed(Entries(Sorted(s)))) == s
  {
    var names := Sorted(s);
    forall n | n in s ensures Text(n) in Entries(names) {
      var i :| 0 <= i < |names| && names[i] == n;
      assert Entries(names)[i] == Text(n);
    }
  }

  // ----- Repeating a call -----

  lemma EffectiveNotDropped(root: Path, w: Workspace, call: Call, t: Tree, q: Path)
    requires Inside(root, q) && NameOf(root, q) in EffectiveSet(call)
    ensures !Drops(root, t, Obsolete(w.manifest, call), q)
  {
  }

  /** After a completed call every effective skill is there, and fits again. */
  lemma FitsAgain(root: Path, w: Workspace, call: Call, n: string)
    requires Plain(root, w, call) && Provision(root, w, call).1.Some? && n in EffectiveSet(call)
    ensures var t, u := Rooted(root, w.tree), Rooted(root, Provision(root, w, call).0.tree);
      && SameBelow(t, u, root + [n], call.source[n], true)
      && Fits(u, root + [n], call.source[n])
  {
    var t, u := Rooted(root, w.tree), Rooted(root, Provision(root, w, call).0.tree);
    CompletedCopies(root, w, call);
    MadeByIs(root);
    forall q | root + [n] <= q
      ensures q in u.files <==> q in t.files || Lander(t, root + [n], call.source[n], q).Some?
      ensures q in u.dirs <==> q in t.dirs || q[|root + [n]|..] in Folders(call.source[n])
    {
      UnderName(root, n, q);
      ProvisionedAt(root, w, call, q);
      EffectiveNotDropped(root, w, call, Copies(root, w, call).t, q);
    }
    SameFit(t, u, root + [n], call.source[n], true);
  }

  /** What the first call left is plain, and the second completes. */
  lemma PlainAgain(root: Path, w: Workspace, call: Call)
    requires Plain(root, w, call) && Provision(root, w, call).1.Some?
    ensures var w1 := Provision(root, w, call).0;
      && Plain(root, w1, call) && Managed(w1.manifest) == EffectiveSet(call)
      && Provision(root, w1, call).1.Some?
  {
    var w1 := Provision(root, w, call).0;
    EffectiveNames(call);
    ManifestReadsBack(EffectiveSet(call));
    ProvisionKeepsShape(root, w, call);
    RootStays(root, w, call);
    forall n | n in EffectiveSet(call) ensures Fits(Rooted(root, w1.tree), root + [n], call.source[n]) {
      FitsAgain(root, w, call, n);
    }
    CompletesIff(root, w1, call);
  }

  lemma RootStays(root: Path, w: Workspace, call: Call)
    requires Plain(root, w, call) && Provision(root, w, call).1.Some?
    ensures RootOk(root, Provision(root, w, call).0.tree)
  {
    MadeByIs(root);
    forall q | q in MadeBy(root) ensures q !in Provision(root, w, call).0.tree.files {
      ProvisionedAt(root, w, call, q);
    }
  }

  lemma AgainAt(root: Path, w: Workspace, call: Call, q: Path)
    requires Plain(root, w, call) && Provision(root, w, call).1.Some?
    ensures var w1 := Provision(root, w, call).0; SameAt(w1.tree, Provision(root, w1, call).0.tree, q)
  {
    var w1 := Provision(root, w, call).0;
    var t, u := Rooted(root, w.tree), Rooted(root, w1.tree);
    PlainAgain(root, w, call);
    ProvisionedAt(root, w, call, q);
    ProvisionedAt(root, w1, call, q);
    assert Obsolete(w1.manifest, call) == [];
    if Inside(root, q) && NameOf(root, q) in EffectiveSet(call) {
      var n := NameOf(root, q);
      UnderName(root, n, q);
      EffectiveNotDropped(root, w, call, Copies(root, w, call).t, q);
      FitsAgain(root, w, call, n);
      SameLander(t, u, root + [n], call.source[n], true, q);
    }
  }

  /** Repeating a completed call changes nothing and revokes nothing. */
  lemma RepeatChangesNothing(root: Path, w: Workspace, call: Call)
    requires Plain(root, w, call) && Provision(root, w, call).1.Some?
    ensures var (w1, r1) := Provision(root, w, call);
      Provision(root, w1, call) == (w1, Some(r1.value.(revoked := [])))
  {
    var w1 := Provision(root, w, call).0;
    var w2 := Provision(root, w1, call).0;
    PlainAgain(root, w, call);
    assert Obsolete(w1.manifest, call) == [];
    forall q ensures SameAt(w1.tree, w2.tree, q) {
      AgainAt(root, w, call, q);
    }
    SameTrees(w1.tree, w2.tree);
  }
}
