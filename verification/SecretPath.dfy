/** Composing the URL path of a workspace's secrets from a mount and a template, and validating
    both without knowing the workspace (adapters/secrets/openbao/provider.py). */
module SecretPath {
  import opened Wrappers
  import opened Names
  import opened Formatting
  import opened PathSegments

  const SENTINEL := "__WS_PLACEHOLDER_SENTINEL__"
  const PLACEHOLDER := "workspace_id"

  predicate Unsafe(c: char) {
    c == '?' || c == '#' || c == '\\' || c == ':' || c == '@' || c == '%'
  }

  /** The replacement fields, in order. */
  function Fields(ps: seq<Piece>): (fs: seq<Piece>)
    ensures forall f :: f in fs ==> f.Field?
  {
    if ps == [] then []
    else Fields(ps[..|ps| - 1]) + if ps[|ps| - 1].Field? then [ps[|ps| - 1]] else []
  }

  /** A field's text. A field that `str.format` rejects shows nothing; no well-shaped template has
      one. */
  function Shown(f: Piece, v: string): string
    requires f.Field?
  {
    match FormatOf(f)
    case Some(format) => Show(format, v)
    case None => ""
  }

  /** `template.format(workspace_id=v)` on parsed pieces. */
  function Render(ps: seq<Piece>, v: string): string {
    if ps == [] then "" else Render(ps[..|ps| - 1], v) + TextOf(ps[|ps| - 1], v)
  }

  function TextOf(p: Piece, v: string): string {
    if p.Lit? then [p.c] else Shown(p, v)
  }

  predicate SegmentOk(seg: string) {
    && seg != "" && seg != "." && seg != ".."
    && (seg == SENTINEL || forall c :: c in seg ==> !Unsafe(c))
  }

  /** One field, named like the placeholder, and no slash at either end. */
  predicate OnePlaceholder(template: string) {
    && template != "" && template[0] != '/' && template[|template| - 1] != '/'
    && Parse(template).Pieces?
    && |Fields(Parse(template).ps)| == 1
    && Fields(Parse(template).ps)[0].name == PLACEHOLDER
  }

  function Slot(template: string): (f: Piece)
    requires OnePlaceholder(template)
    ensures f.Field?
  {
    Fields(Parse(template).ps)[0]
  }

  /** The format spec has replacement fields of its own. */
  predicate Nested(template: string)
    requires OnePlaceholder(template)
  {
    '{' in Slot(template).spec
  }

  /** The template passes everything before the segment check. */
  predicate WellShaped(template: string) {
    OnePlaceholder(template) && !Nested(template) && FormatOf(Slot(template)).Some?
  }

  function FormatIn(template: string): Format
    requires WellShaped(template)
  {
    FormatOf(Slot(template)).value
  }

  /** `template.format(workspace_id=v)`. */
  function Rendered(template: string, v: string): string
    requires WellShaped(template)
  {
    Render(Parse(template).ps, v)
  }

  predicate Accepts(template: string) {
    WellShaped(template) && forall seg :: seg in Split(Rendered(template, SENTINEL)) ==> SegmentOk(seg)
  }

  function NamesOf(fs: seq<Piece>): (names: seq<string>)
    requires forall f :: f in fs ==> f.Field?
    ensures |names| == |fs| && forall i :: 0 <= i < |fs| ==> names[i] == fs[i].name
  {
    seq(|fs|, i requires 0 <= i < |fs| => assert fs[i] in fs; fs[i].name)
  }

  /** The loop that collects field names. */
  method CollectFields(ps: seq<Piece>) returns (names: seq<string>)
    ensures names == NamesOf(Fields(ps))
  {
    names := [];
    for i := 0 to |ps|
      invariant names == NamesOf(Fields(ps[..i]))
    {
      assert ps[..i + 1][..i] == ps[..i];
      if ps[i].Field? {
        names := names + [ps[i].name];
      }
    }
    assert ps[..|ps|] == ps;
  }

  /** The loop over the segments of the sample path; true when it does not raise. */
  method CheckSegments(segs: seq<string>) returns (ok: bool)
    ensures ok <==> forall seg :: seg in segs ==> SegmentOk(seg)
  {
    for i := 0 to |segs|
      invariant forall j :: 0 <= j < i ==> SegmentOk(segs[j])
    {
      var seg := segs[i];
      assert seg in segs;
      if seg == "" {
        return false;
      }
      if seg == "." || seg == ".." {
        return false;
      }
      if seg == SENTINEL {
        continue;
      }
      var unsafe := set c | c in seg && Unsafe(c);
      if unsafe != {} {
        assert exists c :: c in unsafe;
        return false;
      }
      assert forall c :: c in seg && Unsafe(c) ==> c in unsafe;
    }
    ok := true;
  }

  /** `Unmodelled`: the format spec has replacement fields of its own. */
  datatype Verdict = Accepted | Rejected | Unmodelled

  /** `_validate_path_template`. */
  method ValidatePathTemplate(template: string) returns (verdict: Verdict)
    ensures verdict == Accepted <==> Accepts(template)
    ensures verdict == Unmodelled <==> OnePlaceholder(template) && Nested(template)
  {
    if template == "" {
      return Rejected;
    }
    if template[0] == '/' || template[|template| - 1] == '/' {
      return Rejected;
    }
    var parsed := Parse(template);
    if parsed.Malformed? {
      return Rejected;
    }
    var fieldNames := CollectFields(parsed.ps);
    if fieldNames != [PLACEHOLDER] {
      assert !OnePlaceholder(template);
      return Rejected;
    }
    if Nested(template) {
      return Unmodelled;
    }
    if FormatOf(Slot(template)).None? {
      return Rejected;
    }
    var ok := CheckSegments(Split(Render(parsed.ps, SENTINEL)));
    verdict := if ok then Accepted else Rejected;
  }

  /** The path requested for a workspace: `/v1/<mount>/data/<rendered template>`. */
  function PathFor(mount: string, template: string, workspace: string): string
    requires WellShaped(template)
  {
    "/v1/" + mount + "/data/" + Rendered(template, workspace)
  }

  // ----- One hole -----

  /** The literal text of pieces without fields. */
  function Literal(ps: seq<Piece>): string {
    Render(ps, "")
  }

  lemma RenderSnoc(front: seq<Piece>, last: Piece, v: string)
    ensures Render(front + [last], v) == Render(front, v) + TextOf(last, v)
  {
    assert (front + [last])[..|front|] == front;
  }

  lemma {:induction false} RenderLiteral(ps: seq<Piece>, v: string)
    requires Fields(ps) == []
    ensures Render(ps, v) == Literal(ps)
  {
    if ps != [] {
      var front, last := ps[..|ps| - 1], ps[|ps| - 1];
      assert ps == front + [last];
      RenderLiteral(front, v);
      RenderSnoc(front, last, v);
      RenderSnoc(front, last, "");
    }
  }

  /** The text before and after the field. */
  ghost predicate Around(ps: seq<Piece>, f: Piece, pre: string, post: string)
    requires f.Field?
  {
    forall v :: Render(ps, v) == pre + Shown(f, v) + post
  }

  /** Pieces with one field render as that field between two fixed texts. */
  lemma {:induction false} OneHole(ps: seq<Piece>) returns (pre: string, post: string)
    requires |Fields(ps)| == 1
    ensures Around(ps, Fields(ps)[0], pre, post)
  {
    var front, last := ps[..|ps| - 1], ps[|ps| - 1];
    assert ps == front + [last];
    if last.Field? {
      pre, post := Literal(front), "";
      forall v ensures Render(ps, v) == pre + Shown(last, v) + post {
        RenderLiteral(front, v);
        RenderSnoc(front, last, v);
      }
    } else {
      var tail;
      pre, tail := OneHole(front);
      post := tail + [last.c];
      var f := Fields(front)[0];
      forall v ensures Render(ps, v) == pre + Shown(f, v) + post {
        RenderSnoc(front, last, v);
        assert pre + Shown(f, v) + tail + [last.c] == pre + Shown(f, v) + (tail + [last.c]);
      }
    }
  }

  /** The texts around the placeholder of a template. */
  lemma Hole(template: string) returns (pre: string, post: string)
    requires WellShaped(template)
    ensures forall v :: Rendered(template, v) == pre + Show(FormatIn(template), v) + post
  {
    pre, post := OneHole(Parse(template).ps);
    forall v ensures Rendered(template, v) == pre + Show(FormatIn(template), v) + post {
      assert Render(Parse(template).ps, v) == pre + Shown(Slot(template), v) + post;
    }
  }

  /** Segments with text inserted, slash-free, between the texts around the hole: all but one are
      fixed. */
  function WithHole(pre: string, post: string, v: string): seq<string> {
    Split(pre)[..|Split(pre)| - 1] + [HoleSegment(pre, post, v)] + Split(post)[1..]
  }

  /** The one segment that holds the hole. */
  function HoleSegment(pre: string, post: string, v: string): string {
    Split(pre)[|Split(pre)| - 1] + v + Split(post)[0]
  }

  lemma HoleSplits(pre: string, post: string, v: string)
    requires '/' !in v
    ensures Split(pre + v + post) == WithHole(pre, post, v)
  {
    var sp := Split(pre);
    SplitConcat(pre, v);
    SplitSlashFree(v);
    SplitConcat(pre + v, post);
    assert Split(pre + v) == sp[..|sp| - 1] + [sp[|sp| - 1] + v];
  }

  // ----- What the sentinel decides -----

  /** A segment that neither vanishes, nor moves, nor changes the shape of a URL. */
  predicate Clean(seg: string) {
    && seg != "" && seg != "." && seg != ".."
    && forall c :: c in seg ==> c != '?' && c != '#' && c != '\\' && c != ':' && c != '@' && c != '%'
  }

  /** What is padded, if anything, is padded with a character that belongs into a segment. */
  predicate FillsSafely(f: Format) {
    f.spec.precision.None? && (Pads(f) ==> !Unsafe(f.spec.fill) && f.spec.fill != '/')
  }

  /** The format keeps names apart and puts nothing into a segment that could move or end it. */
  predicate Harmless(f: Format) {
    Distinct(f) && FillsSafely(f)
  }

  lemma NameFacts(v: string)
    requires NameOk(v)
    ensures '/' !in v && Clean(v)
  {
  }

  lemma SentinelIsAName()
    ensures NameOk(SENTINEL)
  {
  }

  lemma ShownSafe(f: Format, v: string)
    requires FillsSafely(f) && NameOk(v)
    ensures '/' !in Show(f, v) && forall c :: c in Show(f, v) ==> !Unsafe(c)
  {
    var q := Quote(f, v);
    assert |q| >= Shortest(f);
    forall c | c in Show(f, v) ensures c != '/' && !Unsafe(c) {
      assert c in q || (c == f.spec.fill && Pads(f));
    }
  }

  /** The name stands somewhere in what is shown of it. */
  lemma ShownHolds(f: Format, v: string) returns (n: nat)
    requires f.spec.precision.None?
    ensures n + |v| <= |Show(f, v)| && Show(f, v)[n..n + |v|] == v
  {
    n := Before(f.spec, |Quote(f, v)|) + if f.quoted then 1 else 0;
  }

  /** Text with a valid name in it is no dot segment. */
  lemma NoDotSegment(s: string, n: nat, v: string)
    requires n + |v| <= |s| && s[n..n + |v|] == v && NameOk(v)
    ensures s != "" && s != "." && s != ".."
  {
  }

  lemma HoleNoDot(a: string, b: string, f: Format, w: string)
    requires f.spec.precision.None? && NameOk(w)
    ensures var s := a + Show(f, w) + b; s != "" && s != "." && s != ".."
  {
    var n := ShownHolds(f, w);
    var s := a + Show(f, w) + b;
    assert s[|a| + n..|a| + n + |w|] == Show(f, w)[n..n + |w|];
    NoDotSegment(s, |a| + n, w);
  }

  /** The segment with the hole is clean for one name exactly if it is for every name. */
  lemma HoleSegmentClean(a: string, b: string, f: Format, v: string, w: string)
    requires FillsSafely(f) && NameOk(v) && NameOk(w) && Clean(a + Show(f, v) + b)
    ensures Clean(a + Show(f, w) + b)
  {
    HoleNoDot(a, b, f, w);
    ShownSafe(f, w);
    forall c | c in a + Show(f, w) + b ensures !Unsafe(c) {
      assert c in a || c in b ==> c in a + Show(f, v) + b;
    }
  }

  lemma WithHoleClean(pre: string, post: string, f: Format, v: string, w: string)
    requires FillsSafely(f) && NameOk(v) && NameOk(w)
    requires forall seg :: seg in WithHole(pre, post, Show(f, v)) ==> Clean(seg)
    ensures forall seg :: seg in WithHole(pre, post, Show(f, w)) ==> Clean(seg)
  {
    var sp, sq := Split(pre), Split(post);
    assert HoleSegment(pre, post, Show(f, v)) in WithHole(pre, post, Show(f, v));
    HoleSegmentClean(sp[|sp| - 1], sq[0], f, v, w);
    forall seg | seg in WithHole(pre, post, Show(f, w)) ensures Clean(seg) {
      if seg != HoleSegment(pre, post, Show(f, w)) {
        assert seg in WithHole(pre, post, Show(f, v));
      }
    }
  }

  predicate AllClean(template: string, workspace: string)
    requires WellShaped(template)
  {
    forall seg :: seg in Split(Rendered(template, workspace)) ==> Clean(seg)
  }

  lemma AcceptsMeansCleanSample(template: string)
    requires WellShaped(template)
    ensures Accepts(template) <==> AllClean(template, SENTINEL)
  {
    NameFacts(SENTINEL);
  }

  /** The segments of a rendered template around its slot. */
  lemma RenderedSplits(template: string) returns (pre: string, post: string)
    requires WellShaped(template) && FillsSafely(FormatIn(template))
    ensures forall v :: NameOk(v) ==> Split(Rendered(template, v)) == WithHole(pre, post, Show(FormatIn(template), v))
  {
    pre, post := Hole(template);
    forall v | NameOk(v) ensures Split(Rendered(template, v)) == WithHole(pre, post, Show(FormatIn(template), v)) {
      ShownSafe(FormatIn(template), v);
      HoleSplits(pre, post, Show(FormatIn(template), v));
    }
  }

  lemma AllCleanTransfers(template: string, v: string, w: string)
    requires WellShaped(template) && FillsSafely(FormatIn(template)) && NameOk(v) && NameOk(w)
    requires AllClean(template, v)
    ensures AllClean(template, w)
  {
    var pre, post := RenderedSplits(template);
    assert Split(Rendered(template, v)) == WithHole(pre, post, Show(FormatIn(template), v));
    WithHoleClean(pre, post, FormatIn(template), v, w);
  }

  /** Checking the one sentinel decides every workspace: a well-shaped template that cuts nothing
      off and pads safely is accepted exactly when it renders to clean segments for all valid
      workspace ids, and exactly when it does for any one of them. */
  lemma SentinelDecides(template: string)
    requires WellShaped(template) && FillsSafely(FormatIn(template))
    ensures Accepts(template) <==> forall w :: NameOk(w) ==> AllClean(template, w)
    ensures Accepts(template) <==> exists w :: NameOk(w) && AllClean(template, w)
  {
    AcceptsMeansCleanSample(template);
    SentinelIsAName();
    forall v, w | NameOk(v) && NameOk(w) && AllClean(template, v) ensures AllClean(template, w) {
      AllCleanTransfers(template, v, w);
    }
  }

  /** What the check is for: whatever the workspace id, the rendered path has clean segments, the
      same number of them, and no other id renders to it. */
  ghost predicate Guaranteed(template: string)
    requires WellShaped(template)
  {
    && (forall w :: NameOk(w) ==> AllClean(template, w))
    && (forall v, w :: NameOk(v) && NameOk(w) ==>
          |Split(Rendered(template, v))| == |Split(Rendered(template, w))|)
    && Apart(template)
  }

  ghost predicate Apart(template: string)
    requires WellShaped(template)
  {
    forall v, w :: NameOk(v) && NameOk(w) && Rendered(template, v) == Rendered(template, w) ==> v == w
  }

  /** Exactly the templates that are accepted and whose placeholder is harmless give that
      guarantee. A plain placeholder is; a format spec need not be. */
  lemma GuaranteedIff(template: string)
    requires WellShaped(template)
    ensures Guaranteed(template) <==> Accepts(template) && Harmless(FormatIn(template))
  {
    var f := FormatIn(template);
    AcceptsMeansCleanSample(template);
    SentinelIsAName();
    ApartIff(template);
    if Harmless(f) {
      SentinelDecides(template);
      var pre, post := RenderedSplits(template);
    } else if Distinct(f) {
      FillHarms(template);
    }
  }

  lemma ApartIff(template: string)
    requires WellShaped(template)
    ensures Apart(template) <==> Distinct(FormatIn(template))
  {
    var f := FormatIn(template);
    var pre, post := Hole(template);
    DistinctIff(f);
    forall v, w ensures Rendered(template, v) == Rendered(template, w) <==> Show(f, v) == Show(f, w) {
      SameAround(pre, Show(f, v), Show(f, w), post);
    }
  }

  lemma SameAround(pre: string, x: string, y: string, post: string)
    ensures pre + x + post == pre + y + post <==> x == y
  {
    if pre + x + post == pre + y + post {
      assert |x| == |y|;
      assert x == (pre + x + post)[|pre|..|pre| + |x|] && y == (pre + y + post)[|pre|..|pre| + |y|];
    }
  }

  /** A fill that is unsafe gets into the path of a short id; one that is a slash splits it. */
  lemma FillHarms(template: string)
    requires WellShaped(template) && Distinct(FormatIn(template)) && !FillsSafely(FormatIn(template))
    ensures !Guaranteed(template)
  {
    var f := FormatIn(template);
    if f.spec.fill == '/' {
      SlashSplits(template);
    } else {
      UnsafeShows(template);
    }
  }

  lemma UnsafeShows(template: string)
    requires WellShaped(template) && FormatIn(template).spec.precision.None? && Pads(FormatIn(template))
    requires Unsafe(FormatIn(template).spec.fill)
    ensures NameOk("a") && !AllClean(template, "a")
  {
    var f := FormatIn(template);
    var pre, post := Hole(template);
    assert Rendered(template, "a") == pre + Show(f, "a") + post;
    assert f.spec.fill in Show(f, "a") by {
      assert Show(f, "a")[0] == f.spec.fill || Show(f, "a")[|Show(f, "a")| - 1] == f.spec.fill;
    }
    var seg := SplitHas(Rendered(template, "a"), f.spec.fill);
  }

  lemma {:induction false} SlashesSplit(n: nat)
    ensures |Split(Copies('/', n))| == n + 1
  {
    if n > 0 {
      SlashesSplit(n - 1);
      assert Copies('/', n)[1..] == Copies('/', n - 1);
    }
  }

  lemma SplitCount(a: string, b: string, c: string)
    ensures |Split(a + b + c)| == |Split(a)| + |Split(b)| + |Split(c)| - 2
  {
    SplitConcat(a + b, c);
    SplitConcat(a, b);
  }

  lemma PaddedSplits(spec: Spec, q: string)
    requires spec.fill == '/' && '/' !in q
    ensures |Split(Pad(spec, q))| == Padding(spec, |q|) + 1
  {
    var l := Before(spec, |q|);
    SplitSlashFree(q);
    SlashesSplit(l);
    SlashesSplit(Padding(spec, |q|) - l);
    SplitCount(Copies('/', l), q, Copies('/', Padding(spec, |q|) - l));
  }

  /** The path of a short id then has more segments than that of a long one. */
  lemma SlashSplits(template: string)
    requires WellShaped(template) && FormatIn(template).spec.precision.None? && Pads(FormatIn(template))
    requires FormatIn(template).spec.fill == '/'
    ensures var long := Copies('a', FormatIn(template).spec.width);
      && NameOk("a") && NameOk(long)
      && |Split(Rendered(template, "a"))| > |Split(Rendered(template, long))|
  {
    var f, long := FormatIn(template), Copies('a', FormatIn(template).spec.width);
    var pre, post := Hole(template);
    CopiesAreNames(f.spec.width);
    PaddedSplits(f.spec, Quote(f, long));
    PaddedSplits(f.spec, Quote(f, "a"));
    SplitCount(pre, Show(f, long), post);
    SplitCount(pre, Show(f, "a"), post);
  }

  /** The pieces of a text without braces. */
  function LitsOf(s: string): (ps: seq<Piece>)
    ensures |ps| == |s| && forall i :: 0 <= i < |s| ==> ps[i] == Lit(s[i])
  {
    seq(|s|, i requires 0 <= i < |s| => Lit(s[i]))
  }

  ghost predicate NoBraces(s: string) {
    forall i :: 0 <= i < |s| ==> s[i] != '{' && s[i] != '}'
  }

  /** Text without braces in front of a format string is read as it stands. */
  lemma {:induction false} LitsParse(pre: string, rest: string)
    requires NoBraces(pre) && Parse(rest).Pieces?
    ensures Parse(pre + rest) == Pieces(LitsOf(pre) + Parse(rest).ps)
  {
    if pre == "" {
      assert pre + rest == rest && LitsOf(pre) + Parse(rest).ps == Parse(rest).ps;
    } else {
      LitsParse(pre[1..], rest);
      ParsesPiece(Lit(pre[0]), pre[1..] + rest);
      assert pre + rest == Write(Lit(pre[0])) + (pre[1..] + rest);
      assert LitsOf(pre) == [Lit(pre[0])] + LitsOf(pre[1..]);
      assert LitsOf(pre) + Parse(rest).ps == [Lit(pre[0])] + (LitsOf(pre[1..]) + Parse(rest).ps);
    }
  }

  lemma LitsSnoc(ps: seq<Piece>, front: string, c: char)
    ensures ps + LitsOf(front + [c]) == (ps + LitsOf(front)) + [Lit(c)]
  {
  }

  lemma Associates(a: string, b: string, c: char)
    ensures a + b + [c] == a + (b + [c])
  {
  }

  /** At the end of pieces, literal text is shown as it stands. */
  ghost predicate ShownAfter(ps: seq<Piece>, post: string, v: string) {
    Render(ps + LitsOf(post), v) == Render(ps, v) + post
  }

  lemma NoneShownAfter(ps: seq<Piece>, v: string)
    ensures ShownAfter(ps, "", v)
  {
    assert ps + LitsOf("") == ps && Render(ps, v) + "" == Render(ps, v);
  }

  lemma MoreShownAfter(ps: seq<Piece>, front: string, c: char, v: string)
    requires ShownAfter(ps, front, v)
    ensures ShownAfter(ps, front + [c], v)
  {
    LitsSnoc(ps, front, c);
    RenderSnoc(ps + LitsOf(front), Lit(c), v);
    Associates(Render(ps, v), front, c);
  }

  lemma {:induction false} LitsRender(ps: seq<Piece>, post: string, v: string)
    ensures ShownAfter(ps, post, v)
  {
    if post == "" {
      NoneShownAfter(ps, v);
    } else {
      var front, c := post[..|post| - 1], post[|post| - 1];
      LitsRender(ps, front, v);
      MoreShownAfter(ps, front, c, v);
      assert post == front + [c];
    }
  }

  ghost predicate NoneAfter(ps: seq<Piece>, post: string) {
    Fields(ps + LitsOf(post)) == Fields(ps)
  }

  lemma NoneAfterNothing(ps: seq<Piece>)
    ensures NoneAfter(ps, "")
  {
    assert ps + LitsOf("") == ps;
  }

  lemma NoneAfterMore(ps: seq<Piece>, front: string, c: char)
    requires NoneAfter(ps, front)
    ensures NoneAfter(ps, front + [c])
  {
    LitsSnoc(ps, front, c);
    FieldsSnoc(ps + LitsOf(front), Lit(c));
  }

  lemma {:induction false} LitsNoFields(ps: seq<Piece>, post: string)
    ensures NoneAfter(ps, post)
  {
    if post == "" {
      NoneAfterNothing(ps);
    } else {
      var front, c := post[..|post| - 1], post[|post| - 1];
      LitsNoFields(ps, front);
      NoneAfterMore(ps, front, c);
      assert post == front + [c];
    }
  }

  lemma FieldsSnoc(front: seq<Piece>, last: Piece)
    ensures Fields(front + [last]) == if last.Field? then Fields(front) + [last] else Fields(front)
  {
    assert (front + [last])[..|front|] == front;
  }

  const PLAIN := Field(PLACEHOLDER, None, "")

  lemma PlainShows(v: string)
    ensures FormatOf(PLAIN) == Some(Format(false, Spec(' ', '<', 0, None))) && Shown(PLAIN, v) == v
  {
    assert ParseSpec("") == Some(Spec(' ', '<', 0, None));
    assert Copies(' ', 0) + v + Copies(' ', 0) == v;
  }

  /** The plain placeholder as it is written in a template, with nothing between its braces but the
      name: the source's own default. */
  const HOLE := "{" + (PLACEHOLDER + "}")

  lemma HoleParses(post: string)
    requires NoBraces(post)
    ensures Parse(HOLE + post) == Pieces([PLAIN] + LitsOf(post))
  {
    var tail := "}" + post;
    var s := PLACEHOLDER + tail;
    PlaceholderIsPlain();
    NameEndAt(PLACEHOLDER, tail);
    SliceAfter(PLACEHOLDER, tail, 0);
    SliceAfter(PLACEHOLDER, tail, 1);
    LitsParse(post, "");
    assert post + "" == post && LitsOf(post) + [] == LitsOf(post) && tail[1..] == post;
    assert HOLE + post == "{" + s && ("{" + s)[1..] == s && s[0] != '{';
  }

  /** The pieces of literal text around the plain placeholder. */
  function AroundPlain(pre: string, post: string): seq<Piece> {
    (LitsOf(pre) + [PLAIN]) + LitsOf(post)
  }

  lemma LitsAlone(pre: string, v: string)
    ensures Render(LitsOf(pre), v) == pre && Fields(LitsOf(pre)) == []
  {
    LitsRender([], pre, v);
    LitsNoFields([], pre);
    assert [] + LitsOf(pre) == LitsOf(pre);
    assert "" + pre == pre;
  }

  lemma UpToPlain(pre: string, v: string)
    ensures Render(LitsOf(pre) + [PLAIN], v) == pre + v && Fields(LitsOf(pre) + [PLAIN]) == [PLAIN]
  {
    LitsAlone(pre, v);
    RenderSnoc(LitsOf(pre), PLAIN, v);
    FieldsSnoc(LitsOf(pre), PLAIN);
    PlainShows(v);
  }

  lemma AroundRenders(pre: string, post: string, v: string)
    ensures Render(AroundPlain(pre, post), v) == pre + v + post && Fields(AroundPlain(pre, post)) == [PLAIN]
  {
    UpToPlain(pre, v);
    LitsRender(LitsOf(pre) + [PLAIN], post, v);
    LitsNoFields(LitsOf(pre) + [PLAIN], post);
  }

  lemma Regroup<T>(a: seq<T>, b: seq<T>, c: seq<T>)
    ensures a + b + c == a + (b + c)
  {
  }

  lemma AroundParses(pre: string, post: string)
    requires NoBraces(pre) && NoBraces(post)
    ensures Parse(pre + HOLE + post) == Pieces(AroundPlain(pre, post))
  {
    HoleParses(post);
    LitsParse(pre, HOLE + post);
    Regroup(pre, HOLE, post);
    Regroup(LitsOf(pre), [PLAIN], LitsOf(post));
  }

  lemma EndsOf(pre: string, post: string)
    requires (pre == "" || pre[0] != '/') && (post == "" || post[|post| - 1] != '/')
    ensures var template := pre + HOLE + post;
      template != "" && template[0] != '/' && template[|template| - 1] != '/'
  {
  }

  /** A template of literal text around the plain placeholder renders to that text around the
      workspace id; it is well shaped unless a slash is at an end of it. */
  lemma PlainTemplate(pre: string, post: string, v: string)
    requires NoBraces(pre) && NoBraces(post)
    requires (pre == "" || pre[0] != '/') && (post == "" || post[|post| - 1] != '/')
    ensures WellShaped(pre + HOLE + post) && Rendered(pre + HOLE + post, v) == pre + v + post
  {
    AroundParses(pre, post);
    AroundRenders(pre, post, v);
    EndsOf(pre, post);
    PlainShows(v);
  }

  /** A placeholder without conversion and format spec is harmless. */
  lemma PlainIsHarmless(template: string)
    requires OnePlaceholder(template) && Slot(template).conv == None && Slot(template).spec == ""
    ensures WellShaped(template) && Harmless(FormatIn(template))
  {
    assert ParseSpec("") == Some(Spec(' ', '<', 0, None));
  }

  const TRUNCATING := "{" + (PLACEHOLDER + ":.2}")

  lemma TruncatingSpec()
    ensures ParseSpec(".2") == Some(Spec(' ', '<', 0, Some(2)))
  {
    var s, p := ".2", "2";
    assert s[1..] == p && p[1..] == "" && p[..1] == p && p[..0] == "";
    assert DigitsEnd(p) == 1 && DigitsEnd(s) == 0;
    assert Decimal(p) == 2;
  }

  lemma PlaceholderIsPlain()
    ensures forall c :: c in PLACEHOLDER ==> !EndsName(c)
  {
  }

  lemma TruncatingParses()
    ensures Parse(TRUNCATING) == Pieces([Field(PLACEHOLDER, None, ".2")])
  {
    var f := Field(PLACEHOLDER, None, ".2");
    assert [f][1..] == [] && WriteAll([f]) == Write(f) + "";
    assert ".2" + "}" == ".2}" && ":" + ".2}" == ":.2}" && Write(f) + "" == TRUNCATING;
    PlaceholderIsPlain();
    ParseWritten([f]);
  }

  lemma TruncatingShows(v: string)
    requires |v| > 2
    ensures WellShaped(TRUNCATING) && Rendered(TRUNCATING, v) == v[..2]
  {
    var f := Field(PLACEHOLDER, None, ".2");
    TruncatingParses();
    TruncatingSpec();
    assert [f][..0] == [] && Fields([f]) == [f];
    RenderSnoc([], f, v);
    assert [] + [f] == [f] && "" + Shown(f, v) == Shown(f, v);
    assert Copies(' ', 0) + v[..2] + Copies(' ', 0) == v[..2];
  }

  lemma TruncatingAccepted()
    ensures Accepts(TRUNCATING)
  {
    TruncatingShows(SENTINEL);
    assert SENTINEL[..2] == "__";
    SplitSlashFree("__");
  }

  /** The sentinel does not decide every template that the source accepts: this one is accepted,
      renders a valid id to "..", and two valid ids to the same path. */
  lemma TruncationWitness()
    ensures Accepts(TRUNCATING)
    ensures NameOk("..x") && Rendered(TRUNCATING, "..x") == ".."
    ensures NameOk("ab1") && NameOk("ab2") && Rendered(TRUNCATING, "ab1") == Rendered(TRUNCATING, "ab2")
  {
    TruncatingAccepted();
    TruncatingShows("..x");
    TruncatingShows("ab1");
    TruncatingShows("ab2");
    CutsToTwo();
  }

  lemma CutsToTwo()
    ensures "..x"[..2] == ".." && "ab1"[..2] == "ab2"[..2]
    ensures NameOk("..x") && NameOk("ab1") && NameOk("ab2")
  {
  }

  /** A segment and a slash in front of a path. */
  function Slashed(seg: string, rest: string): string {
    seg + "/" + rest
  }

  lemma SplitSegment(seg: string, rest: string)
    requires '/' !in seg
    ensures Split(Slashed(seg, rest)) == [seg] + Split(rest)
  {
    var tail := "/" + rest;
    SplitConcat(seg, tail);
    SplitSlashFree(seg);
    assert seg + "/" + rest == seg + tail && tail[1..] == rest;
    GlueSlash(seg, rest);
  }

  lemma GlueSlash(seg: string, rest: string)
    ensures Glue([seg], [""] + Split(rest)) == [seg] + Split(rest)
  {
    assert [seg][..0] == [] && seg + "" == seg;
  }

  lemma PathParts(mount: string, r: string)
    ensures "/v1/" + mount + "/data/" + r == Slashed("", Slashed("v1", Slashed(mount, Slashed("data", r))))
  {
    assert "/v1/" == "/" + "v1" + "/" && "/data/" == "/" + "data" + "/";
  }

  lemma FourFirst(a: string, b: string, c: string, d: string, segs: seq<string>)
    ensures [a] + ([b] + ([c] + ([d] + segs))) == [a, b, c, d] + segs
  {
  }

  /** The segments of a composed path: the fixed ones, the mount, and the template's. */
  lemma PathSplits(mount: string, template: string, workspace: string)
    requires NameOk(mount) && WellShaped(template)
    ensures Split(PathFor(mount, template, workspace)) ==
            ["", "v1", mount, "data"] + Split(Rendered(template, workspace))
  {
    var r := Rendered(template, workspace);
    PathParts(mount, r);
    NameFacts(mount);
    SplitSegment("data", r);
    SplitSegment(mount, Slashed("data", r));
    SplitSegment("v1", Slashed(mount, Slashed("data", r)));
    SplitSegment("", Slashed("v1", Slashed(mount, Slashed("data", r))));
    FourFirst("", "v1", mount, "data", Split(r));
  }

  lemma AcceptedIsClean(template: string, w: string)
    requires Accepts(template) && FillsSafely(FormatIn(template)) && NameOk(w)
    ensures AllClean(template, w)
  {
    AcceptsMeansCleanSample(template);
    SentinelIsAName();
    AllCleanTransfers(template, SENTINEL, w);
  }

  lemma AllButRoot(mount: string, segs: seq<string>)
    requires Clean(mount) && forall seg :: seg in segs ==> Clean(seg)
    ensures forall seg :: seg in (["", "v1", mount, "data"] + segs)[1..] ==> Clean(seg)
  {
    assert (["", "v1", mount, "data"] + segs)[1..] == ["v1", mount, "data"] + segs;
  }

  lemma PathIsClean(mount: string, template: string, workspace: string)
    requires NameOk(mount) && WellShaped(template) && AllClean(template, workspace)
    ensures forall seg :: seg in Split(PathFor(mount, template, workspace))[1..] ==> Clean(seg)
  {
    PathSplits(mount, template, workspace);
    NameFacts(mount);
    AllButRoot(mount, Split(Rendered(template, workspace)));
  }

  /** For every accepted mount and template with a harmless placeholder and every valid workspace
      id, the composed path has no empty, "." or ".." segment after its root, no character that
      would end or reinterpret the path, and is left as it is by dot-segment removal. */
  lemma PathIsCanonical(mount: string, template: string, workspace: string)
    requires NameOk(mount) && Accepts(template) && Harmless(FormatIn(template)) && NameOk(workspace)
    ensures var path := PathFor(mount, template, workspace);
      && path != "" && path[0] == '/'
      && (forall seg :: seg in Split(path)[1..] ==> Clean(seg))
      && RemoveDotSegments(path, "") == path
  {
    AcceptedIsClean(template, workspace);
    PathIsClean(mount, template, workspace);
    CleanIsCanonical(PathFor(mount, template, workspace));
  }

  lemma CleanIsCanonical(path: string)
    requires path != "" && path[0] == '/' && forall seg :: seg in Split(path)[1..] ==> Clean(seg)
    ensures RemoveDotSegments(path, "") == path
  {
    assert path == "/" + path[1..];
    assert Split(path)[1..] == Split(path[1..]);
    NoDotsFixed(path[1..], "");
    assert "" + "/" + path[1..] == path;
  }

  ghost predicate DifferOnlyAt(a: seq<string>, b: seq<string>, k: nat) {
    k < |a| == |b| && forall i :: 0 <= i < |a| && i != k ==> a[i] == b[i]
  }

  lemma HolesDiffer(pre: string, post: string, x: string, y: string)
    ensures DifferOnlyAt(WithHole(pre, post, x), WithHole(pre, post, y), |Split(pre)| - 1)
  {
  }

  lemma TemplateStructureFixed(template: string, v: string, w: string) returns (k: nat)
    requires WellShaped(template) && FillsSafely(FormatIn(template)) && NameOk(v) && NameOk(w)
    ensures DifferOnlyAt(Split(Rendered(template, v)), Split(Rendered(template, w)), k)
  {
    var f := FormatIn(template);
    var pre, post := RenderedSplits(template);
    k := |Split(pre)| - 1;
    HolesDiffer(pre, post, Show(f, v), Show(f, w));
  }

  /** Two workspaces' paths have the same segments but for one, at the same place. */
  lemma PathStructureFixed(mount: string, template: string, v: string, w: string) returns (k: nat)
    requires NameOk(mount) && WellShaped(template) && FillsSafely(FormatIn(template)) && NameOk(v) && NameOk(w)
    ensures DifferOnlyAt(Split(PathFor(mount, template, v)), Split(PathFor(mount, template, w)), k)
  {
    PathSplits(mount, template, v);
    PathSplits(mount, template, w);
    k := TemplateStructureFixed(template, v, w);
    k := k + 4;
  }

  /** Different workspaces never share a path, exactly if the placeholder's format keeps names
      apart. */
  lemma PathIsInjective(mount: string, template: string)
    requires WellShaped(template)
    ensures (forall v, w :: NameOk(v) && NameOk(w) && PathFor(mount, template, v) == PathFor(mount, template, w) ==>
                              v == w) <==>
            Distinct(FormatIn(template))
  {
    ApartIff(template);
    forall v, w
      ensures PathFor(mount, template, v) == PathFor(mount, template, w) <==>
              Rendered(template, v) == Rendered(template, w)
    {
      SameAround("/v1/" + mount + "/data/", Rendered(template, v), Rendered(template, w), "");
    }
  }
}
