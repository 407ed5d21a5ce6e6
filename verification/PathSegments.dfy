/** URL paths as strings: splitting at '/', and dot-segment removal. */
module PathSegments {
  /** `s.split("/")`. */
  function Split(s: string): (segs: seq<string>)
    ensures |segs| >= 1
    ensures forall seg :: seg in segs ==> '/' !in seg
  {
    if s == "" then [""]
    else
      var rest := Split(s[1..]);
      if s[0] == '/' then [""] + rest else [[s[0]] + rest[0]] + rest[1..]
  }

  lemma {:induction false} SplitSlashFree(s: string)
    requires '/' !in s
    ensures Split(s) == [s]
  {
    if s != "" {
      SplitSlashFree(s[1..]);
      assert s == [s[0]] + s[1..];
    }
  }

  /** Two segment lists with the last segment of one glued to the first of the other. */
  function Glue(sa: seq<string>, sb: seq<string>): seq<string>
    requires |sa| >= 1 && |sb| >= 1
  {
    sa[..|sa| - 1] + [sa[|sa| - 1] + sb[0]] + sb[1..]
  }

  lemma GlueHead(x: string, st: seq<string>, sb: seq<string>)
    requires |st| >= 1 && |sb| >= 1
    ensures Glue([x] + st, sb) == [x] + Glue(st, sb)
  {
    assert ([x] + st)[..|st|] == [x] + st[..|st| - 1];
  }

  lemma GlueFirstChar(c: char, st: seq<string>, sb: seq<string>)
    requires |st| >= 1 && |sb| >= 1
    ensures Glue([[c] + st[0]] + st[1..], sb) == [[c] + Glue(st, sb)[0]] + Glue(st, sb)[1..]
  {
    if |st| == 1 {
      assert [[c] + st[0]] + st[1..] == [[c] + st[0]];
      assert [c] + (st[0] + sb[0]) == ([c] + st[0]) + sb[0];
    } else {
      GlueHead([c] + st[0], st[1..], sb);
      GlueHead(st[0], st[1..], sb);
      assert st == [st[0]] + st[1..];
    }
  }

  /** Splitting commutes with concatenation. */
  lemma {:induction false} SplitConcat(a: string, b: string)
    ensures Split(a + b) == Glue(Split(a), Split(b))
  {
    if a == "" {
      assert a + b == b && "" + Split(b)[0] == Split(b)[0];
      assert Split(b) == [Split(b)[0]] + Split(b)[1..];
      assert Split(a)[..0] == [];
    } else {
      SplitConcat(a[1..], b);
      assert (a + b)[1..] == a[1..] + b;
      if a[0] == '/' {
        GlueHead("", Split(a[1..]), Split(b));
      } else {
        GlueFirstChar(a[0], Split(a[1..]), Split(b));
      }
    }
  }

  lemma {:induction false} SplitHas(s: string, c: char) returns (seg: string)
    requires c in s && c != '/'
    ensures seg in Split(s) && c in seg
  {
    var rest := Split(s[1..]);
    if s[0] == c {
      seg := [c] + rest[0];
    } else {
      seg := SplitHas(s[1..], c);
      assert rest == [rest[0]] + rest[1..];
      if seg == rest[0] && s[0] != '/' {
        seg := [s[0]] + seg;
      }
    }
  }

  /** A path is its first segment, then nothing or '/' and the rest. */
  lemma {:induction false} FirstSegment(s: string)
    ensures var segs := Split(s);
      var n := |segs[0]|;
      && n <= |s| && s[..n] == segs[0]
      && (n == |s| <==> |segs| == 1)
      && (n < |s| ==> s[n] == '/' && Split(s[n + 1..]) == segs[1..])
  {
    if s != "" {
      if s[0] == '/' {
        assert s[0 + 1..] == s[1..];
      } else {
        FirstSegment(s[1..]);
        var n := |Split(s[1..])[0]|;
        assert s[..n + 1] == [s[0]] + s[1..][..n];
        if n < |s[1..]| {
          assert s[1..][n + 1..] == s[n + 2..];
        }
      }
    }
  }

  predicate StartsWith(s: string, p: string) {
    p <= s
  }

  /** `out` without its last segment and the '/' before it, if any. */
  function DropLast(out: string): string {
    if out == "" then ""
    else if out[|out| - 1] == '/' then out[..|out| - 1]
    else DropLast(out[..|out| - 1])
  }

  /** The length of the first path segment of `s`, with its initial '/' if it has one. */
  function FirstLength(s: string): (n: nat)
    requires s != ""
    ensures 1 <= n <= |s|
  {
    if s[0] == '/' then
      FirstSegment(s[1..]);
      1 + |Split(s[1..])[0]|
    else
      FirstSegment(s);
      |Split(s)[0]|
  }

  /** One round of remove_dot_segments, section 5.2.4 of RFC 3986, on its input and output
      buffers. */
  function Round(input: string, out: string): (r: (string, string))
    requires input != ""
    ensures |r.0| < |input|
  {
    if StartsWith(input, "../") then (input[3..], out)
    else if StartsWith(input, "./") then (input[2..], out)
    else if StartsWith(input, "/./") then (input[2..], out)
    else if input == "/." then ("/", out)
    else if StartsWith(input, "/../") then (input[3..], DropLast(out))
    else if input == "/.." then ("/", DropLast(out))
    else if input == "." || input == ".." then ("", out)
    else (input[FirstLength(input)..], out + input[..FirstLength(input)])
  }

  /** remove_dot_segments: rounds until the input is used up. */
  function RemoveDotSegments(input: string, out: string): string
    decreases |input|
  {
    if input == "" then out
    else
      var (input', out') := Round(input, out);
      RemoveDotSegments(input', out')
  }

  predicate IsDot(seg: string) {
    seg == "." || seg == ".."
  }

  predicate NoDots(segs: seq<string>) {
    forall seg :: seg in segs ==> !IsDot(seg)
  }

  lemma DotSlash(s: string)
    ensures StartsWith(s, "./") ==> Split(s)[0] == "."
    ensures StartsWith(s, "../") ==> Split(s)[0] == ".."
  {
    if StartsWith(s, "./") {
      assert s[1..][0] == '/';
    }
    if StartsWith(s, "../") {
      assert s[1..][0] == '.' && s[1..][1..][0] == '/';
      assert Split(s[1..])[0] == ".";
    }
  }

  lemma SlashPrefix(s: string, p: string)
    ensures StartsWith("/" + s, "/" + p) <==> StartsWith(s, p)
    ensures "/" + s == "/" + p <==> s == p
  {
    assert ("/" + s)[1..] == s && ("/" + p)[1..] == p;
    if StartsWith("/" + s, "/" + p) {
      assert s[..|p|] == ("/" + s)[..|p| + 1][1..];
    }
  }

  lemma FirstIsPlain(s: string)
    requires !IsDot(Split(s)[0])
    ensures var input := "/" + s;
      && FirstLength(input) == 1 + |Split(s)[0]|
      && !StartsWith(input, "/./") && !StartsWith(input, "/../") && input != "/." && input != "/.."
  {
    assert ("/" + s)[1..] == s;
    DotSlash(s);
    SplitSlashFree(".");
    SplitSlashFree("..");
    SlashPrefix(s, "./");
    SlashPrefix(s, "../");
    SlashPrefix(s, ".");
    SlashPrefix(s, "..");
    assert "/" + "./" == "/./" && "/" + "../" == "/../" && "/" + "." == "/." && "/" + ".." == "/..";
  }

  lemma SlashIsFirst(s: string)
    ensures !StartsWith("/" + s, "../") && !StartsWith("/" + s, "./") && "/" + s != "." && "/" + s != ".."
  {
    assert ("/" + s)[0] == '/';
  }

  lemma SliceAfterSlash(s: string, n: nat, out: string)
    requires n <= |s|
    ensures ("/" + s)[1 + n..] == s[n..]
    ensures out + ("/" + s)[..1 + n] == out + "/" + s[..n]
  {
    assert ("/" + s)[..1 + n] == "/" + s[..n];
    assert out + ("/" + s[..n]) == out + "/" + s[..n];
  }

  /** A round moves a plain first segment to the output. */
  lemma MovesFirst(s: string, out: string)
    requires !IsDot(Split(s)[0])
    ensures var n := |Split(s)[0]|;
      n <= |s| && Round("/" + s, out) == (s[n..], out + "/" + s[..n])
  {
    FirstSegment(s);
    FirstIsPlain(s);
    SlashIsFirst(s);
    SliceAfterSlash(s, |Split(s)[0]|, out);
  }

  lemma Rejoin(s: string, n: nat, out: string)
    requires n < |s| && s[n] == '/'
    ensures s[n..] == "/" + s[n + 1..]
    ensures out + "/" + s[..n] + "/" + s[n + 1..] == out + "/" + s
  {
    assert s == s[..n] + (['/'] + s[n + 1..]);
  }

  ghost predicate FixedFrom(s: string, out: string) {
    RemoveDotSegments("/" + s, out) == out + "/" + s
  }

  lemma FixedFromLast(s: string, out: string)
    requires Split(s) == [s] && !IsDot(s)
    ensures FixedFrom(s, out)
  {
    MovesFirst(s, out);
    assert s[|s|..] == "" && s[..|s|] == s;
    RoundOn("/" + s, out);
    EmptyInput(out + "/" + s);
  }

  lemma FixedFromMore(s: string, out: string, n: nat)
    requires !IsDot(Split(s)[0]) && n == |Split(s)[0]| < |s| && s[n] == '/'
    requires FixedFrom(s[n + 1..], out + "/" + s[..n])
    ensures FixedFrom(s, out)
  {
    MovesFirst(s, out);
    RoundOn("/" + s, out);
    Rejoin(s, n, out);
  }

  /** An absolute path without "." and ".." segments is a fixed point. */
  lemma {:induction false} NoDotsFixed(s: string, out: string)
    requires NoDots(Split(s))
    ensures RemoveDotSegments("/" + s, out) == out + "/" + s
    ensures FixedFrom(s, out)
    decreases |s|
  {
    var segs := Split(s);
    var n := |segs[0]|;
    FirstSegment(s);
    assert segs[0] in segs;
    if n == |s| {
      assert s[..n] == s && segs == [s];
      FixedFromLast(s, out);
    } else {
      assert forall seg :: seg in segs[1..] ==> seg in segs;
      NoDotsFixed(s[n + 1..], out + "/" + s[..n]);
      FixedFromMore(s, out, n);
    }
  }

  lemma EmptyInput(out: string)
    ensures RemoveDotSegments("", out) == out
  {
  }

  // ----- What dot-segment removal does to any absolute path -----

  /** The absolute path of these segments. */
  function Absolute(segs: seq<string>): string {
    if segs == [] then "" else Absolute(segs[..|segs| - 1]) + ("/" + segs[|segs| - 1])
  }

  ghost predicate SlashFree(segs: seq<string>) {
    forall seg :: seg in segs ==> '/' !in seg
  }

  /** One segment after `kept` ones: "." keeps them, ".." takes the last of them back. */
  function Keep(kept: seq<string>, seg: string): seq<string> {
    if seg == "." then kept
    else if seg == ".." then (if kept == [] then [] else kept[..|kept| - 1])
    else kept + [seg]
  }

  function KeepAll(kept: seq<string>, segs: seq<string>): seq<string>
    decreases |segs|
  {
    if segs == [] then kept else KeepAll(Keep(kept, segs[0]), segs[1..])
  }

  /** A path that ends in a dot segment names a directory and keeps its final slash. */
  function Ending(segs: seq<string>): seq<string> {
    if segs != [] && IsDot(segs[|segs| - 1]) then [""] else []
  }

  lemma AbsoluteSnoc(kept: seq<string>, seg: string)
    ensures Absolute(kept + [seg]) == Absolute(kept) + ("/" + seg)
  {
    assert (kept + [seg])[..|kept|] == kept;
  }

  lemma {:induction false} DropsSegment(out: string, seg: string)
    requires '/' !in seg
    ensures DropLast(out + ("/" + seg)) == out
    decreases |seg|
  {
    var all := out + ("/" + seg);
    if seg == "" {
      assert all[..|all| - 1] == out;
    } else {
      var front := seg[..|seg| - 1];
      assert all[|all| - 1] == seg[|seg| - 1] && all[|all| - 1] in seg;
      assert all[..|all| - 1] == out + ("/" + front);
      DropsSegment(out, front);
    }
  }

  lemma DropsLast(kept: seq<string>)
    requires SlashFree(kept)
    ensures DropLast(Absolute(kept)) == Absolute(Keep(kept, ".."))
  {
    if kept != [] {
      var last := kept[|kept| - 1];
      assert last in kept;
      DropsSegment(Absolute(kept[..|kept| - 1]), last);
    }
  }

  /** The rounds on a dot segment with more behind it. */
  lemma DotRound(rest: string, out: string)
    ensures Round("/./" + rest, out) == ("/" + rest, out)
    ensures Round("/../" + rest, out) == ("/" + rest, DropLast(out))
  {
    var one, two := "/./" + rest, "/../" + rest;
    assert one[0] == '/' && one[1] == '.' && one[2] == '/' && one[..3] == "/./" && one[2..] == "/" + rest;
    assert two[0] == '/' && two[1] == '.' && two[2] == '.' && two[..4] == "/../" && two[3..] == "/" + rest;
  }

  lemma LastDotRound(out: string)
    ensures Round("/.", out) == ("/", out) && Round("/..", out) == ("/", DropLast(out))
  {
    assert "/."[0] == '/' && "/.."[0] == '/' && "/.."[2] == '.';
  }

  lemma LastSlash(out: string)
    ensures RemoveDotSegments("/", out) == out + "/"
  {
    assert Split("") == [""] && !IsDot("");
    MovesFirst("", out);
    RoundOn("/", out);
    EmptyInput(out + "/");
    assert "/" + "" == "/" && out + "/" + "" == out + "/";
  }

  lemma RoundOn(input: string, out: string)
    requires input != ""
    ensures RemoveDotSegments(input, out) == RemoveDotSegments(Round(input, out).0, Round(input, out).1)
  {
  }

  lemma KeepSlashFree(kept: seq<string>, seg: string)
    requires SlashFree(kept) && '/' !in seg
    ensures SlashFree(Keep(kept, seg))
  {
  }

  lemma CutAt(s: string, n: nat)
    requires n < |s| && s[n] == '/'
    ensures s[n..] == "/" + s[n + 1..] && s == s[..n] + ("/" + s[n + 1..])
  {
  }

  lemma PlainRound(s: string, kept: seq<string>)
    requires !IsDot(Split(s)[0]) && |Split(s)| > 1
    ensures var seg := Split(s)[0];
      |seg| < |s| && Round("/" + s, Absolute(kept)) == ("/" + s[|seg| + 1..], Absolute(kept + [seg]))
  {
    var out, seg := Absolute(kept), Split(s)[0];
    FirstSegment(s);
    MovesFirst(s, out);
    CutAt(s, |seg|);
    AbsoluteSnoc(kept, seg);
    Regroup(out, "/", seg);
  }

  lemma Regroup(a: string, b: string, c: string)
    ensures a + b + c == a + (b + c)
  {
  }

  lemma DotSegmentRound(s: string, kept: seq<string>)
    requires SlashFree(kept) && IsDot(Split(s)[0]) && |Split(s)| > 1
    ensures var seg := Split(s)[0];
      |seg| < |s| && Round("/" + s, Absolute(kept)) == ("/" + s[|seg| + 1..], Absolute(Keep(kept, seg)))
  {
    var seg := Split(s)[0];
    FirstSegment(s);
    CutAt(s, |seg|);
    var rest := s[|seg| + 1..];
    DotRound(rest, Absolute(kept));
    if seg == "." {
      assert "/" + ("." + ("/" + rest)) == "/./" + rest;
    } else {
      assert "/" + (".." + ("/" + rest)) == "/../" + rest;
      DropsLast(kept);
    }
  }

  /** A segment with more behind it is dealt with in one round. */
  lemma SegmentRound(s: string, kept: seq<string>)
    requires SlashFree(kept) && |Split(s)| > 1
    ensures var seg := Split(s)[0];
      |seg| < |s| && Round("/" + s, Absolute(kept)) == ("/" + s[|seg| + 1..], Absolute(Keep(kept, seg)))
  {
    if IsDot(Split(s)[0]) {
      DotSegmentRound(s, kept);
    } else {
      PlainRound(s, kept);
    }
  }

  /** The last segment, and the slash that stays of a dot segment. */
  lemma LastDot(s: string, kept: seq<string>)
    requires SlashFree(kept) && IsDot(s)
    ensures RemoveDotSegments("/" + s, Absolute(kept)) == Absolute(Keep(kept, s) + [""])
  {
    var out := Absolute(kept);
    assert "/" + "." == "/." && "/" + ".." == "/..";
    LastDotRound(out);
    RoundOn("/" + s, out);
    DropsLast(kept);
    LastSlash(Absolute(Keep(kept, s)));
    AbsoluteSnoc(Keep(kept, s), "");
  }

  lemma LastPlain(s: string, kept: seq<string>)
    requires !IsDot(s) && Split(s) == [s]
    ensures RemoveDotSegments("/" + s, Absolute(kept)) == Absolute(kept + [s])
  {
    FixedFromLast(s, Absolute(kept));
    AbsoluteSnoc(kept, s);
    Regroup(Absolute(kept), "/", s);
  }

  lemma LastSegment(s: string, kept: seq<string>)
    requires SlashFree(kept) && Split(s) == [s]
    ensures RemoveDotSegments("/" + s, Absolute(kept)) == Absolute(Keep(kept, s) + Ending([s]))
  {
    if IsDot(s) {
      LastDot(s, kept);
    } else {
      LastPlain(s, kept);
      assert kept + [s] + [] == kept + [s];
    }
  }

  ghost predicate RemovedFrom(s: string, kept: seq<string>) {
    RemoveDotSegments("/" + s, Absolute(kept)) == Absolute(KeepAll(kept, Split(s)) + Ending(Split(s)))
  }

  lemma RemovedFromLast(s: string, kept: seq<string>)
    requires SlashFree(kept) && Split(s) == [s]
    ensures RemovedFrom(s, kept)
  {
    LastSegment(s, kept);
    assert KeepAll(Keep(kept, s), []) == Keep(kept, s);
  }

  lemma RemovedFromMore(s: string, kept: seq<string>, rest: string)
    requires SlashFree(kept) && |Split(s)| > 1 && Split(rest) == Split(s)[1..]
    requires |Split(s)[0]| < |s| && rest == s[|Split(s)[0]| + 1..]
    requires RemovedFrom(rest, Keep(kept, Split(s)[0]))
    ensures RemovedFrom(s, kept)
  {
    SegmentRound(s, kept);
    RoundOn("/" + s, Absolute(kept));
  }

  /** For any absolute path: "." segments go, ".." segments take the segment before them along, and
      the others stay in order. */
  lemma {:induction false} RemovesDots(s: string, kept: seq<string>)
    requires SlashFree(kept)
    ensures RemoveDotSegments("/" + s, Absolute(kept)) == Absolute(KeepAll(kept, Split(s)) + Ending(Split(s)))
    ensures RemovedFrom(s, kept)
    decreases |s|
  {
    var segs := Split(s);
    FirstSegment(s);
    if |segs| == 1 {
      assert s[..|s|] == s && segs == [s];
      RemovedFromLast(s, kept);
    } else {
      var rest := s[|segs[0]| + 1..];
      assert segs[0] in segs;
      KeepSlashFree(kept, segs[0]);
      RemovesDots(rest, Keep(kept, segs[0]));
      RemovedFromMore(s, kept, rest);
    }
  }
}
