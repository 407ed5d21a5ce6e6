/** `str.format` with one string argument made of name characters: parsing the format string,
    conversions, and the format specs of strings (fill, alignment, width, precision), as in the
    "Format String Syntax" of the Python library reference. */
module Formatting {
  import opened Wrappers
  import opened Names

  /** One literal character, or a replacement field with its conversion and format spec. */
  datatype Piece = Lit(c: char) | Field(name: string, conv: Option<char>, spec: string)

  /** `string.Formatter().parse`: pieces, or a ValueError. A field with an indexed name, which
      cannot be the placeholder, counts as the latter. */
  datatype Parsed = Pieces(ps: seq<Piece>) | Malformed

  /** The first of the characters that end or change a field name, or the length of `s`. */
  function NameEnd(s: string): (n: nat)
    ensures n <= |s|
  {
    if s == "" || EndsName(s[0]) then 0 else 1 + NameEnd(s[1..])
  }

  predicate EndsName(c: char) {
    c == '{' || c == '}' || c == '!' || c == ':' || c == '['
  }

  /** The brace that closes a format spec, inside `depth` open ones, or the length of `s`. */
  function SpecEnd(s: string, depth: nat): (n: nat)
    ensures n <= |s|
  {
    if s == "" || (s[0] == '}' && depth == 0) then 0
    else 1 + SpecEnd(s[1..], if s[0] == '{' then depth + 1 else if s[0] == '}' then depth - 1 else depth)
  }

  function Prepend(p: Piece, r: Parsed): Parsed {
    if r.Pieces? then Pieces([p] + r.ps) else r
  }

  function Parse(s: string): Parsed
    decreases |s|
  {
    if s == "" then Pieces([])
    else if s[0] == '{' then
      if |s| > 1 && s[1] == '{' then Prepend(Lit('{'), Parse(s[2..])) else ParseField(s[1..])
    else if s[0] == '}' then
      if |s| > 1 && s[1] == '}' then Prepend(Lit('}'), Parse(s[2..])) else Malformed
    else Prepend(Lit(s[0]), Parse(s[1..]))
  }

  /** A field whose opening brace has been read, and what follows it. */
  function ParseField(s: string): Parsed
    decreases |s|
  {
    var n := NameEnd(s);
    if n == |s| || s[n] == '{' || s[n] == '[' then Malformed
    else if s[n] == '}' then Prepend(Field(s[..n], None, ""), Parse(s[n + 1..]))
    else if s[n] == ':' then ParseSpecText(s[..n], None, s[n + 1..])
    else if |s| < n + 3 then Malformed
    else if s[n + 2] == '}' then Prepend(Field(s[..n], Some(s[n + 1]), ""), Parse(s[n + 3..]))
    else if s[n + 2] == ':' then ParseSpecText(s[..n], Some(s[n + 1]), s[n + 3..])
    else Malformed
  }

  function ParseSpecText(name: string, conv: Option<char>, s: string): Parsed
    decreases |s|
  {
    var n := SpecEnd(s, 0);
    if n == |s| then Malformed else Prepend(Field(name, conv, s[..n]), Parse(s[n + 1..]))
  }

  // ----- Writing a format string and parsing it -----

  /** A piece as it is written in a format string. */
  function Write(p: Piece): string {
    match p
    case Lit(c) => if c == '{' then "{{" else if c == '}' then "}}" else [c]
    case Field(name, conv, spec) => "{" + (name + WriteFormat(conv, spec + "}"))
  }

  function WriteFormat(conv: Option<char>, rest: string): string {
    if conv.None? then ":" + rest else ['!', conv.value, ':'] + rest
  }

  function WriteAll(ps: seq<Piece>): string {
    if ps == [] then "" else Write(ps[0]) + WriteAll(ps[1..])
  }

  /** A name that ends where it should, and a spec without fields of its own. */
  predicate Writable(p: Piece) {
    p.Field? ==> (forall c :: c in p.name ==> !EndsName(c)) && forall c :: c in p.spec ==> c != '{' && c != '}'
  }

  lemma {:induction false} NameEndAt(name: string, rest: string)
    requires (forall c :: c in name ==> !EndsName(c)) && rest != "" && EndsName(rest[0])
    ensures NameEnd(name + rest) == |name|
    ensures (name + rest)[..|name|] == name && (name + rest)[|name|..] == rest
  {
    if name != "" {
      NameEndAt(name[1..], rest);
      assert (name + rest)[1..] == name[1..] + rest;
    }
  }

  lemma {:induction false} SpecEndAt(spec: string, rest: string)
    requires forall c :: c in spec ==> c != '{' && c != '}'
    ensures SpecEnd(spec + ("}" + rest), 0) == |spec|
    ensures var s := spec + ("}" + rest); s[..|spec|] == spec && s[|spec| + 1..] == rest
  {
    if spec != "" {
      assert spec[0] in spec && forall c :: c in spec[1..] ==> c in spec;
      SpecEndAt(spec[1..], rest);
      assert (spec + ("}" + rest))[1..] == spec[1..] + ("}" + rest);
    }
  }

  lemma ParsesSpecText(name: string, conv: Option<char>, spec: string, rest: string)
    requires forall c :: c in spec ==> c != '{' && c != '}'
    ensures ParseSpecText(name, conv, spec + ("}" + rest)) == Prepend(Field(name, conv, spec), Parse(rest))
  {
    SpecEndAt(spec, rest);
  }

  lemma FormatParts(conv: Option<char>, end: string)
    ensures var tail := WriteFormat(conv, end);
      if conv.None? then |tail| > 0 && tail[0] == ':' && tail[1..] == end
      else |tail| > 2 && tail[0] == '!' && tail[1] == conv.value && tail[2] == ':' && tail[3..] == end
  {
  }

  lemma SliceAfter(name: string, tail: string, k: nat)
    requires k <= |tail|
    ensures (name + tail)[|name| + k..] == tail[k..]
    ensures k < |tail| ==> (name + tail)[|name| + k] == tail[k]
  {
  }

  lemma ParsesField(f: Piece, rest: string)
    requires f.Field? && Writable(f)
    ensures ParseField(f.name + WriteFormat(f.conv, f.spec + ("}" + rest))) == Prepend(f, Parse(rest))
  {
    var end := f.spec + ("}" + rest);
    var tail := WriteFormat(f.conv, end);
    FormatParts(f.conv, end);
    NameEndAt(f.name, tail);
    ParsesSpecText(f.name, f.conv, f.spec, rest);
    ParsesTail(f.name, f.conv, tail, end);
  }

  /** After the name, parsing goes on with the spec. */
  lemma ParsesTail(name: string, conv: Option<char>, tail: string, end: string)
    requires NameEnd(name + tail) == |name| && (name + tail)[..|name|] == name
    requires if conv.None? then |tail| > 0 && tail[0] == ':' && tail[1..] == end
             else |tail| > 2 && tail[0] == '!' && tail[1] == conv.value && tail[2] == ':' && tail[3..] == end
    ensures ParseField(name + tail) == ParseSpecText(name, conv, end)
  {
    SliceAfter(name, tail, 0);
    SliceAfter(name, tail, 1);
    if conv.Some? {
      SliceAfter(name, tail, 2);
      SliceAfter(name, tail, 3);
    }
  }

  lemma WriteFieldThen(f: Piece, rest: string)
    requires f.Field?
    ensures Write(f) + rest == "{" + (f.name + WriteFormat(f.conv, f.spec + ("}" + rest)))
  {
    assert f.spec + "}" + rest == f.spec + ("}" + rest);
    assert WriteFormat(f.conv, f.spec + "}") + rest == WriteFormat(f.conv, f.spec + "}" + rest);
    assert f.name + WriteFormat(f.conv, f.spec + "}") + rest == f.name + (WriteFormat(f.conv, f.spec + "}") + rest);
  }

  lemma ParsesPiece(p: Piece, rest: string)
    requires Writable(p)
    ensures Parse(Write(p) + rest) == Prepend(p, Parse(rest))
  {
    match p
    case Lit(c) =>
      assert (Write(p) + rest)[|Write(p)|..] == rest;
    case Field(name, _, _) =>
      var s := name + WriteFormat(p.conv, p.spec + ("}" + rest));
      WriteFieldThen(p, rest);
      ParsesField(p, rest);
      assert ("{" + s)[1..] == s && s[0] != '{';
  }

  /** Parsing a format string gives back the pieces it was written from, escaped braces and all. */
  lemma {:induction false} ParseWritten(ps: seq<Piece>)
    requires forall p :: p in ps ==> Writable(p)
    ensures Parse(WriteAll(ps)) == Pieces(ps)
  {
    if ps != [] {
      ParseWritten(ps[1..]);
      ParsesPiece(ps[0], WriteAll(ps[1..]));
      assert ps == [ps[0]] + ps[1..];
    }
  }

  // ----- Conversions and format specs -----

  /** A string format spec. Without a width nothing is padded, which is what width 0 says. */
  datatype Spec = Spec(fill: char, align: char, width: nat, precision: Option<nat>)

  const MAX_SIZE := 0x7fff_ffff_ffff_ffff

  predicate IsAlign(c: char) {
    c == '<' || c == '>' || c == '=' || c == '^'
  }

  function DigitsEnd(s: string): (n: nat)
    ensures n <= |s|
    ensures forall i :: 0 <= i < n ==> '0' <= s[i] <= '9'
  {
    if s == "" || !('0' <= s[0] <= '9') then 0 else 1 + DigitsEnd(s[1..])
  }

  function Decimal(s: string): nat
    requires forall i :: 0 <= i < |s| ==> '0' <= s[i] <= '9'
  {
    if s == "" then 0 else 10 * Decimal(s[..|s| - 1]) + (s[|s| - 1] as int - '0' as int)
  }

  /** The format spec of a string; None is a ValueError. Signs, "#", "z", grouping and the types
      of numbers are errors here: none is allowed for strings. */
  function ParseSpec(s: string): Option<Spec> {
    if |s| >= 2 && IsAlign(s[1]) then ParseWidth(s[2..], s[0], s[1])
    else if |s| >= 1 && IsAlign(s[0]) then ParseZero(s[1..], s[0])
    else ParseZero(s, '<')
  }

  /** Without a fill character, a leading zero makes zero the fill. */
  function ParseZero(s: string, align: char): Option<Spec> {
    if s != "" && s[0] == '0' then ParseWidth(s[1..], '0', align) else ParseWidth(s, ' ', align)
  }

  function ParseWidth(s: string, fill: char, align: char): Option<Spec> {
    var n := DigitsEnd(s);
    var width := Decimal(s[..n]);
    if align == '=' || width > MAX_SIZE then None
    else if n < |s| && s[n] == '.' then
      var p := s[n + 1..];
      var m := DigitsEnd(p);
      if m == 0 || Decimal(p[..m]) > MAX_SIZE || !TypeOk(p[m..]) then None
      else Some(Spec(fill, align, width, Some(Decimal(p[..m]))))
    else if TypeOk(s[n..]) then Some(Spec(fill, align, width, None))
    else None
  }

  predicate TypeOk(t: string) {
    t == "" || t == "s"
  }

  /** What a field does to its argument: quote it or not, then format it. */
  datatype Format = Format(quoted: bool, spec: Spec)

  /** None is a ValueError: an unknown conversion or an invalid spec. */
  function FormatOf(f: Piece): Option<Format>
    requires f.Field?
  {
    match ParseSpec(f.spec)
    case None => None
    case Some(spec) =>
      if f.conv == None || f.conv == Some('s') then Some(Format(false, spec))
      else if f.conv == Some('r') || f.conv == Some('a') then Some(Format(true, spec))
      else None
  }

  function Copies(c: char, n: nat): (s: string)
    ensures |s| == n && forall i :: 0 <= i < n ==> s[i] == c
  {
    seq(n, _ => c)
  }

  /** `repr` and `ascii` put a string of name characters in quotes. */
  function Quote(f: Format, v: string): string {
    if f.quoted then "'" + v + "'" else v
  }

  function Cut(spec: Spec, s: string): string {
    if spec.precision.Some? && spec.precision.value < |s| then s[..spec.precision.value] else s
  }

  /** How many fill characters go before a string of length `n`, and how many in all. */
  function Before(spec: Spec, n: nat): nat {
    if spec.align == '>' then Padding(spec, n) else if spec.align == '^' then Padding(spec, n) / 2 else 0
  }

  function Padding(spec: Spec, n: nat): nat {
    if n < spec.width then spec.width - n else 0
  }

  function Pad(spec: Spec, s: string): string {
    Copies(spec.fill, Before(spec, |s|)) + s + Copies(spec.fill, Padding(spec, |s|) - Before(spec, |s|))
  }

  /** A field's text for the argument `v`. */
  function Show(f: Format, v: string): string {
    Pad(f.spec, Cut(f.spec, Quote(f, v)))
  }

  // ----- What a format spec says -----

  /** The digits of a number, without leading zeros. */
  function DigitsOf(n: nat): (s: string)
    ensures s != "" && forall i :: 0 <= i < |s| ==> '0' <= s[i] <= '9'
    ensures s[0] == '0' <==> n == 0
    decreases n
  {
    var last := [('0' as int + n % 10) as char];
    if n < 10 then last else DigitsOf(n / 10) + last
  }

  lemma {:induction false} DecimalOfDigits(n: nat)
    ensures Decimal(DigitsOf(n)) == n
    decreases n
  {
    if n < 10 {
      assert Decimal("") == 0;
      assert DigitsOf(n)[..0] == "";
    } else {
      DecimalOfDigits(n / 10);
      assert DigitsOf(n)[..|DigitsOf(n)| - 1] == DigitsOf(n / 10);
    }
  }

  lemma {:induction false} DigitsEndAt(digits: string, rest: string)
    requires forall i :: 0 <= i < |digits| ==> '0' <= digits[i] <= '9'
    requires rest == "" || !('0' <= rest[0] <= '9')
    ensures DigitsEnd(digits + rest) == |digits|
    ensures (digits + rest)[..|digits|] == digits && (digits + rest)[|digits|..] == rest
  {
    if digits == "" {
      assert digits + rest == rest;
    } else {
      DigitsEndAt(digits[1..], rest);
      assert (digits + rest)[1..] == digits[1..] + rest;
    }
  }

  /** The width, the precision and the type as they are written. */
  function WidthText(width: nat, precision: Option<nat>, kind: string): string {
    DigitsOf(width) + PrecisionText(precision, kind)
  }

  function PrecisionText(precision: Option<nat>, kind: string): string {
    if precision.Some? then "." + (DigitsOf(precision.value) + kind) else kind
  }

  /** What can be told from the digits before it. */
  ghost predicate EndsDigits(kind: string) {
    kind == "" || !('0' <= kind[0] <= '9' || kind[0] == '.' || IsAlign(kind[0]))
  }

  /** What a spec of these parts says: nothing, if a number does not fit, the type is not that of
      strings, or the alignment is that of numbers. */
  function SpecOf(fill: char, align: char, width: nat, precision: Option<nat>, kind: string): Option<Spec> {
    if align == '=' || width > MAX_SIZE || (precision.Some? && precision.value > MAX_SIZE) then None
    else if kind != "" && kind != "s" then None
    else Some(Spec(fill, align, width, precision))
  }

  lemma DigitsRead(n: nat, rest: string)
    requires rest == "" || !('0' <= rest[0] <= '9')
    ensures var s := DigitsOf(n) + rest;
      DigitsEnd(s) == |DigitsOf(n)| && Decimal(s[..DigitsEnd(s)]) == n && s[DigitsEnd(s)..] == rest
  {
    DigitsEndAt(DigitsOf(n), rest);
    DecimalOfDigits(n);
  }

  lemma WidthRead(s: string, n: nat, fill: char, align: char)
    requires n <= |s| && DigitsEnd(s) == n && (n < |s| ==> s[n] != '.')
    ensures ParseWidth(s, fill, align) == SpecOf(fill, align, Decimal(s[..n]), None, s[n..])
  {
  }

  lemma WidthAndPrecisionRead(s: string, n: nat, p: string, m: nat, fill: char, align: char)
    requires n < |s| && DigitsEnd(s) == n && s[n] == '.' && s[n + 1..] == p && 0 < m <= |p| && DigitsEnd(p) == m
    ensures ParseWidth(s, fill, align) == SpecOf(fill, align, Decimal(s[..n]), Some(Decimal(p[..m])), p[m..])
  {
  }

  lemma WidthWritten(fill: char, align: char, width: nat, precision: Option<nat>, kind: string)
    requires EndsDigits(kind)
    ensures ParseWidth(WidthText(width, precision, kind), fill, align) == SpecOf(fill, align, width, precision, kind)
  {
    var digits, s := DigitsOf(width), WidthText(width, precision, kind);
    DigitsRead(width, PrecisionText(precision, kind));
    match precision
    case None =>
      WidthRead(s, |digits|, fill, align);
    case Some(n) =>
      DigitsRead(n, kind);
      SliceAfter(digits, PrecisionText(precision, kind), 0);
      SliceAfter(digits, PrecisionText(precision, kind), 1);
      WidthAndPrecisionRead(s, |digits|, DigitsOf(n) + kind, |DigitsOf(n)|, fill, align);
  }

  /** A digit at the front is no alignment, nor is what may follow one. */
  ghost predicate StartsWidth(tail: string) {
    tail != "" && '0' <= tail[0] <= '9' && (|tail| > 1 ==> !IsAlign(tail[1]))
  }

  lemma AlignsRead(fill: char, align: char, tail: string)
    requires IsAlign(align) && StartsWidth(tail)
    ensures ParseSpec([fill, align] + tail) == ParseWidth(tail, fill, align)
    ensures ParseSpec([align] + tail) == ParseZero(tail, align)
    ensures ParseSpec(tail) == ParseZero(tail, '<')
    ensures ParseSpec("0" + tail) == ParseWidth(tail, '0', '<')
  {
    assert ([fill, align] + tail)[2..] == tail && ([align] + tail)[1..] == tail && ("0" + tail)[1..] == tail;
  }

  lemma WidthStarts(width: nat, precision: Option<nat>, kind: string)
    requires EndsDigits(kind)
    ensures StartsWidth(WidthText(width, precision, kind))
    ensures WidthText(width, precision, kind)[0] == '0' <==> width == 0
  {
    var digits, end, tail := DigitsOf(width), PrecisionText(precision, kind), WidthText(width, precision, kind);
    assert tail[0] == digits[0];
    assert |tail| > 1 ==> tail[1] == if |digits| > 1 then digits[1] else end[0];
  }

  /** A format spec written out parses to what it says. Without a fill it is a space, and without an
      alignment the text stands on the left. */
  lemma SpecWritten(fill: char, align: char, width: nat, precision: Option<nat>, kind: string)
    requires IsAlign(align) && EndsDigits(kind)
    ensures var tail := WidthText(width, precision, kind);
      && ParseSpec([fill, align] + tail) == SpecOf(fill, align, width, precision, kind)
      && (width > 0 ==> ParseSpec([align] + tail) == SpecOf(' ', align, width, precision, kind))
      && (width > 0 ==> ParseSpec(tail) == SpecOf(' ', '<', width, precision, kind))
      && ParseSpec("0" + tail) == SpecOf('0', '<', width, precision, kind)
  {
    WidthStarts(width, precision, kind);
    AlignsRead(fill, align, WidthText(width, precision, kind));
    WidthWritten(fill, align, width, precision, kind);
    WidthWritten(' ', align, width, precision, kind);
    WidthWritten(' ', '<', width, precision, kind);
    WidthWritten('0', '<', width, precision, kind);
  }

  /** `s` is `text`, filled up to the width: behind it, in front of it, or around it with the odd one
      behind. */
  ghost predicate FilledUp(s: string, text: string, fill: char, align: char, width: nat) {
    && |s| == (if |text| < width then width else |text|)
    && var k := if align == '<' then 0 else if align == '>' then |s| - |text| else (|s| - |text|) / 2;
       s[k..k + |text|] == text && forall i :: 0 <= i < |s| && !(k <= i < k + |text|) ==> s[i] == fill
  }

  lemma PadFills(spec: Spec, text: string)
    requires spec.align == '<' || spec.align == '>' || spec.align == '^'
    ensures FilledUp(Pad(spec, text), text, spec.fill, spec.align, spec.width)
  {
  }

  lemma AlignsOfText(s: string)
    ensures var spec := ParseSpec(s);
      spec.Some? ==> spec.value.align == '<' || spec.value.align == '>' || spec.value.align == '^'
  {
  }

  /** A field can be shown if its spec says something and its conversion is none, "s", "r" or "a".
      The last two put the argument in quotes. It is then cut to the precision and filled up. */
  lemma ShowSays(f: Piece, v: string)
    requires f.Field?
    ensures FormatOf(f).Some? <==>
      ParseSpec(f.spec).Some? && (f.conv == None || f.conv.value == 's' || f.conv.value == 'r' || f.conv.value == 'a')
    ensures FormatOf(f).Some? ==>
      var spec := ParseSpec(f.spec).value;
      var whole := if f.conv == Some('r') || f.conv == Some('a') then "'" + v + "'" else v;
      var n := if spec.precision.Some? && spec.precision.value < |whole| then spec.precision.value else |whole|;
      FilledUp(Show(FormatOf(f).value, v), whole[..n], spec.fill, spec.align, spec.width)
  {
    AlignsOfText(f.spec);
    var format := FormatOf(f);
    if format.Some? {
      PadFills(format.value.spec, Cut(format.value.spec, Quote(format.value, v)));
    }
  }

  // ----- Formats that keep names apart -----

  /** The length of the shortest name as it is padded. */
  function Shortest(f: Format): nat {
    if f.quoted then 3 else 1
  }

  predicate Pads(f: Format) {
    f.spec.width > Shortest(f)
  }

  /** Nothing is cut off, and what is padded, if anything, can be told from the padding. */
  predicate Distinct(f: Format) {
    f.spec.precision.None? && (Pads(f) ==> f.quoted || !NameChar(f.spec.fill))
  }

  /** The name characters of a string. */
  function Letters(s: string): string {
    if s == "" then "" else (if NameChar(s[0]) then [s[0]] else []) + Letters(s[1..])
  }

  lemma LettersCons(c: char, s: string)
    ensures Letters([c] + s) == (if NameChar(c) then [c] else []) + Letters(s)
  {
    assert ([c] + s)[1..] == s;
  }

  lemma LettersMore(c: char, rest: string, b: string)
    requires Letters(rest + b) == Letters(rest) + Letters(b)
    ensures Letters([c] + (rest + b)) == Letters([c] + rest) + Letters(b)
  {
    LettersCons(c, rest);
    LettersCons(c, rest + b);
  }

  lemma {:induction false} LettersConcat(a: string, b: string)
    ensures Letters(a + b) == Letters(a) + Letters(b)
  {
    if a == "" {
      assert a + b == b;
    } else {
      LettersConcat(a[1..], b);
      LettersMore(a[0], a[1..], b);
      assert a == [a[0]] + a[1..] && a + b == [a[0]] + (a[1..] + b);
    }
  }

  lemma {:induction false} LettersOfName(v: string)
    requires forall c :: c in v ==> NameChar(c)
    ensures Letters(v) == v
  {
    if v != "" {
      LettersOfName(v[1..]);
      assert v == [v[0]] + v[1..];
    }
  }

  lemma {:induction false} LettersOfFill(s: string)
    requires forall c :: c in s ==> !NameChar(c)
    ensures Letters(s) == ""
  {
    if s != "" {
      LettersOfFill(s[1..]);
    }
  }

  lemma LettersOfQuote(f: Format, v: string)
    requires forall c :: c in v ==> NameChar(c)
    ensures Letters(Quote(f, v)) == v
  {
    LettersOfName(v);
    if f.quoted {
      LettersConcat("'" + v, "'");
      LettersConcat("'", v);
      LettersOfFill("'");
    }
  }

  lemma LettersOfPadded(spec: Spec, s: string)
    requires !NameChar(spec.fill)
    ensures Letters(Pad(spec, s)) == Letters(s)
  {
    var front, back := Copies(spec.fill, Before(spec, |s|)), Copies(spec.fill, Padding(spec, |s|) - Before(spec, |s|));
    LettersConcat(front + s, back);
    LettersConcat(front, s);
    LettersOfFill(front);
    LettersOfFill(back);
  }

  /** Padding that is no name character can be filtered out, and quotes with it. */
  lemma LettersOfShown(f: Format, v: string)
    requires f.spec.precision.None? && !NameChar(f.spec.fill) && forall c :: c in v ==> NameChar(c)
    ensures Letters(Show(f, v)) == v
  {
    LettersOfPadded(f.spec, Quote(f, v));
    LettersOfQuote(f, v);
  }

  lemma UnpaddedShown(f: Format, v: string)
    requires f.spec.precision.None? && f.spec.width <= |Quote(f, v)|
    ensures Show(f, v) == Quote(f, v)
  {
  }

  /** Where the quotes stand in a quoted name with padding that is no quote. */
  lemma QuotesAt(f: Format, v: string)
    requires f.quoted && f.spec.precision.None?
    ensures var n := Before(f.spec, |v| + 2);
      && |Show(f, v)| >= n + |v| + 2
      && (forall i :: 0 <= i < n ==> Show(f, v)[i] == f.spec.fill)
      && Show(f, v)[n] == '\'' && Show(f, v)[n + 1 + |v|] == '\''
      && Show(f, v)[n + 1..n + 1 + |v|] == v
  {
    assert Quote(f, v)[1..1 + |v|] == v;
  }

  lemma QuotedApart(f: Format, v: string, w: string)
    requires f.quoted && f.spec.precision.None? && NameChar(f.spec.fill)
    requires (forall c :: c in v ==> NameChar(c)) && (forall c :: c in w ==> NameChar(c))
    requires Show(f, v) == Show(f, w)
    ensures v == w
  {
    QuotesAt(f, v);
    QuotesAt(f, w);
    assert !NameChar('\'');
    assert Before(f.spec, |v| + 2) == Before(f.spec, |w| + 2);
  }

  lemma QuoteApart(f: Format, v: string, w: string)
    requires Quote(f, v) == Quote(f, w)
    ensures v == w
  {
    if f.quoted {
      assert v == Quote(f, v)[1..|Quote(f, v)| - 1] && w == Quote(f, w)[1..|Quote(f, w)| - 1];
    }
  }

  /** Such formats show different names differently. */
  lemma DistinctApart(f: Format, v: string, w: string)
    requires Distinct(f) && NameOk(v) && NameOk(w) && Show(f, v) == Show(f, w)
    ensures v == w
  {
    if !Pads(f) {
      UnpaddedShown(f, v);
      UnpaddedShown(f, w);
      QuoteApart(f, v, w);
    } else if NameChar(f.spec.fill) {
      QuotedApart(f, v, w);
    } else {
      LettersOfShown(f, v);
      LettersOfShown(f, w);
    }
  }

  // ----- Formats that do not -----

  lemma CopiesAreNames(n: nat)
    requires n > 0
    ensures NameOk(Copies('a', n))
  {
    assert Copies('a', n)[0] == 'a';
  }

  /** Truncation shows two long names alike. */
  lemma CutAlike(f: Format) returns (v: string, w: string)
    requires f.spec.precision.Some?
    ensures NameOk(v) && NameOk(w) && v != w && Show(f, v) == Show(f, w)
  {
    var p := f.spec.precision.value;
    v, w := Copies('a', p + 1), Copies('a', p + 2);
    CopiesAreNames(p + 1);
    CopiesAreNames(p + 2);
    assert Quote(f, v)[..p] == Quote(f, w)[..p];
  }

  /** Padding with a name character shows a short name like its padded self. */
  lemma PadAlike(f: Format) returns (v: string, w: string)
    requires f.spec.precision.None? && Pads(f) && !f.quoted && NameChar(f.spec.fill)
    ensures NameOk(v) && NameOk(w) && v != w && Show(f, v) == Show(f, w)
  {
    v, w := "a", Show(f, "a");
    assert |w| == f.spec.width;
    assert w[Before(f.spec, 1)] == 'a';
    forall c | c in w ensures NameChar(c) {
      var i :| 0 <= i < |w| && w[i] == c;
    }
    UnpaddedShown(f, w);
  }

  /** Formats show all names differently exactly if they cut nothing off and pad with nothing that
      a name may contain, unless the name is quoted. */
  lemma DistinctIff(f: Format)
    ensures Distinct(f) <==> forall v, w :: NameOk(v) && NameOk(w) && Show(f, v) == Show(f, w) ==> v == w
  {
    if Distinct(f) {
      forall v, w | NameOk(v) && NameOk(w) && Show(f, v) == Show(f, w) ensures v == w {
        DistinctApart(f, v, w);
      }
    } else if f.spec.precision.Some? {
      var v, w := CutAlike(f);
    } else {
      var v, w := PadAlike(f);
    }
  }
}
